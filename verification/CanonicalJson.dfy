/**
 The canonical form behind an action's fingerprint (packages/cli/src/transfer.ts,
 `canonicalValue` and `actionFingerprint`).

 Two inputs are meant to be fingerprinted alike exactly when they are equal up to the order of
 object keys (`Equal`). Equal inputs always are. The converse fails where the canonical form loses
 something: a member called "__proto__", which an assignment to a plain object never stores, and a
 non-finite number, which becomes the string of its name. `Strip` is what is left, and two inputs
 are hashed from the same text exactly when what is left of them is equal: so, exactly as intended
 for inputs with nothing to lose (`Clean`).
 */
module CanonicalJson {
  import opened Strings
  import opened Options

  /** A parsed input. A finite number is given by its JavaScript text, which determines it; 0 and -0 are one number. */
  datatype Json =
    | Null
    | Bool(b: bool)
    | Num(text: string)
    | NonFinite(text: string)
    | Str(s: string)
    | Arr(items: Items)
    | Obj(members: Members)

  datatype Items = Nil | Cons(head: Json, tail: Items)

  datatype Members = End | Member(key: string, value: Json, rest: Members)

  const PROTO := "__proto__"

  predicate NumberChar(c: char) {
    '0' <= c <= '9' || c in {'-', '+', '.', 'e'}
  }

  const NON_FINITE := {"NaN", "Infinity", "-Infinity"}

  /** Objects have distinct keys; numbers have a number's characters. */
  predicate Valid(v: Json) {
    match v
    case Num(text) => text != "" && forall c :: c in text ==> NumberChar(c)
    case NonFinite(text) => text in NON_FINITE
    case Arr(items) => ValidItems(items)
    case Obj(members) => ValidMembers(members)
    case _ => true
  }

  predicate ValidItems(items: Items) {
    match items
    case Nil => true
    case Cons(head, tail) => Valid(head) && ValidItems(tail)
  }

  predicate ValidMembers(members: Members) {
    match members
    case End => true
    case Member(key, value, rest) => Valid(value) && Lookup(rest, key).None? && ValidMembers(rest)
  }

  function Lookup(members: Members, key: string): Option<Json> {
    match members
    case End => None
    case Member(k, value, rest) => if k == key then Some(value) else Lookup(rest, key)
  }

  // ----- the intended equality

  /** Equal up to the order of object keys. */
  predicate Equal(a: Json, b: Json)
    decreases a
  {
    match a
    case Arr(items) => b.Arr? && EqualItems(items, b.items)
    case Obj(members) => b.Obj? && AllFound(members, b.members) && NoOthers(b.members, members)
    case _ => a == b
  }

  predicate EqualItems(a: Items, b: Items)
    decreases a
  {
    match a
    case Nil => b.Nil?
    case Cons(head, tail) => b.Cons? && Equal(head, b.head) && EqualItems(tail, b.tail)
  }

  /** Every member of `a` has its like in `b`. */
  predicate AllFound(a: Members, b: Members)
    decreases a
  {
    match a
    case End => true
    case Member(key, value, rest) => Lookup(b, key).Some? && Equal(value, Lookup(b, key).value) && AllFound(rest, b)
  }

  /** No member of `b` has a key that `a` lacks. */
  predicate NoOthers(b: Members, a: Members) {
    match b
    case End => true
    case Member(key, _, rest) => Lookup(a, key).Some? && NoOthers(rest, a)
  }

  // ----- what the canonical form loses

  /** No "__proto__" member and no non-finite number anywhere. */
  predicate Clean(v: Json) {
    match v
    case NonFinite(_) => false
    case Arr(items) => CleanItems(items)
    case Obj(members) => CleanMembers(members)
    case _ => true
  }

  predicate CleanItems(items: Items) {
    match items
    case Nil => true
    case Cons(head, tail) => Clean(head) && CleanItems(tail)
  }

  predicate CleanMembers(members: Members) {
    match members
    case End => true
    case Member(key, value, rest) => key != PROTO && Clean(value) && CleanMembers(rest)
  }

  /** Without "__proto__" members, and with the names of non-finite numbers in their place. */
  function Strip(v: Json): Json {
    match v
    case NonFinite(text) => Str(text)
    case Arr(items) => Arr(StripItems(items))
    case Obj(members) => Obj(StripMembers(members))
    case _ => v
  }

  function StripItems(items: Items): Items {
    match items
    case Nil => Nil
    case Cons(head, tail) => Cons(Strip(head), StripItems(tail))
  }

  function StripMembers(members: Members): Members {
    match members
    case End => End
    case Member(key, value, rest) =>
      if key == PROTO then StripMembers(rest) else Member(key, Strip(value), StripMembers(rest))
  }

  // ----- canonical values

  predicate Digits(s: string) {
    forall c :: c in s ==> '0' <= c <= '9'
  }

  /** Keys JavaScript lists first, in numeric order: the decimal forms of 0 .. 2^32 - 2. */
  predicate IsIndex(key: string) {
    Digits(key) && (key == "0" || (key != "" && key[0] != '0'))
    && (|key| < 10 || (|key| == 10 && !Lex("4294967294", key)))
  }

  /** The order in which an object built from sorted keys lists them. */
  predicate KeyLess(a: string, b: string) {
    if IsIndex(a) && IsIndex(b) then |a| < |b| || (|a| == |b| && Lex(a, b))
    else if IsIndex(a) || IsIndex(b) then IsIndex(a)
    else Lex(a, b)
  }

  function Canonical(v: Json): Json {
    match v
    case NonFinite(text) => Str(text)
    case Arr(items) => Arr(CanonicalItems(items))
    case Obj(members) => Obj(CanonicalMembers(members))
    case _ => v
  }

  function CanonicalItems(items: Items): Items {
    match items
    case Nil => Nil
    case Cons(head, tail) => Cons(Canonical(head), CanonicalItems(tail))
  }

  function CanonicalMembers(members: Members): Members {
    match members
    case End => End
    case Member(key, value, rest) =>
      if key == PROTO then CanonicalMembers(rest) else Put(key, Canonical(value), CanonicalMembers(rest))
  }

  /** Puts a member where the key order wants it. */
  function Put(key: string, value: Json, members: Members): Members {
    match members
    case End => Member(key, value, End)
    case Member(k, v, rest) =>
      if KeyLess(key, k) then Member(key, value, members) else Member(k, v, Put(key, value, rest))
  }

  predicate Sorted(members: Members) {
    match members
    case End => true
    case Member(key, _, rest) => (rest.Member? ==> KeyLess(key, rest.key)) && Sorted(rest)
  }

  // ----- the key order is total

  lemma KeyLessTotal(a: string, b: string)
    ensures a == b || KeyLess(a, b) || KeyLess(b, a)
    ensures !(KeyLess(a, b) && KeyLess(b, a))
  {
    LexTotal(a, b);
  }

  lemma KeyLessTransitive(a: string, b: string, c: string)
    requires KeyLess(a, b) && KeyLess(b, c)
    ensures KeyLess(a, c)
  {
    if Lex(a, b) && Lex(b, c) {
      LexTransitive(a, b, c);
    }
  }

  // ----- canonical members: sorted, and the same members but for "__proto__"

  lemma {:induction false} PutSorted(key: string, value: Json, members: Members)
    requires Sorted(members) && Lookup(members, key).None?
    ensures Sorted(Put(key, value, members))
    ensures forall k :: Lookup(Put(key, value, members), k) == if k == key then Some(value) else Lookup(members, k)
  {
    match members {
      case End =>
      case Member(k, v, rest) =>
        KeyLessTotal(key, k);
        if !KeyLess(key, k) {
          PutSorted(key, value, rest);
        }
    }
  }

  function CanonicalLookup(members: Members, key: string): Option<Json> {
    if key == PROTO || Lookup(members, key).None? then None else Some(Canonical(Lookup(members, key).value))
  }

  lemma {:induction false} CanonicalMembersAre(members: Members)
    requires ValidMembers(members)
    ensures Sorted(CanonicalMembers(members))
    ensures forall k :: Lookup(CanonicalMembers(members), k) == CanonicalLookup(members, k)
  {
    match members {
      case End =>
      case Member(key, value, rest) =>
        CanonicalMembersAre(rest);
        if key != PROTO {
          PutSorted(key, Canonical(value), CanonicalMembers(rest));
        }
    }
  }

  lemma {:induction false} NothingBelowFirst(members: Members, key: string)
    requires Sorted(members) && members.Member? && KeyLess(key, members.key)
    ensures Lookup(members, key).None?
  {
    KeyLessTotal(key, members.key);
    if members.rest.Member? {
      KeyLessTransitive(key, members.key, members.rest.key);
      NothingBelowFirst(members.rest, key);
    }
  }

  /** Sorted members are determined by what they look up. */
  lemma {:induction false} SortedDetermined(x: Members, y: Members)
    requires Sorted(x) && Sorted(y) && forall k :: Lookup(x, k) == Lookup(y, k)
    ensures x == y
  {
    assert x.Member? ==> Lookup(y, x.key).Some? by {
      assert x.Member? ==> Lookup(x, x.key).Some?;
    }
    assert y.Member? ==> Lookup(x, y.key).Some? by {
      assert y.Member? ==> Lookup(y, y.key).Some?;
    }
    if x.Member? && y.Member? {
      assert Lookup(x, x.key) == Lookup(y, x.key) && Lookup(x, y.key) == Lookup(y, y.key);
      KeyLessTotal(x.key, y.key);
      if KeyLess(x.key, y.key) {
        NothingBelowFirst(y, x.key);
      } else if KeyLess(y.key, x.key) {
        NothingBelowFirst(x, y.key);
      }
      FirstNotInRest(x);
      FirstNotInRest(y);
      forall k
        ensures Lookup(x.rest, k) == Lookup(y.rest, k)
      {
        assert Lookup(x, k) == Lookup(y, k);
      }
      SortedDetermined(x.rest, y.rest);
    }
  }

  lemma FirstNotInRest(members: Members)
    requires Sorted(members) && members.Member?
    ensures Lookup(members.rest, members.key).None?
  {
    if members.rest.Member? {
      NothingBelowFirst(members.rest, members.key);
    }
  }

  // ----- clean values have the same canonical form exactly when they are equal

  lemma {:induction false} LookupKeeps(members: Members, key: string)
    requires Lookup(members, key).Some?
    ensures ValidMembers(members) ==> Valid(Lookup(members, key).value)
    ensures CleanMembers(members) ==> key != PROTO && Clean(Lookup(members, key).value)
  {
    if members.key != key {
      LookupKeeps(members.rest, key);
    }
  }

  lemma {:induction false} NoOthersMeans(b: Members, a: Members)
    ensures NoOthers(b, a) <==> forall k :: Lookup(b, k).Some? ==> Lookup(a, k).Some?
  {
    if b.Member? {
      NoOthersMeans(b.rest, a);
      assert Lookup(b, b.key).Some?;
      forall k | Lookup(b.rest, k).Some?
        ensures Lookup(b, k).Some?
      {
      }
    }
  }

  lemma {:induction false} EqualIffSameCanonical(a: Json, b: Json)
    requires Valid(a) && Valid(b) && Clean(a) && Clean(b)
    ensures Equal(a, b) <==> Canonical(a) == Canonical(b)
    decreases a
  {
    match a {
      case Arr(items) =>
        if b.Arr? {
          EqualItemsIffSameCanonical(items, b.items);
        }
      case Obj(members) =>
        if b.Obj? {
          EqualMembersIffSameCanonical(members, b.members);
        }
      case _ =>
    }
  }

  lemma {:induction false} EqualItemsIffSameCanonical(a: Items, b: Items)
    requires ValidItems(a) && ValidItems(b) && CleanItems(a) && CleanItems(b)
    ensures EqualItems(a, b) <==> CanonicalItems(a) == CanonicalItems(b)
    decreases a
  {
    if a.Cons? && b.Cons? {
      EqualIffSameCanonical(a.head, b.head);
      EqualItemsIffSameCanonical(a.tail, b.tail);
    }
  }

  /** A member of `a` with key `k` has its like in `b`. */
  predicate Agree(a: Members, b: Members, k: string) {
    Lookup(a, k).Some? ==> Lookup(b, k).Some? && Canonical(Lookup(a, k).value) == Canonical(Lookup(b, k).value)
  }

  lemma {:induction false} AllFoundMeans(a: Members, b: Members)
    requires ValidMembers(a) && ValidMembers(b) && CleanMembers(a) && CleanMembers(b)
    ensures AllFound(a, b) <==> forall k :: Agree(a, b, k)
    decreases a, 0
  {
    if a.Member? {
      AllFoundMeans(a.rest, b);
      if Lookup(b, a.key).Some? {
        LookupKeeps(b, a.key);
        EqualIffSameCanonical(a.value, Lookup(b, a.key).value);
      }
      assert Agree(a.rest, b, a.key);
      assert forall k :: k != a.key ==> Agree(a, b, k) == Agree(a.rest, b, k);
      assert AllFound(a, b) <==> Agree(a, b, a.key) && AllFound(a.rest, b);
    }
  }

  lemma CleanLookup(members: Members, k: string)
    requires ValidMembers(members) && CleanMembers(members)
    ensures CanonicalLookup(members, k) ==
      if Lookup(members, k).None? then None else Some(Canonical(Lookup(members, k).value))
  {
    if Lookup(members, k).Some? {
      LookupKeeps(members, k);
    }
  }

  lemma {:induction false} EqualMembersIffSameCanonical(a: Members, b: Members)
    requires ValidMembers(a) && ValidMembers(b) && CleanMembers(a) && CleanMembers(b)
    ensures AllFound(a, b) && NoOthers(b, a) <==> CanonicalMembers(a) == CanonicalMembers(b)
    decreases a, 1
  {
    var x, y := CanonicalMembers(a), CanonicalMembers(b);
    AllFoundMeans(a, b);
    NoOthersMeans(b, a);
    CanonicalMembersAre(a);
    CanonicalMembersAre(b);
    forall k
      ensures Lookup(x, k) == Lookup(y, k) <==> Agree(a, b, k) && (Lookup(b, k).Some? ==> Lookup(a, k).Some?)
    {
      CleanLookup(a, k);
      CleanLookup(b, k);
      assert Lookup(x, k) == CanonicalLookup(a, k) && Lookup(y, k) == CanonicalLookup(b, k);
    }
    hide CanonicalMembers, Canonical;
    if AllFound(a, b) && NoOthers(b, a) {
      forall k
        ensures Lookup(x, k) == Lookup(y, k)
      {
        assert Agree(a, b, k);
      }
      SortedDetermined(x, y);
    }
    if x == y {
      forall k
        ensures Agree(a, b, k) && (Lookup(b, k).Some? ==> Lookup(a, k).Some?)
      {
        assert Lookup(x, k) == Lookup(y, k);
      }
    }
  }

  // ----- stripping a value

  lemma {:induction false} StripIs(v: Json)
    requires Valid(v)
    ensures Valid(Strip(v)) && Clean(Strip(v)) && Canonical(Strip(v)) == Canonical(v)
    ensures Clean(v) ==> Strip(v) == v
    decreases v
  {
    match v {
      case Arr(items) => StripItemsIs(items);
      case Obj(members) => StripMembersIs(members);
      case _ =>
    }
  }

  lemma {:induction false} StripItemsIs(items: Items)
    requires ValidItems(items)
    ensures ValidItems(StripItems(items)) && CleanItems(StripItems(items))
    ensures CanonicalItems(StripItems(items)) == CanonicalItems(items)
    ensures CleanItems(items) ==> StripItems(items) == items
    decreases items
  {
    if items.Cons? {
      StripIs(items.head);
      StripItemsIs(items.tail);
    }
  }

  lemma {:induction false} StripMembersIs(members: Members)
    requires ValidMembers(members)
    ensures ValidMembers(StripMembers(members)) && CleanMembers(StripMembers(members))
    ensures CanonicalMembers(StripMembers(members)) == CanonicalMembers(members)
    ensures CleanMembers(members) ==> StripMembers(members) == members
    decreases members
  {
    if members.Member? {
      StripIs(members.value);
      StripMembersIs(members.rest);
      StripLookup(members.rest, members.key);
    }
  }

  lemma {:induction false} StripLookup(members: Members, key: string)
    ensures Lookup(StripMembers(members), key) ==
      if key == PROTO || Lookup(members, key).None? then None else Some(Strip(Lookup(members, key).value))
  {
    if members.Member? {
      StripLookup(members.rest, key);
    }
  }

  /** Equal values stay equal when both are stripped. */
  lemma {:induction false} StripKeepsEqual(a: Json, b: Json)
    requires Equal(a, b)
    ensures Equal(Strip(a), Strip(b))
    decreases a
  {
    match a {
      case Arr(items) => StripKeepsEqualItems(items, b.items);
      case Obj(members) =>
        StripKeepsFound(members, b.members);
        StripKeepsNoOthers(b.members, members);
      case _ =>
    }
  }

  lemma {:induction false} StripKeepsEqualItems(a: Items, b: Items)
    requires EqualItems(a, b)
    ensures EqualItems(StripItems(a), StripItems(b))
    decreases a
  {
    if a.Cons? {
      StripKeepsEqual(a.head, b.head);
      StripKeepsEqualItems(a.tail, b.tail);
    }
  }

  lemma {:induction false} StripKeepsFound(a: Members, b: Members)
    requires AllFound(a, b)
    ensures AllFound(StripMembers(a), StripMembers(b))
    decreases a
  {
    if a.Member? {
      StripKeepsFound(a.rest, b);
      if a.key != PROTO {
        StripKeepsEqual(a.value, Lookup(b, a.key).value);
        StripLookup(b, a.key);
      }
    }
  }

  lemma {:induction false} StripKeepsNoOthers(b: Members, a: Members)
    requires NoOthers(b, a)
    ensures NoOthers(StripMembers(b), StripMembers(a))
  {
    if b.Member? {
      StripKeepsNoOthers(b.rest, a);
      StripLookup(a, b.key);
    }
  }

  /** What is equal to a clean value is clean. */
  lemma {:induction false} EqualToClean(a: Json, b: Json)
    requires Equal(a, b) && Clean(b)
    ensures Clean(a)
    decreases a
  {
    match a {
      case Arr(items) => EqualToCleanItems(items, b.items);
      case Obj(members) => FoundInClean(members, b.members);
      case _ =>
    }
  }

  lemma {:induction false} EqualToCleanItems(a: Items, b: Items)
    requires EqualItems(a, b) && CleanItems(b)
    ensures CleanItems(a)
    decreases a
  {
    if a.Cons? {
      EqualToClean(a.head, b.head);
      EqualToCleanItems(a.tail, b.tail);
    }
  }

  lemma {:induction false} FoundInClean(a: Members, b: Members)
    requires AllFound(a, b) && CleanMembers(b)
    ensures CleanMembers(a)
    decreases a
  {
    if a.Member? {
      LookupKeeps(b, a.key);
      EqualToClean(a.value, Lookup(b, a.key).value);
      FoundInClean(a.rest, b);
    }
  }

  /** Any two inputs have the same canonical form exactly when what is left of them is equal. */
  lemma SameCanonicalIff(a: Json, b: Json)
    requires Valid(a) && Valid(b)
    ensures Canonical(a) == Canonical(b) <==> Equal(Strip(a), Strip(b))
    ensures Equal(a, b) ==> Canonical(a) == Canonical(b)
  {
    StripIs(a);
    StripIs(b);
    EqualIffSameCanonical(Strip(a), Strip(b));
    if Equal(a, b) {
      StripKeepsEqual(a, b);
    }
  }

  // ----- JSON text: `Write(v, after)` is the text of `v` followed by `after`

  function HexDigit(n: nat): char
    requires n < 16
  {
    if n < 10 then '0' + n as char else 'a' + (n - 10) as char
  }

  /** `JSON.stringify`'s escape of one character. */
  function WriteChar(c: char, after: string): string {
    if c == '"' then ['\\', '"'] + after
    else if c == '\\' then ['\\', '\\'] + after
    else if c as int == 8 then ['\\', 'b'] + after
    else if c as int == 12 then ['\\', 'f'] + after
    else if c as int == 10 then ['\\', 'n'] + after
    else if c as int == 13 then ['\\', 'r'] + after
    else if c as int == 9 then ['\\', 't'] + after
    else if c as int < 32 then ['\\', 'u', '0', '0', HexDigit(c as int / 16), HexDigit(c as int % 16)] + after
    else [c] + after
  }

  /** The characters of `s`, escaped, up to and including the closing quote. */
  function WriteChars(s: string, after: string): string {
    if s == "" then ['"'] + after else WriteChar(s[0], WriteChars(s[1..], after))
  }

  function Write(v: Json, after: string): string
    decreases v
  {
    match v
    case Null => "null" + after
    case Bool(b) => (if b then "true" else "false") + after
    case Num(text) => text + after
    case NonFinite(_) => "null" + after
    case Str(s) => ['"'] + WriteChars(s, after)
    case Arr(items) => ['['] + WriteItems(items, true, after)
    case Obj(members) => ['{'] + WriteMembers(members, true, after)
  }

  function WriteItems(items: Items, first: bool, after: string): string
    decreases items
  {
    match items
    case Nil => [']'] + after
    case Cons(head, tail) =>
      var rest := Write(head, WriteItems(tail, false, after));
      if first then rest else [','] + rest
  }

  function WriteMembers(members: Members, first: bool, after: string): string
    decreases members
  {
    match members
    case End => ['}'] + after
    case Member(key, value, more) =>
      var rest := ['"'] + WriteChars(key, [':'] + Write(value, WriteMembers(more, false, after)));
      if first then rest else [','] + rest
  }

  /** What is hashed for an input: the JSON text of its canonical value. */
  function Text(v: Json): string {
    Write(Canonical(v), "")
  }

  // ----- the text determines the value

  lemma Same1(a: char, x: string, b: char, y: string)
    requires [a] + x == [b] + y
    ensures a == b && x == y
  {
    assert ([a] + x)[0] == a && ([b] + y)[0] == b;
    assert ([a] + x)[1..] == x && ([b] + y)[1..] == y;
  }

  lemma CharDetermined(c: char, x: string, d: char, y: string)
    requires WriteChar(c, x) == WriteChar(d, y)
    ensures c == d && x == y
  {
    var s, t := WriteChar(c, x), WriteChar(d, y);
    assert s[0] == t[0] && (s[0] == '\\' ==> s[1] == t[1]);
    assert s[0] == '\\' && s[1] == 'u' ==> s[4] == t[4] && s[5] == t[5] && s[6..] == x && t[6..] == y;
    assert s[0] == '\\' && s[1] != 'u' ==> s[2..] == x && t[2..] == y;
    assert s[0] != '\\' ==> s[1..] == x && t[1..] == y;
  }

  lemma CharNeverQuote(c: char, x: string, y: string)
    ensures WriteChar(c, x) != ['"'] + y
  {
    assert (['"'] + y)[0] == '"' && WriteChar(c, x)[0] != '"';
  }

  lemma {:induction false} CharsDetermined(s: string, x: string, t: string, y: string)
    requires WriteChars(s, x) == WriteChars(t, y)
    ensures s == t && x == y
  {
    if s == "" && t == "" {
      Same1('"', x, '"', y);
    } else if s == "" {
      CharNeverQuote(t[0], WriteChars(t[1..], y), x);
    } else if t == "" {
      CharNeverQuote(s[0], WriteChars(s[1..], x), y);
    } else {
      CharDetermined(s[0], WriteChars(s[1..], x), t[0], WriteChars(t[1..], y));
      CharsDetermined(s[1..], x, t[1..], y);
      assert s == [s[0]] + s[1..] && t == [t[0]] + t[1..];
    }
  }

  /** What may follow a value: nothing, or a separator. */
  predicate Stops(after: string) {
    after == "" || !NumberChar(after[0])
  }

  lemma LongerNumberMeansNoStop(s: string, x: string, t: string, y: string)
    requires s + x == t + y && forall c :: c in t ==> NumberChar(c)
    ensures |s| < |t| ==> !Stops(x)
  {
    if |s| < |t| {
      assert (s + x)[|s|] == x[0] && (t + y)[|s|] == t[|s|];
    }
  }

  lemma NumberDetermined(s: string, x: string, t: string, y: string)
    requires s + x == t + y && Stops(x) && Stops(y)
    requires (forall c :: c in s ==> NumberChar(c)) && (forall c :: c in t ==> NumberChar(c))
    ensures s == t && x == y
  {
    LongerNumberMeansNoStop(s, x, t, y);
    LongerNumberMeansNoStop(t, y, s, x);
    assert s == (s + x)[..|s|] && t == (t + y)[..|t|];
    assert x == (s + x)[|s|..] && y == (t + y)[|t|..];
  }

  /** No value is left that JSON text cannot show. */
  predicate Plain(v: Json) {
    match v
    case NonFinite(_) => false
    case Arr(items) => PlainItems(items)
    case Obj(members) => PlainMembers(members)
    case Num(text) => text != "" && forall c :: c in text ==> NumberChar(c)
    case _ => true
  }

  predicate PlainItems(items: Items) {
    match items
    case Nil => true
    case Cons(head, tail) => Plain(head) && PlainItems(tail)
  }

  predicate PlainMembers(members: Members) {
    match members
    case End => true
    case Member(_, value, rest) => Plain(value) && PlainMembers(rest)
  }

  /** The first character tells which kind of value is written. */
  function FirstChar(v: Json): char
    requires Plain(v)
  {
    match v
    case Null => 'n'
    case Bool(b) => if b then 't' else 'f'
    case Num(text) => text[0]
    case Str(_) => '"'
    case Arr(_) => '['
    case Obj(_) => '{'
  }

  lemma WriteStarts(v: Json, after: string)
    requires Plain(v)
    ensures Write(v, after) != "" && Write(v, after)[0] == FirstChar(v)
  {
  }

  lemma FirstCharTellsKind(a: Json, b: Json)
    requires Plain(a) && Plain(b) && FirstChar(a) == FirstChar(b)
    ensures (a.Null? <==> b.Null?) && (a.Bool? ==> a == b) && (a.Num? <==> b.Num?)
    ensures (a.Str? <==> b.Str?) && (a.Arr? <==> b.Arr?) && (a.Obj? <==> b.Obj?)
    ensures FirstChar(a) != ']'
  {
    assert a.Num? ==> NumberChar(a.text[0]);
    assert b.Num? ==> NumberChar(b.text[0]);
  }

  /** After the first item or member comes a separator or the closing bracket. */
  lemma TailsStop(items: Items, members: Members, after: string)
    ensures Stops(WriteItems(items, false, after)) && Stops(WriteMembers(members, false, after))
  {
  }

  lemma ClosingBracketTells(items: Items, first: bool, after: string)
    requires PlainItems(items)
    ensures WriteItems(items, first, after) != ""
    ensures WriteItems(items, first, after)[0] == ']' <==> items.Nil?
  {
    if items.Cons? {
      WriteStarts(items.head, WriteItems(items.tail, false, after));
      FirstCharTellsKind(items.head, items.head);
    }
  }

  lemma ClosingBraceTells(members: Members, first: bool, after: string)
    ensures WriteMembers(members, first, after) != ""
    ensures WriteMembers(members, first, after)[0] == '}' <==> members.End?
  {
  }

  lemma {:induction false} WriteDetermined(a: Json, x: string, b: Json, y: string)
    requires Plain(a) && Plain(b) && Stops(x) && Stops(y) && Write(a, x) == Write(b, y)
    ensures a == b && x == y
    decreases a
  {
    WriteStarts(a, x);
    WriteStarts(b, y);
    FirstCharTellsKind(a, b);
    match a {
      case Null => WordDetermined("null", x, y);
      case Bool(v) => WordDetermined(if v then "true" else "false", x, y);
      case Num(text) =>
        NumberDetermined(text, x, b.text, y);
      case Str(s) =>
        Same1('"', WriteChars(s, x), '"', WriteChars(b.s, y));
        CharsDetermined(s, x, b.s, y);
      case Arr(items) =>
        Same1('[', WriteItems(items, true, x), '[', WriteItems(b.items, true, y));
        ItemsDetermined(items, x, b.items, y, true);
      case Obj(members) =>
        Same1('{', WriteMembers(members, true, x), '{', WriteMembers(b.members, true, y));
        MembersDetermined(members, x, b.members, y, true);
    }
  }

  lemma WordDetermined(w: string, x: string, y: string)
    requires w + x == w + y
    ensures x == y
  {
    assert (w + x)[|w|..] == x && (w + y)[|w|..] == y;
  }

  lemma {:induction false} ItemsDetermined(a: Items, x: string, b: Items, y: string, first: bool)
    requires PlainItems(a) && PlainItems(b) && WriteItems(a, first, x) == WriteItems(b, first, y)
    ensures a == b && x == y
    decreases a
  {
    ClosingBracketTells(a, first, x);
    ClosingBracketTells(b, first, y);
    if a.Nil? {
      Same1(']', x, ']', y);
    } else {
      TailsStop(a.tail, End, x);
      TailsStop(b.tail, End, y);
      var restA, restB := WriteItems(a.tail, false, x), WriteItems(b.tail, false, y);
      if !first {
        Same1(',', Write(a.head, restA), ',', Write(b.head, restB));
      }
      WriteDetermined(a.head, restA, b.head, restB);
      ItemsDetermined(a.tail, x, b.tail, y, false);
    }
  }

  lemma {:induction false} MembersDetermined(a: Members, x: string, b: Members, y: string, first: bool)
    requires PlainMembers(a) && PlainMembers(b) && WriteMembers(a, first, x) == WriteMembers(b, first, y)
    ensures a == b && x == y
    decreases a
  {
    ClosingBraceTells(a, first, x);
    ClosingBraceTells(b, first, y);
    if a.End? {
      Same1('}', x, '}', y);
    } else {
      TailsStop(Nil, a.rest, x);
      TailsStop(Nil, b.rest, y);
      var restA, restB := WriteMembers(a.rest, false, x), WriteMembers(b.rest, false, y);
      var tailA, tailB := [':'] + Write(a.value, restA), [':'] + Write(b.value, restB);
      if !first {
        Same1(',', ['"'] + WriteChars(a.key, tailA), ',', ['"'] + WriteChars(b.key, tailB));
      }
      Same1('"', WriteChars(a.key, tailA), '"', WriteChars(b.key, tailB));
      CharsDetermined(a.key, tailA, b.key, tailB);
      Same1(':', Write(a.value, restA), ':', Write(b.value, restB));
      WriteDetermined(a.value, restA, b.value, restB);
      MembersDetermined(a.rest, x, b.rest, y, false);
    }
  }

  lemma {:induction false} CanonicalIsPlain(v: Json)
    requires Valid(v)
    ensures Plain(Canonical(v))
    decreases v
  {
    match v {
      case Arr(items) => CanonicalItemsPlain(items);
      case Obj(members) => CanonicalMembersPlain(members);
      case _ =>
    }
  }

  lemma {:induction false} CanonicalItemsPlain(items: Items)
    requires ValidItems(items)
    ensures PlainItems(CanonicalItems(items))
    decreases items
  {
    if items.Cons? {
      CanonicalIsPlain(items.head);
      CanonicalItemsPlain(items.tail);
    }
  }

  lemma {:induction false} CanonicalMembersPlain(members: Members)
    requires ValidMembers(members)
    ensures PlainMembers(CanonicalMembers(members))
    decreases members
  {
    if members.Member? {
      CanonicalIsPlain(members.value);
      CanonicalMembersPlain(members.rest);
      PutPlain(members.key, Canonical(members.value), CanonicalMembers(members.rest));
    }
  }

  lemma {:induction false} PutPlain(key: string, value: Json, members: Members)
    requires Plain(value) && PlainMembers(members)
    ensures PlainMembers(Put(key, value, members))
  {
    if members.Member? && !KeyLess(key, members.key) {
      PutPlain(key, value, members.rest);
    }
  }

  lemma SameTextIffSameCanonical(a: Json, b: Json)
    requires Valid(a) && Valid(b)
    ensures Text(a) == Text(b) <==> Canonical(a) == Canonical(b)
  {
    CanonicalIsPlain(a);
    CanonicalIsPlain(b);
    if Text(a) == Text(b) {
      WriteDetermined(Canonical(a), "", Canonical(b), "");
    }
  }

  /**
   Inputs equal up to key order are hashed from the same text; any two are exactly when what is left of
   them is equal.
   */
  lemma SameTextIff(a: Json, b: Json)
    requires Valid(a) && Valid(b)
    ensures Equal(a, b) ==> Text(a) == Text(b)
    ensures Text(a) == Text(b) <==> Equal(Strip(a), Strip(b))
    ensures Clean(a) && Clean(b) ==> (Text(a) == Text(b) <==> Equal(a, b))
  {
    SameTextIffSameCanonical(a, b);
    SameCanonicalIff(a, b);
    StripIs(a);
    StripIs(b);
  }

  /** An input's text tells it from every clean input that is not equal to it exactly when it is clean itself. */
  lemma TellsApartIffClean(a: Json)
    requires Valid(a)
    ensures Clean(a) <==> forall b :: Valid(b) && Clean(b) ==> (Text(a) == Text(b) <==> Equal(a, b))
  {
    forall b | Clean(a) && Valid(b) && Clean(b)
      ensures Text(a) == Text(b) <==> Equal(a, b)
    {
      SameTextIff(a, b);
    }
    if !Clean(a) {
      var b := Strip(a);
      StripIs(a);
      SameTextIffSameCanonical(a, b);
      if Equal(a, b) {
        EqualToClean(a, b);
      }
      assert Valid(b) && Clean(b) && Text(a) == Text(b) && !Equal(a, b);
    }
  }

  /** `{"__proto__": "x"}` and `{}` are hashed from the same text. */
  lemma ProtoCollides()
    ensures var a, b := Obj(Member(PROTO, Str("x"), End)), Obj(End);
      Valid(a) && Valid(b) && !Equal(a, b) && Text(a) == Text(b)
  {
  }

  /** So are `1e999`, which is read as an infinite number, and `"Infinity"`. */
  lemma InfinityCollides()
    ensures var a, b := NonFinite("Infinity"), Str("Infinity");
      Valid(a) && Valid(b) && !Equal(a, b) && Text(a) == Text(b)
  {
  }

  // ----- the name in front

  const NUL := 0 as char

  /** The text whose hash is the fingerprint. */
  function Preimage(name: string, input: Json): string {
    name + [NUL] + Text(input)
  }

  /** Escaping leaves no NUL inside JSON text. */
  lemma {:induction false} CharsHaveNoNul(s: string, after: string)
    requires NUL !in after
    ensures NUL !in WriteChars(s, after)
  {
    if s != "" {
      CharsHaveNoNul(s[1..], after);
    }
  }

  lemma {:induction false} WriteHasNoNul(v: Json, after: string)
    requires Plain(v) && NUL !in after
    ensures NUL !in Write(v, after)
    decreases v
  {
    match v {
      case Num(text) =>
        assert NUL in text ==> NumberChar(NUL);
      case Str(s) => CharsHaveNoNul(s, after);
      case Arr(items) => ItemsHaveNoNul(items, true, after);
      case Obj(members) => MembersHaveNoNul(members, true, after);
      case _ =>
    }
  }

  lemma {:induction false} ItemsHaveNoNul(items: Items, first: bool, after: string)
    requires PlainItems(items) && NUL !in after
    ensures NUL !in WriteItems(items, first, after)
    decreases items
  {
    if items.Cons? {
      ItemsHaveNoNul(items.tail, false, after);
      WriteHasNoNul(items.head, WriteItems(items.tail, false, after));
    }
  }

  lemma {:induction false} MembersHaveNoNul(members: Members, first: bool, after: string)
    requires PlainMembers(members) && NUL !in after
    ensures NUL !in WriteMembers(members, first, after)
    decreases members
  {
    if members.Member? {
      MembersHaveNoNul(members.rest, false, after);
      WriteHasNoNul(members.value, WriteMembers(members.rest, false, after));
      CharsHaveNoNul(members.key, [':'] + Write(members.value, WriteMembers(members.rest, false, after)));
    }
  }

  lemma LaterNul(m: string, x: string, n: string, y: string)
    requires m + [NUL] + x == n + [NUL] + y
    ensures |m| < |n| ==> NUL in x
  {
    if |m| < |n| {
      assert (m + [NUL] + x)[|n|] == x[|n| - |m| - 1] && (n + [NUL] + y)[|n|] == NUL;
    }
  }

  lemma LastNulSplits(m: string, x: string, n: string, y: string)
    requires m + [NUL] + x == n + [NUL] + y && NUL !in x && NUL !in y
    ensures m == n && x == y
  {
    LaterNul(m, x, n, y);
    LaterNul(n, y, m, x);
    assert m == (m + [NUL] + x)[..|m|] && n == (n + [NUL] + y)[..|n|];
    assert x == (m + [NUL] + x)[|m| + 1..] && y == (n + [NUL] + y)[|n| + 1..];
  }

  /** The hashed text determines the name, whatever characters it has, and the text of the input. */
  lemma SamePreimageIff(m: string, a: Json, n: string, b: Json)
    requires Valid(a) && Valid(b)
    ensures Preimage(m, a) == Preimage(n, b) <==> m == n && Equal(Strip(a), Strip(b))
  {
    SameTextIff(a, b);
    if Preimage(m, a) == Preimage(n, b) {
      CanonicalIsPlain(a);
      CanonicalIsPlain(b);
      WriteHasNoNul(Canonical(a), "");
      WriteHasNoNul(Canonical(b), "");
      LastNulSplits(m, Text(a), n, Text(b));
    }
  }

  /** Equal actions are hashed alike, and clean ones only if they are equal. */
  lemma PreimageAgreesExactlyOnSameActions(m: string, a: Json, n: string, b: Json)
    requires Valid(a) && Valid(b)
    ensures m == n && Equal(a, b) ==> Preimage(m, a) == Preimage(n, b)
    ensures Clean(a) && Clean(b) ==> (Preimage(m, a) == Preimage(n, b) <==> m == n && Equal(a, b))
  {
    SamePreimageIff(m, a, n, b);
    SameTextIff(a, b);
  }

  /** The members of an object, in no order. */
  function Bag(members: Members): multiset<(string, Json)> {
    match members
    case End => multiset{}
    case Member(key, value, rest) => multiset{(key, value)} + Bag(rest)
  }

  lemma {:induction false} BagLookup(members: Members, key: string, value: Json)
    requires ValidMembers(members)
    ensures (key, value) in Bag(members) <==> Lookup(members, key) == Some(value)
  {
    if members.Member? {
      BagLookup(members.rest, key, value);
    }
  }

  /** Rearranging the members of an object, in any way, never changes the text. */
  lemma KeyOrderIsIrrelevant(x: Members, y: Members)
    requires ValidMembers(x) && ValidMembers(y) && Bag(x) == Bag(y)
    ensures Canonical(Obj(x)) == Canonical(Obj(y))
    ensures Text(Obj(x)) == Text(Obj(y))
  {
    CanonicalMembersAre(x);
    CanonicalMembersAre(y);
    forall key
      ensures Lookup(CanonicalMembers(x), key) == Lookup(CanonicalMembers(y), key)
    {
      forall value
        ensures Lookup(x, key) == Some(value) <==> Lookup(y, key) == Some(value)
      {
        BagLookup(x, key, value);
        BagLookup(y, key, value);
      }
      assert Lookup(x, key) == Lookup(y, key) by {
        if Lookup(x, key).Some? {
          assert Lookup(y, key) == Some(Lookup(x, key).value);
        }
        if Lookup(y, key).Some? {
          assert Lookup(x, key) == Some(Lookup(y, key).value);
        }
      }
      assert CanonicalLookup(x, key) == CanonicalLookup(y, key);
    }
    SortedDetermined(CanonicalMembers(x), CanonicalMembers(y));
  }
}
