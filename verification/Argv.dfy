/**
 The argument parser (packages/cli/src/args.ts, `parseArgs`) and the command line a detached job
 is re-launched with (packages/cli/src/jobs-registry.ts, packages/cli/src/commands.ts).
 */
module Argv {
  import opened Options

  /**
   Names and aliases of the flags that take a value, that collect values, and that are switches, each
   with its canonical name.
   */
  datatype FlagSpec = FlagSpec(value: map<string, string>, multi: map<string, string>, switches: map<string, string>)

  datatype Parsed = Parsed(
    positionals: seq<string>,
    flags: map<string, string>,
    multi: map<string, seq<string>>,
    bools: set<string>,
    unknown: seq<string>)

  const NOTHING := Parsed([], map[], map[], {}, [])

  /** What one or two tokens are read as. */
  datatype Item =
    | Word(token: string)
    | Dashes
    | Valued(token: string, following: Option<string>)
    | Switch(token: string)

  function Undashed(token: string): string {
    if token != "" && token[0] == '-' then Undashed(token[1..]) else token
  }

  /** The position of the first equals sign, or the length. */
  function EqualsAt(raw: string, i: nat): (k: nat)
    requires i <= |raw|
    ensures i <= k <= |raw|
    decreases |raw| - i
  {
    if i == |raw| || raw[i] == '=' then i else EqualsAt(raw, i + 1)
  }

  function Name(token: string): string {
    Undashed(token)[..EqualsAt(Undashed(token), 0)]
  }

  function Inline(token: string): Option<string> {
    var raw := Undashed(token);
    var eq := EqualsAt(raw, 0);
    if eq < |raw| then Some(raw[eq + 1..]) else None
  }

  predicate IsFlag(token: string) {
    token != "" && token[0] == '-'
  }

  predicate TakesValue(spec: FlagSpec, name: string) {
    name in spec.value || name in spec.multi
  }

  /** The token is a flag that takes the token after it as its value. */
  predicate Reaches(spec: FlagSpec, token: string) {
    IsFlag(token) && token != "--" && TakesValue(spec, Name(token)) && Inline(token).None?
  }

  /** What the token at `i` is read as. */
  function ItemAt(spec: FlagSpec, argv: seq<string>, i: nat, dashes: bool): Item
    requires i < |argv|
  {
    var token := argv[i];
    if dashes then Word(token)
    else if token == "--" then Dashes
    else if !IsFlag(token) then Word(token)
    else if !TakesValue(spec, Name(token)) then Switch(token)
    else Valued(token, if Inline(token).None? && i + 1 < |argv| then Some(argv[i + 1]) else None)
  }

  function Size(item: Item): nat {
    if item.Valued? && item.following.Some? then 2 else 1
  }

  function Scan(spec: FlagSpec, argv: seq<string>, i: nat, dashes: bool): seq<Item>
    decreases |argv| - i
  {
    if i >= |argv| then []
    else
      var item := ItemAt(spec, argv, i, dashes);
      [item] + Scan(spec, argv, i + Size(item), dashes || item.Dashes?)
  }

  // ----- what the items amount to

  function ValueOf(item: Item): string
    requires item.Valued?
  {
    if Inline(item.token).Some? then Inline(item.token).value
    else if item.following.Some? then item.following.value
    else ""
  }

  function Add(spec: FlagSpec, p: Parsed, item: Item): Parsed {
    match item
    case Word(token) => p.(positionals := p.positionals + [token])
    case Dashes => p
    case Valued(token, _) => AddValue(spec, p, Name(token), ValueOf(item))
    case Switch(token) => AddSwitch(spec, p, token)
  }

  function AddValue(spec: FlagSpec, p: Parsed, name: string, value: string): Parsed {
    if name in spec.value then p.(flags := p.flags[spec.value[name] := value])
    else if name in spec.multi then
      var canon := spec.multi[name];
      p.(multi := p.multi[canon := (if canon in p.multi then p.multi[canon] else []) + [value]])
    else p
  }

  function Canonical(spec: FlagSpec, name: string): string {
    if name in spec.switches then spec.switches[name] else name
  }

  function AddSwitch(spec: FlagSpec, p: Parsed, token: string): Parsed {
    var canon := Canonical(spec, Name(token));
    p.(unknown := if Name(token) in spec.switches then p.unknown else p.unknown + [token],
       bools := p.bools + {canon},
       flags := if Inline(token).Some? then p.flags[canon := Inline(token).value] else p.flags)
  }

  function Collect(spec: FlagSpec, p: Parsed, items: seq<Item>, n: nat): Parsed
    requires n <= |items|
  {
    if n == 0 then p else Add(spec, Collect(spec, p, items, n - 1), items[n - 1])
  }

  function Parse(spec: FlagSpec, argv: seq<string>): Parsed {
    var items := Scan(spec, argv, 0, false);
    Collect(spec, NOTHING, items, |items|)
  }

  lemma {:induction false} CollectOfPrefix(spec: FlagSpec, p: Parsed, items: seq<Item>, more: seq<Item>, n: nat)
    requires n <= |items|
    ensures Collect(spec, p, items + more, n) == Collect(spec, p, items, n)
  {
    hide Add;
    if n > 0 {
      CollectOfPrefix(spec, p, items, more, n - 1);
    }
  }

  lemma {:induction false} CollectAppend(spec: FlagSpec, p: Parsed, items: seq<Item>, more: seq<Item>, n: nat)
    requires n <= |more|
    ensures Collect(spec, p, items + more, |items| + n) == Collect(spec, Collect(spec, p, items, |items|), more, n)
  {
    hide Add;
    if n > 0 {
      CollectAppend(spec, p, items, more, n - 1);
    } else {
      CollectOfPrefix(spec, p, items, more, |items|);
    }
  }

  /** The parser's loop: one pass, a flag looking one token ahead for its value. */
  method ParseArgs(spec: FlagSpec, argv: seq<string>) returns (p: Parsed)
    ensures p == Parse(spec, argv)
  {
    hide Collect, AddValue, AddSwitch, Scan, Name, Inline, TakesValue;
    p := NOTHING;
    var i := 0;
    var doubleDash := false;
    ghost var done: seq<Item> := [];
    ghost var all := Scan(spec, argv, 0, false);
    NothingCollected(spec);
    while i < |argv|
      invariant 0 <= i && all == done + Scan(spec, argv, i, doubleDash)
      invariant p == Collect(spec, NOTHING, done, |done|)
    {
      ghost var item := ItemAt(spec, argv, i, doubleDash);
      ScanOneMore(spec, argv, i, doubleDash, done);
      CollectOneMore(spec, done, item);
      done := done + [item];
      var tok := argv[i];
      i := i + 1;
      if doubleDash {
        p := p.(positionals := p.positionals + [tok]);
        continue;
      }
      if tok == "--" {
        doubleDash := true;
        continue;
      }
      if |tok| > 0 && tok[0] == '-' {
        if TakesValue(spec, Name(tok)) {
          var value := Inline(tok);
          if value.None? {
            if i < |argv| {
              value := Some(argv[i]);
              i := i + 1;
            } else {
              value := Some("");
            }
          }
          p := AddValue(spec, p, Name(tok), value.value);
        } else {
          p := AddSwitch(spec, p, tok);
        }
        continue;
      }
      p := p.(positionals := p.positionals + [tok]);
    }
    ScanEnds(spec, argv, i, doubleDash);
    assert done + [] == done;
  }

  lemma ScanOneMore(spec: FlagSpec, argv: seq<string>, i: nat, dashes: bool, done: seq<Item>)
    requires i < |argv|
    ensures var item := ItemAt(spec, argv, i, dashes);
      done + Scan(spec, argv, i, dashes) == done + [item] + Scan(spec, argv, i + Size(item), dashes || item.Dashes?)
  {
    hide ItemAt;
    var item := ItemAt(spec, argv, i, dashes);
    assert done + ([item] + Scan(spec, argv, i + Size(item), dashes || item.Dashes?))
      == done + [item] + Scan(spec, argv, i + Size(item), dashes || item.Dashes?);
  }

  lemma ScanEnds(spec: FlagSpec, argv: seq<string>, i: nat, dashes: bool)
    requires i >= |argv|
    ensures Scan(spec, argv, i, dashes) == []
  {
  }

  lemma NothingCollected(spec: FlagSpec)
    ensures Collect(spec, NOTHING, [], 0) == NOTHING
  {
  }

  lemma CollectOneMore(spec: FlagSpec, items: seq<Item>, item: Item)
    ensures Collect(spec, NOTHING, items + [item], |items + [item]|) ==
      Add(spec, Collect(spec, NOTHING, items, |items|), item)
  {
    CollectOfPrefix(spec, NOTHING, items, [item], |items|);
  }

  // ----- every token is read once

  function Tokens(item: Item): seq<string> {
    match item
    case Word(token) => [token]
    case Dashes => ["--"]
    case Valued(token, following) => [token] + if following.Some? then [following.value] else []
    case Switch(token) => [token]
  }

  function Spelled(items: seq<Item>): seq<string> {
    if items == [] then [] else Tokens(items[0]) + Spelled(items[1..])
  }

  /** The items spell the command line: each token is read exactly once, in order. */
  lemma {:induction false} EveryTokenOnce(spec: FlagSpec, argv: seq<string>, i: nat, dashes: bool)
    requires i <= |argv|
    ensures Spelled(Scan(spec, argv, i, dashes)) == argv[i..]
    decreases |argv| - i
  {
    if i < |argv| {
      var item := ItemAt(spec, argv, i, dashes);
      EveryTokenOnce(spec, argv, i + Size(item), dashes || item.Dashes?);
      var rest := Scan(spec, argv, i + Size(item), dashes || item.Dashes?);
      assert ([item] + rest)[1..] == rest;
      assert argv[i..] == Tokens(item) + argv[i + Size(item)..];
    }
  }

  // ----- a command line in two parts

  /** Reading the tokens from `i` on has met the dashes. */
  predicate Closed(spec: FlagSpec, argv: seq<string>, i: nat, dashes: bool)
    decreases |argv| - i
  {
    if i >= |argv| then dashes
    else
      var item := ItemAt(spec, argv, i, dashes);
      Closed(spec, argv, i + Size(item), dashes || item.Dashes?)
  }

  /** Reading the tokens from `i` on ends with a flag still waiting for its value. */
  predicate Pending(spec: FlagSpec, argv: seq<string>, i: nat, dashes: bool)
    decreases |argv| - i
  {
    if i >= |argv| then false
    else
      var item := ItemAt(spec, argv, i, dashes);
      || (i + 1 == |argv| && !dashes && Reaches(spec, argv[i]))
      || Pending(spec, argv, i + Size(item), dashes || item.Dashes?)
  }

  /** Unless the first part ends in a flag waiting for its value, the second part is read where the first left off. */
  lemma {:induction false} ScanParts(spec: FlagSpec, a: seq<string>, b: seq<string>, i: nat, dashes: bool)
    requires i <= |a| && !Pending(spec, a, i, dashes)
    ensures Scan(spec, a + b, i, dashes) ==
      Scan(spec, a, i, dashes) + Scan(spec, a + b, |a|, Closed(spec, a, i, dashes))
    decreases |a| - i
  {
    hide ItemAt, Reaches;
    if i < |a| {
      var item := ItemAt(spec, a, i, dashes);
      SameItem(spec, a, b, i, dashes);
      ItemFits(spec, a, i, dashes);
      ScanParts(spec, a, b, i + Size(item), dashes || item.Dashes?);
    }
  }

  lemma ItemFits(spec: FlagSpec, argv: seq<string>, i: nat, dashes: bool)
    requires i < |argv|
    ensures i + Size(ItemAt(spec, argv, i, dashes)) <= |argv|
  {
    hide IsFlag, TakesValue, Name, Inline;
  }

  /** After the dashes every token is a word. */
  lemma {:induction false} WordsAfterDashes(spec: FlagSpec, argv: seq<string>, i: nat, p: Parsed)
    requires i <= |argv|
    ensures var items := Scan(spec, argv, i, true);
      && (forall k :: 0 <= k < |items| ==> items[k].Word?)
      && Collect(spec, p, items, |items|) == p.(positionals := p.positionals + argv[i..])
    decreases |argv| - i
  {
    if i < |argv| {
      var q := p.(positionals := p.positionals + [argv[i]]);
      WordsAfterDashes(spec, argv, i + 1, q);
      var rest := Scan(spec, argv, i + 1, true);
      CollectAppend(spec, p, [Word(argv[i])], rest, |rest|);
      var word := Word(argv[i]);
      assert Collect(spec, p, [word], 1) == Add(spec, Collect(spec, p, [word], 0), word) == q;
      assert p.positionals + argv[i..] == q.positionals + argv[i + 1..];
      hide Collect;
    } else {
      assert p.positionals + argv[i..] == p.positionals;
    }
  }

  lemma ScanWithDashes(spec: FlagSpec, a: seq<string>, b: seq<string>)
    requires !Pending(spec, a, 0, false) && !Closed(spec, a, 0, false)
    ensures var argv := a + (["--"] + b);
      Scan(spec, argv, 0, false) == Scan(spec, a, 0, false) + ([Dashes] + Scan(spec, argv, |a| + 1, true))
  {
    var argv := a + (["--"] + b);
    ScanParts(spec, a, ["--"] + b, 0, false);
    assert argv[|a|] == "--";
    assert ItemAt(spec, argv, |a|, false) == Dashes;
    hide ItemAt, Pending, Closed;
  }

  /** Dashes after a part that does not wait for a value end the options: all that follows is positional, as written. */
  lemma AfterDashes(spec: FlagSpec, a: seq<string>, b: seq<string>)
    requires !Pending(spec, a, 0, false) && !Closed(spec, a, 0, false)
    ensures Parse(spec, a + (["--"] + b)) == Parse(spec, a).(positionals := Parse(spec, a).positionals + b)
  {
    hide Collect, Scan, Pending, Closed;
    var argv := a + (["--"] + b);
    ScanWithDashes(spec, a, b);
    var before, after := Scan(spec, a, 0, false), Scan(spec, argv, |a| + 1, true);
    var p := Collect(spec, NOTHING, before, |before|);
    CollectAppend(spec, NOTHING, before, [Dashes] + after, 1 + |after|);
    CollectAppend(spec, p, [Dashes], after, |after|);
    CollectDashes(spec, p);
    WordsAfterDashes(spec, argv, |a| + 1, p);
    assert argv[|a| + 1..] == b;
  }

  lemma CollectDashes(spec: FlagSpec, p: Parsed)
    ensures Collect(spec, p, [Dashes], 1) == p
  {
    assert Collect(spec, p, [Dashes], 0) == p;
  }

  // ----- the dashes as a value

  /** The last item given the dashes as its value. */
  function Swallowed(items: seq<Item>): seq<Item>
    requires items != [] && items[|items| - 1].Valued?
  {
    items[..|items| - 1] + [Valued(items[|items| - 1].token, Some("--"))]
  }

  predicate EndsValued(items: seq<Item>) {
    items != [] && items[|items| - 1].Valued?
  }

  lemma SwallowedCons(item: Item, rest: seq<Item>, more: seq<Item>)
    requires EndsValued(rest)
    ensures EndsValued([item] + rest)
    ensures Swallowed([item] + rest) + more == [item] + (Swallowed(rest) + more)
  {
    assert ([item] + rest)[..|rest|] == [item] + rest[..|rest| - 1];
  }

  /** A waiting flag swallows the dashes as its value. */
  lemma {:induction false} PendingSwallows(spec: FlagSpec, a: seq<string>, b: seq<string>, i: nat, dashes: bool)
    requires i <= |a| && Pending(spec, a, i, dashes)
    ensures EndsValued(Scan(spec, a, i, dashes))
    ensures Scan(spec, a + (["--"] + b), i, dashes)
      == Swallowed(Scan(spec, a, i, dashes)) + Scan(spec, a + (["--"] + b), |a| + 1, false)
    decreases |a| - i
  {
    var argv := a + (["--"] + b);
    if i + 1 == |a| && !dashes && Reaches(spec, a[i]) {
      LastSwallows(spec, a, b, i);
    } else {
      hide ItemAt, Reaches;
      var item := ItemAt(spec, a, i, dashes);
      SameItem(spec, a, ["--"] + b, i, dashes);
      var next := i + Size(item);
      assert Pending(spec, a, next, dashes || item.Dashes?);
      PendingSwallows(spec, a, b, next, dashes || item.Dashes?);
      var rest, more := Scan(spec, a, next, dashes || item.Dashes?), Scan(spec, argv, |a| + 1, false);
      SwallowedCons(item, rest, more);
      assert Scan(spec, a, i, dashes) == [item] + rest;
      hide Swallowed, EndsValued;
      assert Scan(spec, argv, i, dashes) == [item] + Scan(spec, argv, next, dashes || item.Dashes?);
    }
  }

  lemma LastSwallows(spec: FlagSpec, a: seq<string>, b: seq<string>, i: nat)
    requires i + 1 == |a| && Reaches(spec, a[i])
    ensures EndsValued(Scan(spec, a, i, false))
    ensures Scan(spec, a + (["--"] + b), i, false)
      == Swallowed(Scan(spec, a, i, false)) + Scan(spec, a + (["--"] + b), |a| + 1, false)
  {
    var argv := a + (["--"] + b);
    assert ItemAt(spec, a, i, false) == Valued(a[i], None);
    assert ItemAt(spec, argv, i, false) == Valued(a[i], Some("--"));
    hide ItemAt, Reaches;
    ScanEnds(spec, a, i + 1, false);
    assert Scan(spec, a, i, false) == [Valued(a[i], None)] + [];
    assert Scan(spec, argv, i, false) == [Valued(a[i], Some("--"))] + Scan(spec, argv, i + 2, false);
    hide Scan;
    assert [] + [Valued(a[i], Some("--"))] == [Valued(a[i], Some("--"))];
  }

  /** Unless it is the last and waiting, a token is read alike with more after it. */
  lemma SameItem(spec: FlagSpec, a: seq<string>, b: seq<string>, i: nat, dashes: bool)
    requires i < |a| && !(i + 1 == |a| && !dashes && Reaches(spec, a[i]))
    ensures ItemAt(spec, a + b, i, dashes) == ItemAt(spec, a, i, dashes)
  {
    hide Name, TakesValue, Inline;
  }

  /** The dashes make all that follows positional exactly when no flag before them is waiting for a value. */
  lemma DashesEndOptionsIff(spec: FlagSpec, a: seq<string>)
    requires !Closed(spec, a, 0, false)
    ensures (forall b :: Parse(spec, a + (["--"] + b)).positionals == Parse(spec, a).positionals + b) <==>
      !Pending(spec, a, 0, false)
  {
    if Pending(spec, a, 0, false) {
      var b := ["--"];
      DashesSwallowed(spec, a);
      assert Parse(spec, a + (["--"] + b)).positionals != Parse(spec, a).positionals + b;
    } else {
      forall b
        ensures Parse(spec, a + (["--"] + b)).positionals == Parse(spec, a).positionals + b
      {
        AfterDashes(spec, a, b);
      }
    }
  }

  lemma DashesSwallowed(spec: FlagSpec, a: seq<string>)
    requires Pending(spec, a, 0, false)
    ensures Parse(spec, a + (["--"] + ["--"])).positionals == Parse(spec, a).positionals
  {
    var argv := a + (["--"] + ["--"]);
    PendingSwallows(spec, a, ["--"], 0, false);
    assert argv[|a| + 1] == "--" && |argv| == |a| + 2;
    assert ItemAt(spec, argv, |a| + 1, false) == Dashes;
    ScanEnds(spec, argv, |a| + 2, true);
    assert Scan(spec, argv, |a| + 1, false) == [Dashes] + [];
    hide Scan, ItemAt;
    SwallowedPositionals(spec, Scan(spec, a, 0, false));
  }

  lemma SwallowedPositionals(spec: FlagSpec, items: seq<Item>)
    requires EndsValued(items)
    ensures var all := Swallowed(items) + ([Dashes] + []);
      Collect(spec, NOTHING, all, |all|).positionals == Collect(spec, NOTHING, items, |items|).positionals
  {
    var front, last := items[..|items| - 1], items[|items| - 1];
    var filled := Valued(last.token, Some("--"));
    CollectOneMore(spec, front, last);
    CollectOneMore(spec, front, filled);
    CollectOneMore(spec, front + [filled], Dashes);
    assert items == front + [last];
    assert Swallowed(items) + ([Dashes] + []) == front + [filled] + [Dashes];
    hide Collect, Swallowed;
    var p := Collect(spec, NOTHING, front, |front|);
    assert Add(spec, p, last).positionals == p.positionals == Add(spec, p, filled).positionals;
  }

  /** A command line that ends in a flag waiting for its value: the dashes after it do not end the options. */
  lemma CwdSwallowsDashes(spec: FlagSpec)
    requires "cwd" in spec.value
    ensures !Closed(spec, ["--cwd"], 0, false) && Pending(spec, ["--cwd"], 0, false)
    ensures Parse(spec, ["--cwd", "--", "--"]) == Parsed([], map[spec.value["cwd"] := "--"], map[], {}, [])
  {
    CwdFlag();
    assert ItemAt(spec, ["--cwd"], 0, false) == Valued("--cwd", None);
    var argv := ["--cwd", "--", "--"];
    var items := [Valued("--cwd", Some("--")), Dashes];
    assert ItemAt(spec, argv, 0, false) == items[0] && ItemAt(spec, argv, 2, false) == items[1];
    assert Scan(spec, argv, 2, false) == [Dashes] + Scan(spec, argv, 3, true) == [Dashes];
    assert Scan(spec, argv, 0, false) == items;
    assert Collect(spec, NOTHING, items, 1) == Add(spec, NOTHING, items[0]);
    hide Scan, ItemAt;
  }

  // ----- what one more flag means

  /** Dashes, a name and, after an equals sign, a value, if there is one. */
  function FlagToken(dashes: string, name: string, value: Option<string>): string {
    dashes + name + if value.Some? then "=" + value.value else ""
  }

  predicate WellFormed(dashes: string, name: string) {
    && dashes != "" && (forall i :: 0 <= i < |dashes| ==> dashes[i] == '-')
    && (name == "" || name[0] != '-') && '=' !in name
  }

  lemma {:induction false} UndashedIs(dashes: string, rest: string)
    requires (forall i :: 0 <= i < |dashes| ==> dashes[i] == '-') && (rest == "" || rest[0] != '-')
    ensures Undashed(dashes + rest) == rest
  {
    if dashes == "" {
      assert dashes + rest == rest;
    } else {
      UndashedIs(dashes[1..], rest);
      assert (dashes + rest)[1..] == dashes[1..] + rest;
    }
  }

  lemma {:induction false} EqualsAtIs(raw: string, i: nat, k: nat)
    requires i <= k <= |raw| && (forall j :: i <= j < k ==> raw[j] != '=') && (k < |raw| ==> raw[k] == '=')
    ensures EqualsAt(raw, i) == k
    decreases k - i
  {
    if i < k {
      EqualsAtIs(raw, i + 1, k);
    }
  }

  /** A flag's token is read as its name and its value, whatever characters the value has. */
  lemma TokenReadsBack(dashes: string, name: string, value: Option<string>)
    requires WellFormed(dashes, name)
    ensures var token := FlagToken(dashes, name, value);
      IsFlag(token) && Name(token) == name && Inline(token) == value
  {
    var raw := name + if value.Some? then "=" + value.value else "";
    assert FlagToken(dashes, name, value) == dashes + raw;
    UndashedIs(dashes, raw);
    EqualsAtIs(raw, 0, |name|);
    assert raw[..|name|] == name;
    assert value.Some? ==> raw[|name| + 1..] == value.value;
  }

  /** The options are still open after `a`, and no flag in it waits for its value. */
  predicate Open(spec: FlagSpec, a: seq<string>) {
    !Pending(spec, a, 0, false) && !Closed(spec, a, 0, false)
  }

  lemma OneMoreItem(spec: FlagSpec, a: seq<string>, b: seq<string>, item: Item)
    requires Open(spec, a) && b != [] && ItemAt(spec, a + b, |a|, false) == item && Size(item) >= |b|
    ensures Parse(spec, a + b) == Add(spec, Parse(spec, a), item)
  {
    ScanParts(spec, a, b, 0, false);
    ScanEnds(spec, a + b, |a| + Size(item), item.Dashes?);
    assert Scan(spec, a + b, |a|, false) == [item] + [] == [item];
    hide Scan, ItemAt, Pending, Closed, Collect;
    CollectOneMore(spec, Scan(spec, a, 0, false), item);
  }

  /** A flag that takes a value is set to the value after its equals sign, or else to the next token, or else to "". */
  lemma ValueFlagIsSet(spec: FlagSpec, a: seq<string>, dashes: string, name: string, value: Option<string>,
                       next: Option<string>)
    requires Open(spec, a) && WellFormed(dashes, name) && name in spec.value
    requires FlagToken(dashes, name, value) != "--" && (value.Some? ==> next.None?)
    ensures var b := [FlagToken(dashes, name, value)] + if next.Some? then [next.value] else [];
      var given := if value.Some? then value.value else if next.Some? then next.value else "";
      Parse(spec, a + b) == Parse(spec, a).(flags := Parse(spec, a).flags[spec.value[name] := given])
  {
    var token := FlagToken(dashes, name, value);
    var b := [token] + if next.Some? then [next.value] else [];
    TokenReadsBack(dashes, name, value);
    hide Name, Inline, IsFlag, FlagToken, Parse, Open;
    assert (a + b)[|a|] == token && (next.Some? ==> (a + b)[|a| + 1] == next.value);
    OneMoreItem(spec, a, b, Valued(token, next));
  }

  /** A flag that collects values gets one more, in order. */
  lemma MultiFlagCollects(spec: FlagSpec, a: seq<string>, dashes: string, name: string, value: Option<string>,
                          next: Option<string>)
    requires Open(spec, a) && WellFormed(dashes, name) && name !in spec.value && name in spec.multi
    requires FlagToken(dashes, name, value) != "--" && (value.Some? ==> next.None?)
    ensures var b := [FlagToken(dashes, name, value)] + if next.Some? then [next.value] else [];
      var p, canon := Parse(spec, a), spec.multi[name];
      var added := if value.Some? then value.value else if next.Some? then next.value else "";
      Parse(spec, a + b) == p.(multi := p.multi[canon := (if canon in p.multi then p.multi[canon] else []) + [added]])
  {
    var token := FlagToken(dashes, name, value);
    var b := [token] + if next.Some? then [next.value] else [];
    TokenReadsBack(dashes, name, value);
    hide Name, Inline, IsFlag, FlagToken, Parse, Open;
    assert (a + b)[|a|] == token && (next.Some? ==> (a + b)[|a| + 1] == next.value);
    OneMoreItem(spec, a, b, Valued(token, next));
    var added := if value.Some? then value.value else if next.Some? then next.value else "";
    assert ValueOf(Valued(token, next)) == added;
    var p, canon := Parse(spec, a), spec.multi[name];
    var before := if canon in p.multi then p.multi[canon] else [];
    assert AddValue(spec, p, name, added) == p.(multi := p.multi[canon := before + [added]]);
  }

  /** Any other flag is a switch under its canonical name; one that is not declared is also reported as unknown. */
  lemma SwitchIsSet(spec: FlagSpec, a: seq<string>, dashes: string, name: string, value: Option<string>)
    requires Open(spec, a) && WellFormed(dashes, name) && name !in spec.value && name !in spec.multi
    requires FlagToken(dashes, name, value) != "--"
    ensures var token, p := FlagToken(dashes, name, value), Parse(spec, a);
      var canon := if name in spec.switches then spec.switches[name] else name;
      Parse(spec, a + [token]) ==
        Parsed(p.positionals, if value.Some? then p.flags[canon := value.value] else p.flags, p.multi,
               p.bools + {canon}, if name in spec.switches then p.unknown else p.unknown + [token])
  {
    var token := FlagToken(dashes, name, value);
    TokenReadsBack(dashes, name, value);
    hide Name, Inline, IsFlag, FlagToken, Parse, Open;
    assert (a + [token])[|a|] == token;
    OneMoreItem(spec, a, [token], Switch(token));
  }

  /** A token that does not begin with a dash is positional. */
  lemma WordIsPositional(spec: FlagSpec, a: seq<string>, token: string)
    requires Open(spec, a) && (token == "" || token[0] != '-')
    ensures Parse(spec, a + [token]) == Parse(spec, a).(positionals := Parse(spec, a).positionals + [token])
  {
    hide Parse, Open;
    assert (a + [token])[|a|] == token;
    OneMoreItem(spec, a, [token], Word(token));
  }

  // ----- the detached job

  /** The arguments a detached job's own process parses. */
  function JobArgs(cwd: string, command: string, args: seq<string>): seq<string> {
    ["run", "--cwd", cwd] + (["--"] + ([command] + args))
  }

  /** Whatever the directory, the command and its arguments are, dashes and all, the job's process gets them back. */
  lemma JobArgsRoundTrip(spec: FlagSpec, cwd: string, command: string, args: seq<string>)
    requires "cwd" in spec.value && spec.value["cwd"] == "cwd"
    ensures Parse(spec, JobArgs(cwd, command, args)) ==
      Parsed(["run", command] + args, map["cwd" := cwd], map[], {}, [])
  {
    var a := ["run", "--cwd", cwd];
    CwdFlag();
    var flag := Valued("--cwd", Some(cwd));
    assert ItemAt(spec, a, 0, false) == Word("run");
    assert ItemAt(spec, a, 1, false) == flag;
    assert Scan(spec, a, 3, false) == [];
    assert Scan(spec, a, 1, false) == [flag] + [];
    assert Scan(spec, a, 0, false) == [Word("run")] + ([flag] + []) == [] + [Word("run")] + [flag];
    assert !Pending(spec, a, 3, false) && !Closed(spec, a, 3, false);
    assert !Pending(spec, a, 1, false) && !Closed(spec, a, 1, false);
    NothingCollected(spec);
    CollectOneMore(spec, [], Word("run"));
    CollectOneMore(spec, [] + [Word("run")], flag);
    AfterDashes(spec, a, [command] + args);
    hide Collect, Scan, Pending, Closed;
    assert ["run"] + ([command] + args) == ["run", command] + args;
  }

  lemma CwdFlag()
    ensures Name("--cwd") == "cwd" && Inline("--cwd").None? && IsFlag("--cwd")
  {
    assert "--cwd"[1..] == "-cwd" && "-cwd"[1..] == "cwd";
    assert Undashed("cwd") == "cwd";
    assert Undashed("-cwd") == "cwd";
    assert Undashed("--cwd") == "cwd";
    assert EqualsAt("cwd", 3) == 3;
    assert EqualsAt("cwd", 2) == 3;
    assert EqualsAt("cwd", 1) == 3;
    assert EqualsAt("cwd", 0) == 3;
  }
}
