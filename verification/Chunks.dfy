/**
 Context chunks, their lanes, and the orders the context engine sorts them in
 (packages/context/src/lanes.ts and engine.ts).

 Sorting is modelled as a stable insertion sort. What matters about it is proved once: chunks
 with distinct ids have exactly one sorted arrangement, so it depends on which chunks there are
 and not on how they were listed.
 */
module Chunks {
  import opened Strings

  datatype Lane =
    | System | Tools | Memory | Conventions | RepoMap | Env
    | Retrieved | Git | History | Terminal | Task

  const STATIC_LANES: seq<Lane> := [System, Tools, Memory, Conventions, RepoMap, Env]
  const VOLATILE_LANES: seq<Lane> := [Retrieved, Git, History, Terminal, Task]

  function LaneIndex(lane: Lane): nat {
    match lane
    case System => 0
    case Tools => 1
    case Memory => 2
    case Conventions => 3
    case RepoMap => 4
    case Env => 5
    case Retrieved => 6
    case Git => 7
    case History => 8
    case Terminal => 9
    case Task => 10
  }

  predicate IsStaticLane(lane: Lane) {
    LaneIndex(lane) < 6
  }

  /** The index of a lane is its place among all of them, the static ones first. */
  lemma LaneIndexIsPlace(lane: Lane)
    ensures LaneIndex(lane) < |STATIC_LANES + VOLATILE_LANES|
    ensures (STATIC_LANES + VOLATILE_LANES)[LaneIndex(lane)] == lane
    ensures IsStaticLane(lane) <==> lane in STATIC_LANES
    ensures !IsStaticLane(lane) <==> lane in VOLATILE_LANES
  {
  }

  function LaneTitle(lane: Lane): string {
    match lane
    case System => "System"
    case Tools => "Tools"
    case Memory => "Memory"
    case Conventions => "Project Conventions"
    case RepoMap => "Project Files"
    case Env => "Environment"
    case Retrieved => "Retrieved"
    case Git => "Working Changes"
    case History => "Conversation"
    case Terminal => "Terminal Output"
    case Task => "Current Task"
  }

  /** A collected chunk with its defaults filled in. */
  datatype Chunk = Chunk(
    id: string,
    sourceId: string,
    lane: Lane,
    text: string,
    role: string,
    tokens: nat,
    relevance: real,
    priority: real,
    pinned: bool,
    createdAt: int)

  predicate Static(c: Chunk) {
    IsStaticLane(c.lane)
  }

  function Score(c: Chunk, weight: real): real {
    c.priority * weight + c.relevance
  }

  // ----- the comparisons

  datatype Order =
    | ByStrength(weight: real)    // strongest first: who wins a duplicate
    | ForAssembly(weight: real)   // prefix to tail: the order of the prompt
    | ForTrimming(weight: real)   // least valuable first: who is dropped
    | ByTime                      // oldest first: the conversation

  predicate IdLe(a: Chunk, b: Chunk) {
    a.id == b.id || Lex(a.id, b.id)
  }

  predicate Le(o: Order, a: Chunk, b: Chunk) {
    match o
    case ByStrength(w) =>
      if Score(a, w) != Score(b, w) then Score(a, w) > Score(b, w)
      else if LaneIndex(a.lane) != LaneIndex(b.lane) then LaneIndex(a.lane) < LaneIndex(b.lane)
      else IdLe(a, b)
    case ForAssembly(w) =>
      if LaneIndex(a.lane) != LaneIndex(b.lane) then LaneIndex(a.lane) < LaneIndex(b.lane)
      else if a.lane.History? || a.lane.Task? then
        if a.createdAt != b.createdAt then a.createdAt < b.createdAt else IdLe(a, b)
      else if Score(a, w) != Score(b, w) then Score(a, w) > Score(b, w)
      else IdLe(a, b)
    case ForTrimming(w) =>
      if LaneIndex(a.lane) != LaneIndex(b.lane) then LaneIndex(a.lane) > LaneIndex(b.lane)
      else if a.relevance != b.relevance then a.relevance < b.relevance
      else if Score(a, w) != Score(b, w) then Score(a, w) < Score(b, w)
      else IdLe(a, b)
    case ByTime =>
      if a.createdAt != b.createdAt then a.createdAt < b.createdAt else IdLe(a, b)
  }

  lemma LeTotal(o: Order, a: Chunk, b: Chunk)
    ensures Le(o, a, b) || Le(o, b, a)
    ensures Le(o, a, b) && Le(o, b, a) ==> a.id == b.id
  {
    LexTotal(a.id, b.id);
  }

  lemma LeTransitive(o: Order, a: Chunk, b: Chunk, c: Chunk)
    requires Le(o, a, b) && Le(o, b, c)
    ensures Le(o, a, c)
  {
    if Lex(a.id, b.id) && Lex(b.id, c.id) {
      LexTransitive(a.id, b.id, c.id);
    }
  }

  // ----- sorting

  ghost predicate SortedBy(o: Order, s: seq<Chunk>) {
    forall i, j :: 0 <= i < j < |s| ==> Le(o, s[i], s[j])
  }

  lemma SortedAt(o: Order, s: seq<Chunk>, i: nat, j: nat)
    requires SortedBy(o, s) && i < |s| && j < |s|
    ensures i < j ==> Le(o, s[i], s[j])
  {
    hide Le;
  }

  predicate UniqueIds(s: seq<Chunk>) {
    forall i, j :: 0 <= i < j < |s| ==> s[i].id != s[j].id
  }

  function Insert(o: Order, c: Chunk, s: seq<Chunk>): seq<Chunk> {
    if s == [] || Le(o, c, s[0]) then [c] + s else [s[0]] + Insert(o, c, s[1..])
  }

  function Sort(o: Order, s: seq<Chunk>): seq<Chunk> {
    if s == [] then [] else Insert(o, s[0], Sort(o, s[1..]))
  }

  lemma {:induction false} InsertMultiset(o: Order, c: Chunk, s: seq<Chunk>)
    ensures multiset(Insert(o, c, s)) == multiset{c} + multiset(s)
  {
    if s != [] && !Le(o, c, s[0]) {
      InsertMultiset(o, c, s[1..]);
      assert s == [s[0]] + s[1..];
    }
  }

  lemma PrependSorted(o: Order, c: Chunk, s: seq<Chunk>)
    requires SortedBy(o, s) && forall d :: d in s ==> Le(o, c, d)
    ensures SortedBy(o, [c] + s)
  {
    hide Le;
  }

  lemma BelowFirstBelowAll(o: Order, c: Chunk, s: seq<Chunk>)
    requires SortedBy(o, s) && s != [] && Le(o, c, s[0])
    ensures forall d :: d in s ==> Le(o, c, d)
  {
    hide Le;
    forall j | 0 <= j < |s|
      ensures Le(o, c, s[j])
    {
      if j > 0 {
        LeTransitive(o, c, s[0], s[j]);
      }
    }
  }

  lemma InsertMembers(o: Order, c: Chunk, s: seq<Chunk>, d: Chunk)
    requires d in Insert(o, c, s)
    ensures d == c || d in s
  {
    InsertMultiset(o, c, s);
    assert d in multiset(Insert(o, c, s));
  }

  lemma {:induction false} InsertSorted(o: Order, c: Chunk, s: seq<Chunk>)
    requires SortedBy(o, s)
    ensures SortedBy(o, Insert(o, c, s))
  {
    hide Le;
    if s == [] {
    } else if Le(o, c, s[0]) {
      BelowFirstBelowAll(o, c, s);
      PrependSorted(o, c, s);
    } else {
      InsertSorted(o, c, s[1..]);
      LeTotal(o, c, s[0]);
      forall d | d in Insert(o, c, s[1..])
        ensures Le(o, s[0], d)
      {
        InsertMembers(o, c, s[1..], d);
      }
      PrependSorted(o, s[0], Insert(o, c, s[1..]));
    }
  }

  /** A sorted rearrangement. */
  lemma {:induction false} SortSorts(o: Order, s: seq<Chunk>)
    ensures SortedBy(o, Sort(o, s))
    ensures multiset(Sort(o, s)) == multiset(s)
  {
    if s != [] {
      SortSorts(o, s[1..]);
      InsertSorted(o, s[0], Sort(o, s[1..]));
      InsertMultiset(o, s[0], Sort(o, s[1..]));
      assert s == [s[0]] + s[1..];
    }
  }

  function Members(s: seq<Chunk>): set<Chunk> {
    set c | c in s
  }

  lemma SortKeepsMembers(o: Order, s: seq<Chunk>)
    ensures Members(Sort(o, s)) == Members(s)
    ensures UniqueIds(s) ==> UniqueIds(Sort(o, s))
  {
    SortSorts(o, s);
    var t := Sort(o, s);
    forall c
      ensures c in t <==> c in s
    {
      assert c in t <==> c in multiset(t);
      assert c in s <==> c in multiset(s);
    }
    if UniqueIds(s) {
      UniqueUpToOrder(s, t);
    }
  }

  /** Distinct ids are a matter of which chunks there are, each counted. */
  lemma UniqueUpToOrder(s: seq<Chunk>, t: seq<Chunk>)
    requires UniqueIds(s) && multiset(t) == multiset(s)
    ensures UniqueIds(t)
  {
    forall i, j | 0 <= i < j < |t|
      ensures t[i].id != t[j].id
    {
      if t[i].id == t[j].id {
        assert t[i] in multiset(s) && t[j] in multiset(s);
        assert t[i] == t[j];
        OccursOnce(s, t[i]);
        OccursTwice(t, i, j);
      }
    }
  }

  lemma {:induction false} OccursOnce(s: seq<Chunk>, c: Chunk)
    requires UniqueIds(s)
    ensures multiset(s)[c] <= 1
  {
    if s != [] {
      assert s == [s[0]] + s[1..];
      OccursOnce(s[1..], c);
    }
  }

  lemma OccursTwice(t: seq<Chunk>, i: nat, j: nat)
    requires i < j < |t| && t[i] == t[j]
    ensures multiset(t)[t[i]] >= 2
  {
    assert t == t[..i] + [t[i]] + t[i + 1..j] + [t[j]] + t[j + 1..];
  }

  lemma FirstIsLeast(o: Order, s: seq<Chunk>, c: Chunk)
    requires SortedBy(o, s) && c in s
    ensures Le(o, s[0], c)
  {
    LeTotal(o, c, c);
  }

  lemma SameIdSameChunk(s: seq<Chunk>, c: Chunk, d: Chunk)
    requires UniqueIds(s) && c in s && d in s && c.id == d.id
    ensures c == d
  {
    var i :| 0 <= i < |s| && s[i] == c;
    var j :| 0 <= j < |s| && s[j] == d;
  }

  /** Chunks with distinct ids have one sorted arrangement only. */
  lemma {:induction false} SortedIsUnique(o: Order, s: seq<Chunk>, t: seq<Chunk>)
    requires SortedBy(o, s) && SortedBy(o, t) && UniqueIds(s) && UniqueIds(t) && Members(s) == Members(t)
    ensures s == t
  {
    assert s != [] ==> s[0] in Members(t);
    assert t != [] ==> t[0] in Members(s);
    if s != [] {
      FirstIsLeast(o, s, t[0]);
      FirstIsLeast(o, t, s[0]);
      LeTotal(o, s[0], t[0]);
      SameIdSameChunk(s, s[0], t[0]);
      forall c
        ensures c in s[1..] <==> c in t[1..]
      {
        assert c in s <==> c in Members(s);
        assert c in t <==> c in Members(t);
        assert c in s <==> c == s[0] || c in s[1..];
        assert c in t <==> c == t[0] || c in t[1..];
      }
      SortedIsUnique(o, s[1..], t[1..]);
    }
  }

  // ----- filtering

  lemma SortHas(o: Order, s: seq<Chunk>)
    requires UniqueIds(s)
    ensures SortedBy(o, Sort(o, s)) && UniqueIds(Sort(o, s))
    ensures forall c :: c in Sort(o, s) <==> c in s
  {
    SortSorts(o, s);
    SortKeepsMembers(o, s);
    hide Sort, SortedBy, UniqueIds;
    forall c
      ensures c in Sort(o, s) <==> c in s
    {
      assert c in Members(Sort(o, s)) <==> c in Members(s);
    }
  }

  function Filter(s: seq<Chunk>, p: Chunk -> bool): (r: seq<Chunk>)
    ensures forall c :: c in r <==> c in s && p(c)
  {
    if s == [] then []
    else (if p(s[0]) then [s[0]] else []) + Filter(s[1..], p)
  }

  lemma FilterCons(c: Chunk, s: seq<Chunk>, p: Chunk -> bool)
    ensures Filter([c] + s, p) == if p(c) then [c] + Filter(s, p) else Filter(s, p)
  {
    assert ([c] + s)[1..] == s;
  }

  lemma {:induction false} FilterUnique(s: seq<Chunk>, p: Chunk -> bool)
    requires UniqueIds(s)
    ensures UniqueIds(Filter(s, p))
  {
    if s != [] {
      FilterUnique(s[1..], p);
      var rest := Filter(s[1..], p);
      forall j | 0 <= j < |rest|
        ensures rest[j].id != s[0].id
      {
        assert rest[j] in s[1..];
      }
    }
  }

  lemma {:induction false} FilterSorted(o: Order, s: seq<Chunk>, p: Chunk -> bool)
    requires SortedBy(o, s)
    ensures SortedBy(o, Filter(s, p))
  {
    if s != [] {
      FilterSorted(o, s[1..], p);
      var rest := Filter(s[1..], p);
      forall j | 0 <= j < |rest|
        ensures Le(o, s[0], rest[j])
      {
        assert rest[j] in s[1..];
      }
    }
  }

  function OfLane(lane: Lane): Chunk -> bool {
    (c: Chunk) => c.lane == lane
  }

  // ----- counting tokens

  function Tokens(s: seq<Chunk>): nat {
    if s == [] then 0 else s[0].tokens + Tokens(s[1..])
  }

  lemma {:induction false} TokensOfInsert(o: Order, c: Chunk, s: seq<Chunk>)
    ensures Tokens(Insert(o, c, s)) == c.tokens + Tokens(s)
  {
    if s == [] || Le(o, c, s[0]) {
      assert ([c] + s)[1..] == s;
    } else {
      TokensOfInsert(o, c, s[1..]);
      assert ([s[0]] + Insert(o, c, s[1..]))[1..] == Insert(o, c, s[1..]);
    }
  }

  lemma {:induction false} TokensOfSort(o: Order, s: seq<Chunk>)
    ensures Tokens(Sort(o, s)) == Tokens(s)
  {
    if s != [] {
      TokensOfSort(o, s[1..]);
      TokensOfInsert(o, s[0], Sort(o, s[1..]));
    }
  }

  /** The tokens of chunks with distinct ids do not depend on how they are listed. */
  lemma TokensOfMembers(s: seq<Chunk>, t: seq<Chunk>)
    requires UniqueIds(s) && UniqueIds(t) && Members(s) == Members(t)
    ensures Tokens(s) == Tokens(t)
  {
    var o := ByStrength(0.0);
    SortSorts(o, s);
    SortSorts(o, t);
    SortKeepsMembers(o, s);
    SortKeepsMembers(o, t);
    SortedIsUnique(o, Sort(o, s), Sort(o, t));
    TokensOfSort(o, s);
    TokensOfSort(o, t);
  }

  lemma TokensOfCons(c: Chunk, s: seq<Chunk>)
    ensures Tokens([c] + s) == c.tokens + Tokens(s) && Tokens([] + s) == Tokens(s)
  {
    assert ([c] + s)[1..] == s && [] + s == s;
  }

  /** Two complementary filters share the tokens out. */
  lemma {:induction false} TokensSplit(s: seq<Chunk>, p: Chunk -> bool, q: Chunk -> bool)
    requires forall c :: c in s ==> p(c) != q(c)
    ensures Tokens(s) == Tokens(Filter(s, p)) + Tokens(Filter(s, q))
  {
    if s != [] {
      TokensSplit(s[1..], p, q);
      TokensOfCons(s[0], Filter(s[1..], p));
      TokensOfCons(s[0], Filter(s[1..], q));
    }
  }

  lemma {:induction false} TokensOfSnoc(s: seq<Chunk>, c: Chunk)
    ensures Tokens(s + [c]) == Tokens(s) + c.tokens
  {
    if s != [] {
      TokensOfSnoc(s[1..], c);
      assert (s + [c])[1..] == s[1..] + [c];
    }
  }
}
