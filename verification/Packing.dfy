/**
 Packing under the token budget (packages/context/src/engine.ts, `pack`).

 `pack` drops from the trim order, least valuable first, until what is left fits. The cut is
 pinned down as the shortest such prefix; everything else follows from that.
 */
module Packing {
  import opened Chunks
  import opened Dedupe
  import opened Strings

  function Unpinned(): Chunk -> bool {
    (c: Chunk) => !c.pinned
  }

  function IdIn(ids: set<string>): Chunk -> bool {
    (c: Chunk) => c.id in ids
  }

  function IdNotIn(ids: set<string>): Chunk -> bool {
    (c: Chunk) => c.id !in ids
  }

  function Ids(s: seq<Chunk>): set<string> {
    set c | c in s :: c.id
  }

  /** The candidates for dropping, in the order they are dropped. */
  function TrimOrder(weight: real, ordered: seq<Chunk>): seq<Chunk> {
    Sort(ForTrimming(weight), Filter(ordered, Unpinned()))
  }

  /** The tokens of the first `n` chunks. */
  function TokensUpTo(s: seq<Chunk>, n: nat): nat
    requires n <= |s|
  {
    if n == 0 then 0 else TokensUpTo(s, n - 1) + s[n - 1].tokens
  }

  /** `k` is the least number of candidates whose removal makes the rest fit, or all of them. */
  predicate IsCut(trim: seq<Chunk>, total: int, budget: int, k: nat) {
    && k <= |trim|
    && (forall j :: 0 <= j < k ==> total - TokensUpTo(trim, j) > budget)
    && (k < |trim| ==> total - TokensUpTo(trim, k) <= budget)
  }

  function CutFrom(trim: seq<Chunk>, total: int, budget: int, j: nat): (k: nat)
    requires j <= |trim| && forall i :: 0 <= i < j ==> total - TokensUpTo(trim, i) > budget
    ensures IsCut(trim, total, budget, k)
    decreases |trim| - j
  {
    if j == |trim| || total - TokensUpTo(trim, j) <= budget then j else CutFrom(trim, total, budget, j + 1)
  }

  function Cut(weight: real, ordered: seq<Chunk>, fixed: nat, budget: int): (k: nat)
    ensures IsCut(TrimOrder(weight, ordered), fixed + Tokens(ordered), budget, k)
  {
    CutFrom(TrimOrder(weight, ordered), fixed + Tokens(ordered), budget, 0)
  }

  function Trimmed(weight: real, ordered: seq<Chunk>, fixed: nat, budget: int): seq<Chunk> {
    TrimOrder(weight, ordered)[..Cut(weight, ordered, fixed, budget)]
  }

  function Included(weight: real, ordered: seq<Chunk>, fixed: nat, budget: int): seq<Chunk> {
    Filter(ordered, IdNotIn(Ids(Trimmed(weight, ordered, fixed, budget))))
  }

  datatype PackResult = PackResult(included: seq<Chunk>, packDropped: seq<DroppedChunk>, realTokens: nat,
                                   overBudget: bool)

  method Pack(ordered: seq<Chunk>, budget: int, fixed: nat, weight: real) returns (r: PackResult)
    ensures r.included == Included(weight, ordered, fixed, budget)
    ensures r.packDropped == Drops(Trimmed(weight, ordered, fixed, budget), Budget)
    ensures r.realTokens == fixed + Tokens(r.included)
    ensures r.overBudget <==> r.realTokens > budget
  {
    hide Drops, Ids, Filter, TrimOrder, Tokens, CutFrom;
    NothingDropped(TrimOrder(weight, ordered));
    var total: int := fixed + Tokens(ordered);
    var packDropped: seq<DroppedChunk> := [];
    var dropIds: set<string> := {};
    ghost var trim := TrimOrder(weight, ordered);
    ghost var k := 0;
    if total > budget {
      var trimCandidates := TrimOrder(weight, ordered);
      var i := 0;
      while i < |trimCandidates|
        invariant 0 <= i == k <= |trim|
        invariant total == fixed + Tokens(ordered) - TokensUpTo(trim, i)
        invariant forall j :: 0 <= j < i ==> fixed + Tokens(ordered) - TokensUpTo(trim, j) > budget
        invariant packDropped == Drops(trim[..i], Budget) && dropIds == Ids(trim[..i])
      {
        if total <= budget {
          break;
        }
        var c := trimCandidates[i];
        OneMoreDropped(trim, i);
        dropIds := dropIds + {c.id};
        total := total - c.tokens;
        packDropped := packDropped + [Drop(c, Budget)];
        i, k := i + 1, k + 1;
      }
    }
    assert IsCut(trim, fixed + Tokens(ordered), budget, k);
    CutIsUnique(trim, fixed + Tokens(ordered), budget, k, Cut(weight, ordered, fixed, budget));
    var included := Filter(ordered, IdNotIn(dropIds));
    var realTokens := fixed + Tokens(included);
    r := PackResult(included, packDropped, realTokens, realTokens > budget);
  }

  lemma NothingDropped(trim: seq<Chunk>)
    ensures Drops(trim[..0], Budget) == [] && Ids(trim[..0]) == {}
  {
  }

  lemma OneMoreDropped(trim: seq<Chunk>, i: nat)
    requires i < |trim|
    ensures Drops(trim[..i + 1], Budget) == Drops(trim[..i], Budget) + [Drop(trim[i], Budget)]
    ensures Ids(trim[..i + 1]) == Ids(trim[..i]) + {trim[i].id}
  {
    assert trim[..i + 1] == trim[..i] + [trim[i]];
  }

  lemma CutIsUnique(trim: seq<Chunk>, total: int, budget: int, k: nat, l: nat)
    requires IsCut(trim, total, budget, k) && IsCut(trim, total, budget, l)
    ensures k == l
  {
  }

  // ----- what was dropped, in terms of chunks

  lemma TrimOrderIs(weight: real, ordered: seq<Chunk>)
    requires UniqueIds(ordered)
    ensures var trim := TrimOrder(weight, ordered);
      SortedBy(ForTrimming(weight), trim) && UniqueIds(trim) && forall c :: c in trim <==> c in ordered && !c.pinned
  {
    var candidates := Filter(ordered, Unpinned());
    FilterUnique(ordered, Unpinned());
    SortSorts(ForTrimming(weight), candidates);
    SortKeepsMembers(ForTrimming(weight), candidates);
    forall c
      ensures c in Sort(ForTrimming(weight), candidates) <==> c in ordered && !c.pinned
    {
      assert c in Members(candidates) <==> c in candidates;
    }
  }

  /** With distinct ids, exactly the chunks before the cut are left out. */
  lemma IncludedAre(weight: real, ordered: seq<Chunk>, fixed: nat, budget: int, c: Chunk)
    requires UniqueIds(ordered)
    ensures c in Included(weight, ordered, fixed, budget) <==>
      c in ordered && c !in Trimmed(weight, ordered, fixed, budget)
  {
    TrimOrderIs(weight, ordered);
    var gone := Trimmed(weight, ordered, fixed, budget);
    if c in ordered && c.id in Ids(gone) {
      var d :| d in gone && d.id == c.id;
      SameIdSameChunk(ordered, c, d);
    }
  }

  lemma PinnedSurvive(weight: real, ordered: seq<Chunk>, fixed: nat, budget: int, c: Chunk)
    requires UniqueIds(ordered) && c in ordered && c.pinned
    ensures c in Included(weight, ordered, fixed, budget)
  {
    TrimOrderIs(weight, ordered);
    IncludedAre(weight, ordered, fixed, budget, c);
  }

  /** A chunk is dropped only after every unpinned chunk of every more volatile lane. */
  lemma VolatileLanesGoFirst(weight: real, ordered: seq<Chunk>, fixed: nat, budget: int, d: Chunk, c: Chunk)
    requires UniqueIds(ordered) && d in Trimmed(weight, ordered, fixed, budget)
    requires c in ordered && !c.pinned && LaneIndex(d.lane) < LaneIndex(c.lane)
    ensures c in Trimmed(weight, ordered, fixed, budget)
  {
    TrimOrderIs(weight, ordered);
    var trim := TrimOrder(weight, ordered);
    var k := Cut(weight, ordered, fixed, budget);
    var i :| 0 <= i < k && trim[i] == d;
    var j :| 0 <= j < |trim| && trim[j] == c;
    LanesDescend(weight, trim, i, j);
    assert trim[..k][j] == c;
  }

  lemma LanesDescend(weight: real, trim: seq<Chunk>, i: nat, j: nat)
    requires SortedBy(ForTrimming(weight), trim) && i < |trim| && j < |trim|
    ensures i <= j ==> LaneIndex(trim[i].lane) >= LaneIndex(trim[j].lane)
  {
    if i < j {
      assert Le(ForTrimming(weight), trim[i], trim[j]);
    }
  }

  /**
   In one lane: less relevant or, of equal relevance, of lower priority or, of equal priority, with the
   smaller id.
   */
  predicate LessValuable(weight: real, c: Chunk, d: Chunk) {
    && c.lane == d.lane
    && (c.relevance < d.relevance
        || (c.relevance == d.relevance
            && (c.priority * weight + c.relevance < d.priority * weight + d.relevance
                || (c.priority * weight + c.relevance == d.priority * weight + d.relevance && Lex(c.id, d.id)))))
  }

  /** In one lane a chunk is dropped only after every unpinned chunk that is less valuable. */
  lemma LessValuableGoesFirst(weight: real, ordered: seq<Chunk>, fixed: nat, budget: int, d: Chunk, c: Chunk)
    requires UniqueIds(ordered) && d in Trimmed(weight, ordered, fixed, budget)
    requires c in ordered && !c.pinned && LessValuable(weight, c, d)
    ensures c in Trimmed(weight, ordered, fixed, budget)
  {
    TrimOrderIs(weight, ordered);
    var trim := TrimOrder(weight, ordered);
    var k := Cut(weight, ordered, fixed, budget);
    var i :| 0 <= i < k && trim[i] == d;
    var j :| 0 <= j < |trim| && trim[j] == c;
    hide SortedBy, TrimOrder;
    LessValuableComesEarlier(weight, trim, i, j);
    assert trim[..k][j] == c;
  }

  lemma LessValuableComesEarlier(weight: real, trim: seq<Chunk>, i: nat, j: nat)
    requires SortedBy(ForTrimming(weight), trim) && i < |trim| && j < |trim| && LessValuable(weight, trim[j], trim[i])
    ensures j < i
  {
    hide SortedBy;
    LexTotal(trim[i].id, trim[j].id);
    SortedAt(ForTrimming(weight), trim, i, j);
  }

  // ----- what is left, in tokens

  lemma {:induction false} TokensOfPrefix(s: seq<Chunk>, n: nat)
    requires n <= |s|
    ensures Tokens(s[..n]) == TokensUpTo(s, n)
  {
    if n > 0 {
      TokensOfPrefix(s, n - 1);
      TokensOfSnoc(s[..n - 1], s[n - 1]);
      assert s[..n] == s[..n - 1] + [s[n - 1]];
    }
  }

  lemma PrefixUnique(s: seq<Chunk>, n: nat)
    requires UniqueIds(s) && n <= |s|
    ensures UniqueIds(s[..n])
  {
  }

  /** The chunks whose ids are dropped are the dropped chunks. */
  lemma TrimmedAreIdIn(weight: real, ordered: seq<Chunk>, fixed: nat, budget: int)
    requires UniqueIds(ordered)
    ensures var gone := Trimmed(weight, ordered, fixed, budget);
      var removed := Filter(ordered, IdIn(Ids(gone)));
      UniqueIds(gone) && UniqueIds(removed) && Members(removed) == Members(gone)
  {
    var gone := Trimmed(weight, ordered, fixed, budget);
    TrimOrderIs(weight, ordered);
    PrefixUnique(TrimOrder(weight, ordered), Cut(weight, ordered, fixed, budget));
    var removed := Filter(ordered, IdIn(Ids(gone)));
    FilterUnique(ordered, IdIn(Ids(gone)));
    forall c
      ensures c in removed <==> c in gone
    {
      if c in removed {
        var d :| d in gone && d.id == c.id;
        SameIdSameChunk(ordered, c, d);
      }
      assert c in gone ==> c in TrimOrder(weight, ordered);
    }
  }

  /** The included chunks hold exactly what the running total says. */
  lemma RealTokensAre(weight: real, ordered: seq<Chunk>, fixed: nat, budget: int)
    requires UniqueIds(ordered)
    ensures Tokens(Included(weight, ordered, fixed, budget)) ==
      Tokens(ordered) - TokensUpTo(TrimOrder(weight, ordered), Cut(weight, ordered, fixed, budget))
  {
    var gone := Trimmed(weight, ordered, fixed, budget);
    TokensSplit(ordered, IdNotIn(Ids(gone)), IdIn(Ids(gone)));
    TrimmedAreIdIn(weight, ordered, fixed, budget);
    TokensOfMembers(Filter(ordered, IdIn(Ids(gone))), gone);
    TokensOfPrefix(TrimOrder(weight, ordered), Cut(weight, ordered, fixed, budget));
  }

  function PinnedOnly(): Chunk -> bool {
    (c: Chunk) => c.pinned
  }

  /** Dropping every candidate leaves the pinned chunks. */
  lemma PinnedFloor(weight: real, ordered: seq<Chunk>)
    ensures var trim := TrimOrder(weight, ordered);
      Tokens(ordered) - TokensUpTo(trim, |trim|) == Tokens(Filter(ordered, PinnedOnly()))
  {
    var trim := TrimOrder(weight, ordered);
    TokensSplit(ordered, PinnedOnly(), Unpinned());
    TokensOfSort(ForTrimming(weight), Filter(ordered, Unpinned()));
    TokensOfPrefix(trim, |trim|);
    assert trim[..|trim|] == trim;
  }

  /** The result is over budget exactly when the pinned floor is; nothing unpinned is left then. */
  lemma OverBudgetIff(weight: real, ordered: seq<Chunk>, fixed: nat, budget: int)
    requires UniqueIds(ordered)
    ensures fixed + Tokens(Included(weight, ordered, fixed, budget)) > budget <==>
      fixed + Tokens(Filter(ordered, PinnedOnly())) > budget
    ensures fixed + Tokens(Included(weight, ordered, fixed, budget)) > budget ==>
      forall c :: c in ordered && !c.pinned ==> c in Trimmed(weight, ordered, fixed, budget)
  {
    var trim, k := TrimOrder(weight, ordered), Cut(weight, ordered, fixed, budget);
    RealTokensAre(weight, ordered, fixed, budget);
    PinnedFloor(weight, ordered);
    TokensUpToMonotone(trim, k, |trim|);
    TrimOrderIs(weight, ordered);
    assert trim[..|trim|] == trim;
  }

  lemma {:induction false} TokensUpToMonotone(s: seq<Chunk>, m: nat, n: nat)
    requires m <= n <= |s|
    ensures TokensUpTo(s, m) <= TokensUpTo(s, n)
  {
    if m < n {
      TokensUpToMonotone(s, m, n - 1);
    }
  }

  /** A larger budget drops no more, so it keeps at least the same chunks. */
  lemma LargerBudgetKeepsMore(weight: real, ordered: seq<Chunk>, fixed: nat, small: int, large: int, c: Chunk)
    requires UniqueIds(ordered) && small <= large && c in Included(weight, ordered, fixed, small)
    ensures c in Included(weight, ordered, fixed, large)
  {
    var trim := TrimOrder(weight, ordered);
    var k, l := Cut(weight, ordered, fixed, small), Cut(weight, ordered, fixed, large);
    assert l <= k;
    assert trim[..l] <= trim[..k];
    IncludedAre(weight, ordered, fixed, small, c);
    IncludedAre(weight, ordered, fixed, large, c);
  }

  // ----- when no static chunk is dropped

  function StaticOrPinned(): Chunk -> bool {
    (c: Chunk) => Static(c) || c.pinned
  }

  function UnpinnedVolatile(): Chunk -> bool {
    (c: Chunk) => !Static(c) && !c.pinned
  }

  /** The volatile candidates come first in the trim order; `m` is where the static ones begin. */
  lemma StaticCandidatesComeLast(trim: seq<Chunk>, weight: real) returns (m: nat)
    requires SortedBy(ForTrimming(weight), trim)
    ensures m <= |trim|
    ensures forall i :: 0 <= i < m ==> !Static(trim[i])
    ensures forall i :: m <= i < |trim| ==> Static(trim[i])
  {
    m := 0;
    while m < |trim| && !Static(trim[m])
      invariant m <= |trim| && forall i :: 0 <= i < m ==> !Static(trim[i])
    {
      m := m + 1;
    }
    forall i | m <= i < |trim|
      ensures Static(trim[i])
    {
      if m < i {
        assert Le(ForTrimming(weight), trim[m], trim[i]);
      }
    }
  }

  /**
   No static chunk is dropped exactly when there is none to drop, or the query, the static chunks
   and the pinned chunks fit together.
   */
  lemma StaticsKeptIff(weight: real, ordered: seq<Chunk>, fixed: nat, budget: int)
    requires UniqueIds(ordered)
    ensures (forall c :: c in Trimmed(weight, ordered, fixed, budget) ==> !Static(c)) <==>
      (forall c :: c in ordered && Static(c) ==> c.pinned)
      || fixed + Tokens(Filter(ordered, StaticOrPinned())) <= budget
  {
    var trim, k := TrimOrder(weight, ordered), Cut(weight, ordered, fixed, budget);
    TrimOrderIs(weight, ordered);
    var m := StaticCandidatesComeLast(trim, weight);
    assert (forall c :: c in trim[..k] ==> !Static(c)) <==> k <= m by {
      if m < k {
        assert trim[..k][m] == trim[m];
      }
    }
    assert (forall c :: c in ordered && Static(c) ==> c.pinned) <==> m == |trim| by {
      if m < |trim| {
        assert trim[m] in trim;
      }
    }
    VolatileCandidateTokens(weight, ordered, trim, m);
    if k <= m && k < |trim| {
      TokensUpToMonotone(trim, k, m);
    }
  }

  lemma VolatileCandidateTokens(weight: real, ordered: seq<Chunk>, trim: seq<Chunk>, m: nat)
    requires UniqueIds(ordered) && trim == TrimOrder(weight, ordered) && m <= |trim|
    requires (forall i :: 0 <= i < m ==> !Static(trim[i])) && forall i :: m <= i < |trim| ==> Static(trim[i])
    ensures Tokens(ordered) - TokensUpTo(trim, m) == Tokens(Filter(ordered, StaticOrPinned()))
  {
    TrimOrderIs(weight, ordered);
    TokensSplit(ordered, StaticOrPinned(), UnpinnedVolatile());
    var volatile := Filter(ordered, UnpinnedVolatile());
    FilterUnique(ordered, UnpinnedVolatile());
    PrefixUnique(trim, m);
    forall c
      ensures c in volatile <==> c in trim[..m]
    {
      if c in volatile {
        assert c in trim;
        var i :| 0 <= i < |trim| && trim[i] == c;
        assert trim[..m][i] == c;
      }
      assert c in trim[..m] ==> c in trim;
    }
    assert Members(volatile) == Members(trim[..m]);
    TokensOfMembers(volatile, trim[..m]);
    TokensOfPrefix(trim, m);
  }

  lemma {:induction false} FilterKeepsAll(s: seq<Chunk>, p: Chunk -> bool)
    requires forall c :: c in s ==> p(c)
    ensures Filter(s, p) == s
  {
    if s != [] {
      FilterKeepsAll(s[1..], p);
    }
  }

  /** Nothing is dropped from what fits, and the chunk dropped last had to go: with it the rest would not fit. */
  lemma NothingDroppedInVain(weight: real, ordered: seq<Chunk>, fixed: nat, budget: int)
    requires UniqueIds(ordered)
    ensures var trimmed, included := Trimmed(weight, ordered, fixed, budget), Included(weight, ordered, fixed, budget);
      && (fixed + Tokens(ordered) <= budget ==> trimmed == [] && included == ordered)
      && (trimmed != [] ==> fixed + Tokens(included) + trimmed[|trimmed| - 1].tokens > budget)
  {
    RealTokensAre(weight, ordered, fixed, budget);
    var trim, k := TrimOrder(weight, ordered), Cut(weight, ordered, fixed, budget);
    if fixed + Tokens(ordered) <= budget {
      assert k == 0 by {
        assert TokensUpTo(trim, 0) == 0;
      }
      assert Ids(trim[..0]) == {};
      FilterKeepsAll(ordered, IdNotIn(Ids(trim[..k])));
    }
    hide Tokens, Filter, TrimOrder, Cut, Ids;
  }
}
