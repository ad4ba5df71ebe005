/**
 Assembling the prompt (packages/context/src/engine.ts, `ContextEngine.assemble` after collection).

 The header of the source promises that the static prefix stays the same from turn to turn
 because trimming only ever removes from the volatile tail. `PrefixIsCoreIff` says exactly when a
 run's prefix holds what its static chunks alone would give; module `PrefixStability` compares runs.
 */
module ContextEngine {
  import opened Chunks
  import opened Dedupe
  import opened Packing
  import opened Options
  import opened Strings

  datatype Compressed = Compressed(text: string, tokens: nat, summarized: bool)

  /** What both runs of a comparison share: how texts are compared, scored and shortened. */
  datatype Settings = Settings(norm: Norm, weight: real, cap: Option<nat>, compress: (string, nat) -> Compressed)

  // ----- shortening

  predicate TooLong(o: Settings, c: Chunk) {
    o.cap.Some? && !c.pinned && c.tokens > o.cap.value
  }

  /** A chunk after the per-chunk cap. */
  function Capped(o: Settings, c: Chunk): Chunk {
    if !TooLong(o, c) then c
    else
      var r := o.compress(c.text, o.cap.value);
      if r.summarized then c.(text := r.text, tokens := r.tokens) else c
  }

  function CappedAll(o: Settings, s: seq<Chunk>): (r: seq<Chunk>)
    ensures |r| == |s| && forall i :: 0 <= i < |s| ==> r[i] == Capped(o, s[i])
    ensures UniqueIds(s) ==> UniqueIds(r)
  {
    seq(|s|, i requires 0 <= i < |s| => Capped(o, s[i]))
  }

  datatype CompressedChunk = CompressedChunk(id: string, sourceId: string, lane: Lane, fromTokens: nat, toTokens: nat)

  predicate Shortened(o: Settings, c: Chunk) {
    TooLong(o, c) && o.compress(c.text, o.cap.value).summarized
  }

  function ShortenedReport(o: Settings, c: Chunk): CompressedChunk {
    CompressedChunk(c.id, c.sourceId, c.lane, c.tokens, Capped(o, c).tokens)
  }

  /** One report, with the sizes before and after, for each of the first `n` chunks that is shortened. */
  function Shortenings(o: Settings, s: seq<Chunk>, n: nat): seq<CompressedChunk>
    requires n <= |s|
  {
    if n == 0 then []
    else
      var c := s[n - 1];
      Shortenings(o, s, n - 1) + if Shortened(o, c) then [ShortenedReport(o, c)] else []
  }

  /** The compression loop: replaces the chunks it shortens and reports each of them. */
  method Compress(o: Settings, resolved: seq<Chunk>) returns (out: seq<Chunk>, compressed: seq<CompressedChunk>)
    ensures out == CappedAll(o, resolved)
    ensures compressed == Shortenings(o, resolved, |resolved|)
  {
    out, compressed := resolved, [];
    for i := 0 to |resolved|
      invariant |out| == |resolved|
      invariant forall k :: 0 <= k < |out| ==> out[k] == if k < i then Capped(o, resolved[k]) else resolved[k]
      invariant compressed == Shortenings(o, resolved, i)
    {
      var c := out[i];
      if o.cap.None? || c.pinned || c.tokens <= o.cap.value {
        continue;
      }
      var before := c.tokens;
      var r := o.compress(c.text, o.cap.value);
      if r.summarized {
        out := out[i := c.(text := r.text, tokens := r.tokens)];
        compressed := compressed + [CompressedChunk(c.id, c.sourceId, c.lane, before, r.tokens)];
      }
    }
  }

  // ----- the pipeline

  function Ordered(o: Settings, chunks: seq<Chunk>): seq<Chunk> {
    Sort(ForAssembly(o.weight), CappedAll(o, Winners(o.norm, o.weight, chunks)))
  }

  /** The chunks that make it into the prompt, in order. */
  function Kept(o: Settings, chunks: seq<Chunk>, userTokens: nat, budget: int): seq<Chunk> {
    Included(o.weight, Ordered(o, chunks), userTokens, budget)
  }

  function KeptStatics(o: Settings, chunks: seq<Chunk>, userTokens: nat, budget: int): seq<Chunk> {
    Filter(Kept(o, chunks, userTokens, budget), StaticOnly())
  }

  // ----- rendering the static prefix

  function Texts(s: seq<Chunk>): seq<string> {
    if s == [] then [] else [s[0].text] + Texts(s[1..])
  }

  function Section(lane: Lane, chunks: seq<Chunk>): string {
    "# " + LaneTitle(lane) + "\n" + Join(Texts(chunks), "\n\n")
  }

  /** One titled section for each of the lanes that has chunks. */
  function Sections(lanes: seq<Lane>, chunks: seq<Chunk>): seq<string> {
    if lanes == [] then []
    else
      var front := Sections(lanes[..|lanes| - 1], chunks);
      var lane := lanes[|lanes| - 1];
      var laneChunks := Filter(chunks, OfLane(lane));
      if laneChunks == [] then front else front + [Section(lane, laneChunks)]
  }

  method RenderLanes(lanes: seq<Lane>, chunks: seq<Chunk>) returns (text: string)
    ensures text == Join(Sections(lanes, chunks), "\n\n")
  {
    var sections: seq<string> := [];
    for i := 0 to |lanes|
      invariant sections == Sections(lanes[..i], chunks)
    {
      assert lanes[..i + 1][..i] == lanes[..i];
      var laneChunks := Filter(chunks, OfLane(lanes[i]));
      if |laneChunks| == 0 {
        continue;
      }
      sections := sections + [Section(lanes[i], laneChunks)];
    }
    assert lanes[..|lanes|] == lanes;
    text := Join(sections, "\n\n");
  }

  function SystemText(statics: seq<Chunk>): string {
    Join(Sections(STATIC_LANES, statics), "\n\n")
  }

  /** The cacheable prefix of a run. */
  function SystemPrompt(o: Settings, chunks: seq<Chunk>, userTokens: nat, budget: int): string {
    SystemText(KeptStatics(o, chunks, userTokens, budget))
  }

  // ----- time stamps play no part in the static prefix

  function Timeless(c: Chunk): Chunk {
    c.(createdAt := 0)
  }

  function TimelessAll(s: seq<Chunk>): (r: seq<Chunk>)
    ensures |r| == |s| && forall i :: 0 <= i < |s| ==> r[i] == Timeless(s[i])
  {
    seq(|s|, i requires 0 <= i < |s| => Timeless(s[i]))
  }

  function TimelessSet(s: seq<Chunk>): set<Chunk> {
    set c | c in s :: Timeless(c)
  }

  lemma TimelessCons(c: Chunk, s: seq<Chunk>)
    ensures TimelessAll([c] + s) == [Timeless(c)] + TimelessAll(s)
  {
  }

  lemma {:induction false} FilterTimeless(s: seq<Chunk>, lane: Lane)
    ensures Filter(TimelessAll(s), OfLane(lane)) == TimelessAll(Filter(s, OfLane(lane)))
  {
    if s != [] {
      var c, rest := s[0], s[1..];
      assert s == [c] + rest;
      FilterTimeless(rest, lane);
      hide Filter, TimelessAll;
      FilterCons(c, rest, OfLane(lane));
      FilterCons(Timeless(c), TimelessAll(rest), OfLane(lane));
      TimelessCons(c, rest);
      TimelessCons(c, Filter(rest, OfLane(lane)));
    }
  }

  lemma {:induction false} TextsTimeless(s: seq<Chunk>)
    ensures Texts(TimelessAll(s)) == Texts(s)
  {
    if s != [] {
      TextsTimeless(s[1..]);
      assert TimelessAll(s)[1..] == TimelessAll(s[1..]);
    }
  }

  lemma {:induction false} SectionsTimeless(lanes: seq<Lane>, s: seq<Chunk>)
    ensures Sections(lanes, TimelessAll(s)) == Sections(lanes, s)
  {
    if lanes != [] {
      SectionsTimeless(lanes[..|lanes| - 1], s);
      var lane := lanes[|lanes| - 1];
      FilterTimeless(s, lane);
      TextsTimeless(Filter(s, OfLane(lane)));
    }
  }

  /** Static chunks sorted for assembly render to a text that only their timeless forms decide. */
  lemma SameTimelessSameText(weight: real, s: seq<Chunk>, t: seq<Chunk>)
    requires SortedBy(ForAssembly(weight), s) && SortedBy(ForAssembly(weight), t) && UniqueIds(s) && UniqueIds(t)
    requires (forall c :: c in s ==> Static(c)) && (forall c :: c in t ==> Static(c))
    requires TimelessSet(s) == TimelessSet(t)
    ensures SystemText(s) == SystemText(t)
  {
    TimelessSorted(weight, s);
    TimelessSorted(weight, t);
    SortedIsUnique(ForAssembly(weight), TimelessAll(s), TimelessAll(t));
    SectionsTimeless(STATIC_LANES, s);
    SectionsTimeless(STATIC_LANES, t);
  }

  lemma TimelessSorted(weight: real, s: seq<Chunk>)
    requires SortedBy(ForAssembly(weight), s) && UniqueIds(s) && forall c :: c in s ==> Static(c)
    ensures SortedBy(ForAssembly(weight), TimelessAll(s)) && UniqueIds(TimelessAll(s))
    ensures Members(TimelessAll(s)) == TimelessSet(s)
  {
    var t := TimelessAll(s);
    forall i, j | 0 <= i < j < |t|
      ensures Le(ForAssembly(weight), t[i], t[j])
    {
      assert Le(ForAssembly(weight), s[i], s[j]) && Static(s[i]) && Static(s[j]);
    }
    forall c
      ensures c in t <==> c in TimelessSet(s)
    {
      if c in t {
        var i :| 0 <= i < |t| && t[i] == c;
        assert s[i] in s;
      }
      if c in TimelessSet(s) {
        var d :| d in s && Timeless(d) == c;
        var i :| 0 <= i < |s| && s[i] == d;
        assert t[i] == c;
      }
    }
  }

  // ----- the prefix the static chunks would have on their own

  /** The strongest copy of each static text, shortened: what the prefix is made of when nothing interferes. */
  ghost function Core(o: Settings, statics: set<Chunk>): set<Chunk> {
    set c | c in statics && Strongest(o.norm, o.weight, statics, c) :: Capped(o, c)
  }

  /** Query, static chunks and pinned chunks fit the budget together, or there is no static chunk to drop. */
  predicate StaticsFit(o: Settings, chunks: seq<Chunk>, userTokens: nat, budget: int) {
    var ordered := Ordered(o, chunks);
    (forall c :: c in ordered && Static(c) ==> c.pinned)
    || userTokens + Tokens(Filter(ordered, StaticOrPinned())) <= budget
  }

  lemma OrderedAre(o: Settings, chunks: seq<Chunk>)
    requires UniqueIds(chunks)
    ensures var ordered := Ordered(o, chunks);
      && SortedBy(ForAssembly(o.weight), ordered) && UniqueIds(ordered)
      && forall c :: c in ordered <==> exists w :: w in Winners(o.norm, o.weight, chunks) && Capped(o, w) == c
  {
    var winners := Winners(o.norm, o.weight, chunks);
    WinnersUnique(o.norm, o.weight, chunks);
    var capped := CappedAll(o, winners);
    SortSorts(ForAssembly(o.weight), capped);
    SortKeepsMembers(ForAssembly(o.weight), capped);
    forall c
      ensures c in Ordered(o, chunks) <==> exists w :: w in winners && Capped(o, w) == c
    {
      assert c in Ordered(o, chunks) <==> c in Members(capped);
      if c in capped {
        var i :| 0 <= i < |capped| && capped[i] == c;
        assert winners[i] in winners;
      }
      if w :| w in winners && Capped(o, w) == c {
        var i :| 0 <= i < |winners| && winners[i] == w;
        assert capped[i] == c;
      }
    }
  }

  lemma KeptStaticsAre(o: Settings, chunks: seq<Chunk>, userTokens: nat, budget: int)
    requires UniqueIds(chunks)
    ensures var kept := KeptStatics(o, chunks, userTokens, budget);
      && SortedBy(ForAssembly(o.weight), kept) && UniqueIds(kept)
      && forall c :: c in kept <==>
           c in Ordered(o, chunks) && Static(c)
             && c !in Packing.Trimmed(o.weight, Ordered(o, chunks), userTokens, budget)
  {
    var ordered := Ordered(o, chunks);
    OrderedAre(o, chunks);
    var ids := Ids(Packing.Trimmed(o.weight, ordered, userTokens, budget));
    FilterSorted(ForAssembly(o.weight), ordered, IdNotIn(ids));
    FilterUnique(ordered, IdNotIn(ids));
    FilterSorted(ForAssembly(o.weight), Kept(o, chunks, userTokens, budget), StaticOnly());
    FilterUnique(Kept(o, chunks, userTokens, budget), StaticOnly());
    forall c
      ensures c in Kept(o, chunks, userTokens, budget) <==>
        c in ordered && c !in Packing.Trimmed(o.weight, ordered, userTokens, budget)
    {
      IncludedAre(o.weight, ordered, userTokens, budget, c);
    }
  }

  /** A pinned chunk is never trimmed and never shortened; it is kept exactly when no stronger chunk has its text. */
  lemma PinnedIsKeptIff(o: Settings, chunks: seq<Chunk>, userTokens: nat, budget: int, c: Chunk)
    requires UniqueIds(chunks) && c in chunks && c.pinned
    ensures c in Kept(o, chunks, userTokens, budget) <==> Strongest(o.norm, o.weight, Members(chunks), c)
  {
    var ordered := Ordered(o, chunks);
    OrderedAre(o, chunks);
    WinnersAreStrongest(o.norm, o.weight, chunks, c);
    if c in ordered {
      var w :| w in Winners(o.norm, o.weight, chunks) && Capped(o, w) == c;
      WinnersAreStrongest(o.norm, o.weight, chunks, w);
      CappedKeeps(o, w);
      SameIdSameChunk(chunks, w, c);
      PinnedSurvive(o.weight, ordered, userTokens, budget, c);
    }
    IncludedAre(o.weight, ordered, userTokens, budget, c);
    hide Strongest, Winners, Included;
  }

  /**
   The prompt runs from the most stable lane to the most volatile. Within a lane conversation and task
   chunks come oldest first, the others by falling score; ids break ties.
   */
  lemma KeptInPromptOrder(o: Settings, chunks: seq<Chunk>, userTokens: nat, budget: int, i: nat, j: nat)
    requires UniqueIds(chunks) && i < j < |Kept(o, chunks, userTokens, budget)|
    ensures var a, b := Kept(o, chunks, userTokens, budget)[i], Kept(o, chunks, userTokens, budget)[j];
      var x, y := a.priority * o.weight + a.relevance, b.priority * o.weight + b.relevance;
      || LaneIndex(a.lane) < LaneIndex(b.lane)
      || (a.lane == b.lane
          && if a.lane in {History, Task}
             then a.createdAt < b.createdAt || (a.createdAt == b.createdAt && Lex(a.id, b.id))
             else x > y || (x == y && Lex(a.id, b.id)))
  {
    var kept := Kept(o, chunks, userTokens, budget);
    KeptSorted(o, chunks, userTokens, budget);
    hide Kept, SortedBy;
    SortedAt(ForAssembly(o.weight), kept, i, j);
    assert kept[i].id != kept[j].id;
    LaneIndexIsPlace(kept[i].lane);
    LaneIndexIsPlace(kept[j].lane);
  }

  lemma KeptSorted(o: Settings, chunks: seq<Chunk>, userTokens: nat, budget: int)
    requires UniqueIds(chunks)
    ensures var kept := Kept(o, chunks, userTokens, budget); SortedBy(ForAssembly(o.weight), kept) && UniqueIds(kept)
  {
    var ordered := Ordered(o, chunks);
    OrderedAre(o, chunks);
    var ids := Ids(Packing.Trimmed(o.weight, ordered, userTokens, budget));
    FilterSorted(ForAssembly(o.weight), ordered, IdNotIn(ids));
    FilterUnique(ordered, IdNotIn(ids));
    hide Le, Ordered;
  }

  /** The core of the static chunks, from their winners; time stamps do not matter. */
  lemma CoreIs(o: Settings, chunks: seq<Chunk>, c: Chunk)
    requires UniqueIds(chunks)
    ensures c in Core(o, TimelessSet(Filter(chunks, StaticOnly()))) <==>
      exists w :: w in Winners(o.norm, o.weight, Filter(chunks, StaticOnly())) && Timeless(Capped(o, w)) == c
  {
    var statics := Filter(chunks, StaticOnly());
    FilterUnique(chunks, StaticOnly());
    forall w | w in statics
      ensures w in Winners(o.norm, o.weight, statics) <==>
        Strongest(o.norm, o.weight, TimelessSet(statics), Timeless(w))
    {
      WinnersAreStrongest(o.norm, o.weight, statics, w);
      StrengthIsTimeless(o.norm, o.weight, statics, w);
    }
    forall w
      ensures Timeless(Capped(o, w)) == Capped(o, Timeless(w))
    {
    }
    if w :| w in Winners(o.norm, o.weight, statics) && Timeless(Capped(o, w)) == c {
      WinnersAreStrongest(o.norm, o.weight, statics, w);
      assert Timeless(w) in TimelessSet(statics);
    }
    if c in Core(o, TimelessSet(statics)) {
      var t :| t in TimelessSet(statics) && Strongest(o.norm, o.weight, TimelessSet(statics), t) && Capped(o, t) == c;
      var w :| w in statics && Timeless(w) == t;
    }
  }

  lemma StrengthIsTimeless(norm: Norm, weight: real, s: seq<Chunk>, w: Chunk)
    ensures Strongest(norm, weight, Members(s), w) <==> Strongest(norm, weight, TimelessSet(s), Timeless(w))
  {
    forall d | d in s
      ensures Timeless(d) in TimelessSet(s)
      ensures Le(ByStrength(weight), w, d) <==> Le(ByStrength(weight), Timeless(w), Timeless(d))
    {
    }
    if Strongest(norm, weight, TimelessSet(s), Timeless(w)) && norm(w.text) != "" {
      forall d | d in Members(s) && SameText(norm, w, d)
        ensures Le(ByStrength(weight), w, d)
      {
        assert Timeless(d) in TimelessSet(s) && SameText(norm, Timeless(w), Timeless(d));
      }
    }
  }

  // ----- exactly when the prefix is that core

  /** With no static chunk evicted, the static winners are the winners among the static chunks. */
  lemma StaticWinners(o: Settings, chunks: seq<Chunk>, w: Chunk)
    requires UniqueIds(chunks) && NoStaticEvicted(o.norm, o.weight, chunks)
    ensures w in Winners(o.norm, o.weight, Filter(chunks, StaticOnly())) <==>
      w in Winners(o.norm, o.weight, chunks) && Static(w)
  {
    StaticWinnersIff(o.norm, o.weight, chunks);
    var ours := Filter(Winners(o.norm, o.weight, chunks), StaticOnly());
    var alone := Winners(o.norm, o.weight, Filter(chunks, StaticOnly()));
    assert w in alone <==> w in Members(alone);
    assert w in ours <==> w in Members(ours);
  }

  /** With no static chunk dropped, the kept static chunks are the shortened static winners. */
  lemma KeptStaticsFromWinners(o: Settings, chunks: seq<Chunk>, userTokens: nat, budget: int, c: Chunk)
    requires UniqueIds(chunks) && StaticsFit(o, chunks, userTokens, budget)
    ensures c in KeptStatics(o, chunks, userTokens, budget) <==>
      exists w :: w in Winners(o.norm, o.weight, chunks) && Static(w) && Capped(o, w) == c
  {
    OrderedAre(o, chunks);
    KeptStaticsAre(o, chunks, userTokens, budget);
    StaticsKeptIff(o.weight, Ordered(o, chunks), userTokens, budget);
  }

  lemma KeptFromCore(o: Settings, chunks: seq<Chunk>, userTokens: nat, budget: int)
    requires UniqueIds(chunks)
    requires NoStaticEvicted(o.norm, o.weight, chunks) && StaticsFit(o, chunks, userTokens, budget)
    ensures TimelessSet(KeptStatics(o, chunks, userTokens, budget)) ==
      Core(o, TimelessSet(Filter(chunks, StaticOnly())))
  {
    hide KeptStatics, Core, StaticsFit, NoStaticEvicted, Winners, Capped, Filter;
    var kept := KeptStatics(o, chunks, userTokens, budget);
    forall c
      ensures c in TimelessSet(kept) <==> c in Core(o, TimelessSet(Filter(chunks, StaticOnly())))
    {
      CoreIs(o, chunks, c);
      if k :| k in kept && Timeless(k) == c {
        KeptStaticsFromWinners(o, chunks, userTokens, budget, k);
        var w :| w in Winners(o.norm, o.weight, chunks) && Static(w) && Capped(o, w) == k;
        StaticWinners(o, chunks, w);
      }
      if w :| w in Winners(o.norm, o.weight, Filter(chunks, StaticOnly())) && Timeless(Capped(o, w)) == c {
        StaticWinners(o, chunks, w);
        KeptStaticsFromWinners(o, chunks, userTokens, budget, Capped(o, w));
      }
    }
  }

  /** Whatever the core needs and the prefix lacks was evicted by a duplicate or dropped for the budget. */
  lemma CoreKeptMeans(o: Settings, chunks: seq<Chunk>, userTokens: nat, budget: int)
    requires UniqueIds(chunks)
    requires TimelessSet(KeptStatics(o, chunks, userTokens, budget)) ==
      Core(o, TimelessSet(Filter(chunks, StaticOnly())))
    ensures NoStaticEvicted(o.norm, o.weight, chunks) && StaticsFit(o, chunks, userTokens, budget)
  {
    hide KeptStatics, Core, StaticsFit, NoStaticEvicted, Winners, Capped, Filter;
    var kept := KeptStatics(o, chunks, userTokens, budget);
    var alone := Winners(o.norm, o.weight, Filter(chunks, StaticOnly()));
    var ours := Filter(Winners(o.norm, o.weight, chunks), StaticOnly());
    forall w | w in alone
      ensures w in ours && Capped(o, w) in kept
    {
      var c := Timeless(Capped(o, w));
      CoreIs(o, chunks, c);
      assert c in TimelessSet(kept);
      var k :| k in kept && Timeless(k) == c;
      KeptComesFrom(o, chunks, userTokens, budget, w, k);
    }
    forall w | w in ours
      ensures w in alone
    {
      OursAreAlone(o, chunks, w);
    }
    assert Members(ours) == Members(alone);
    StaticWinnersIff(o.norm, o.weight, chunks);
    forall c | c in Ordered(o, chunks) && Static(c)
      ensures c in kept
    {
      OrderedAre(o, chunks);
      var w :| w in Winners(o.norm, o.weight, chunks) && Capped(o, w) == c;
      CappedKeeps(o, w);
      assert w in ours;
    }
    StaticsAllKept(o, chunks, userTokens, budget);
  }

  lemma CappedKeeps(o: Settings, w: Chunk)
    ensures Capped(o, w).id == w.id && Capped(o, w).lane == w.lane && Capped(o, w).createdAt == w.createdAt
  {
  }

  lemma OursAreAlone(o: Settings, chunks: seq<Chunk>, w: Chunk)
    requires UniqueIds(chunks) && w in Winners(o.norm, o.weight, chunks) && Static(w)
    ensures w in Winners(o.norm, o.weight, Filter(chunks, StaticOnly()))
  {
    hide Le;
    var statics := Filter(chunks, StaticOnly());
    FilterUnique(chunks, StaticOnly());
    WinnersAreStrongest(o.norm, o.weight, chunks, w);
    WinnersAreStrongest(o.norm, o.weight, statics, w);
    assert forall d :: d in Members(statics) ==> d in Members(chunks);
  }

  /** A kept static chunk with the id of a static chunk `w` is `w`, shortened. */
  lemma KeptComesFrom(o: Settings, chunks: seq<Chunk>, userTokens: nat, budget: int, w: Chunk, k: Chunk)
    requires UniqueIds(chunks) && w in Winners(o.norm, o.weight, Filter(chunks, StaticOnly()))
    requires k in KeptStatics(o, chunks, userTokens, budget) && Timeless(k) == Timeless(Capped(o, w))
    ensures w in Winners(o.norm, o.weight, chunks) && Static(w) && k == Capped(o, w)
  {
    hide Winners, Le, Capped, KeptStatics;
    var statics := Filter(chunks, StaticOnly());
    FilterUnique(chunks, StaticOnly());
    WinnersAreStrongest(o.norm, o.weight, statics, w);
    KeptStaticsAre(o, chunks, userTokens, budget);
    OrderedAre(o, chunks);
    var v :| v in Winners(o.norm, o.weight, chunks) && Capped(o, v) == k;
    WinnersAreStrongest(o.norm, o.weight, chunks, v);
    CappedKeeps(o, v);
    CappedKeeps(o, w);
    SameIdSameChunk(chunks, v, w);
  }

  lemma StaticsAllKept(o: Settings, chunks: seq<Chunk>, userTokens: nat, budget: int)
    requires UniqueIds(chunks)
    requires forall c :: c in Ordered(o, chunks) && Static(c) ==> c in KeptStatics(o, chunks, userTokens, budget)
    ensures StaticsFit(o, chunks, userTokens, budget)
  {
    var ordered := Ordered(o, chunks);
    OrderedAre(o, chunks);
    KeptStaticsAre(o, chunks, userTokens, budget);
    TrimOrderIs(o.weight, ordered);
    StaticsKeptIff(o.weight, ordered, userTokens, budget);
    var trimmed := Packing.Trimmed(o.weight, ordered, userTokens, budget);
    forall c | c in trimmed
      ensures !Static(c)
    {
      assert c in TrimOrder(o.weight, ordered);
    }
  }

  /**
   The prefix is made of exactly the chunks the static chunks alone would give, if and only if no
   volatile chunk evicts a static one as its duplicate, and the query, the static and the pinned
   chunks fit the budget (or every static chunk is pinned).
   */
  lemma PrefixIsCoreIff(o: Settings, chunks: seq<Chunk>, userTokens: nat, budget: int)
    requires UniqueIds(chunks)
    ensures TimelessSet(KeptStatics(o, chunks, userTokens, budget)) ==
      Core(o, TimelessSet(Filter(chunks, StaticOnly())))
      <==> NoStaticEvicted(o.norm, o.weight, chunks) && StaticsFit(o, chunks, userTokens, budget)
  {
    if NoStaticEvicted(o.norm, o.weight, chunks) && StaticsFit(o, chunks, userTokens, budget) {
      KeptFromCore(o, chunks, userTokens, budget);
    }
    if TimelessSet(KeptStatics(o, chunks, userTokens, budget)) == Core(o, TimelessSet(Filter(chunks, StaticOnly()))) {
      CoreKeptMeans(o, chunks, userTokens, budget);
    }
  }

  /**
   Two runs with the same static chunks, up to time stamps, render the same system text, whatever
   their volatile chunks, queries, budgets and collection orders are.
   */
  lemma PrefixStableAcrossRuns(o: Settings, xs: seq<Chunk>, userX: nat, budgetX: int, ys: seq<Chunk>, userY: nat,
                               budgetY: int)
    requires UniqueIds(xs) && UniqueIds(ys)
    requires TimelessSet(Filter(xs, StaticOnly())) == TimelessSet(Filter(ys, StaticOnly()))
    requires NoStaticEvicted(o.norm, o.weight, xs) && StaticsFit(o, xs, userX, budgetX)
    requires NoStaticEvicted(o.norm, o.weight, ys) && StaticsFit(o, ys, userY, budgetY)
    ensures SystemPrompt(o, xs, userX, budgetX) == SystemPrompt(o, ys, userY, budgetY)
  {
    KeptFromCore(o, xs, userX, budgetX);
    KeptFromCore(o, ys, userY, budgetY);
    KeptStaticsAre(o, xs, userX, budgetX);
    KeptStaticsAre(o, ys, userY, budgetY);
    SameTimelessSameText(o.weight, KeptStatics(o, xs, userX, budgetX), KeptStatics(o, ys, userY, budgetY));
  }
}
