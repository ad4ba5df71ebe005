/**
 One whole assembly (packages/context/src/engine.ts): resolve the collected chunks, dedupe,
 compress, order, pack, render and report. Collection itself is the input: a source that failed or
 timed out is one that contributed no chunks.
 */
module Assemble {
  import opened Chunks
  import opened Dedupe
  import Packing
  import opened ContextEngine
  import opened ContextReport
  import opened Options
  import opened Strings

  datatype RawChunk = RawChunk(
    id: string,
    sourceId: Option<string>,
    lane: Lane,
    text: string,
    role: Option<string>,
    tokens: Option<nat>,
    relevance: Option<real>,
    priority: Option<real>,
    pinned: Option<bool>,
    createdAt: Option<int>)

  datatype Source = Source(id: string, priority: real)

  datatype Collected = Collected(source: Source, chunks: seq<RawChunk>)

  function Clamp01(n: real): real {
    if n < 0.0 then 0.0 else if n > 1.0 then 1.0 else n
  }

  function Resolve(raw: RawChunk, source: Source, index: nat, now: int, estimate: string -> nat): Chunk {
    Chunk(raw.id, Or(raw.sourceId, source.id), raw.lane, raw.text, Or(raw.role, "user"),
          Or(raw.tokens, estimate(raw.text)), Clamp01(Or(raw.relevance, 0.5)), Or(raw.priority, source.priority),
          Or(raw.pinned, false), Or(raw.createdAt, now + index))
  }

  function ResolvedOf(c: Collected, n: nat, now: int, estimate: string -> nat): seq<Chunk>
    requires n <= |c.chunks|
  {
    if n == 0 then []
    else ResolvedOf(c, n - 1, now, estimate) + [Resolve(c.chunks[n - 1], c.source, n - 1, now, estimate)]
  }

  function ResolvedAll(cs: seq<Collected>, n: nat, now: int, estimate: string -> nat): seq<Chunk>
    requires n <= |cs|
  {
    if n == 0 then []
    else ResolvedAll(cs, n - 1, now, estimate) + ResolvedOf(cs[n - 1], |cs[n - 1].chunks|, now, estimate)
  }

  /** How many chunks the sources with this id handed in. */
  function HandedIn(cs: seq<Collected>, n: nat, id: string): nat
    requires n <= |cs|
  {
    if n == 0 then 0 else HandedIn(cs, n - 1, id) + if cs[n - 1].source.id == id then |cs[n - 1].chunks| else 0
  }

  method ResolveCollected(cs: seq<Collected>, now: int, estimate: string -> nat)
      returns (resolved: seq<Chunk>, perSource: map<string, nat>)
    ensures resolved == ResolvedAll(cs, |cs|, now, estimate)
    ensures forall id :: HandedIn(cs, |cs|, id) == if id in perSource then perSource[id] else 0
  {
    resolved, perSource := [], map[];
    for k := 0 to |cs|
      invariant resolved == ResolvedAll(cs, k, now, estimate)
      invariant forall id :: HandedIn(cs, k, id) == if id in perSource then perSource[id] else 0
    {
      var source, chunks := cs[k].source, cs[k].chunks;
      perSource := perSource[source.id := (if source.id in perSource then perSource[source.id] else 0) + |chunks|];
      ghost var before := resolved;
      for i := 0 to |chunks|
        invariant resolved == before + ResolvedOf(cs[k], i, now, estimate)
      {
        resolved := resolved + [Resolve(chunks[i], source, i, now, estimate)];
      }
    }
  }

  // ----- rendering the volatile tail

  datatype Message = Message(role: string, blocks: seq<string>)

  function HistoryMessages(history: seq<Chunk>, n: nat): seq<Message>
    requires n <= |history|
  {
    if n == 0 then [] else HistoryMessages(history, n - 1) + [Message(history[n - 1].role, [history[n - 1].text])]
  }

  const PREAMBLE_LANES: seq<Lane> := [Retrieved, Git, Terminal, Task]

  method RenderVolatile(chunks: seq<Chunk>, userMessage: string) returns (messages: seq<Message>, preamble: string)
    ensures var history := Sort(ByTime, Filter(chunks, OfLane(History)));
      messages == HistoryMessages(history, |history|)
        + [Message("user", (if preamble == "" then [] else [preamble]) + [userMessage])]
    ensures preamble == Join(Sections(PREAMBLE_LANES, chunks), "\n\n")
  {
    hide Sort, Filter, Sections, Join;
    var history := Sort(ByTime, Filter(chunks, OfLane(History)));
    messages := [];
    for i := 0 to |history|
      invariant messages == HistoryMessages(history, i)
    {
      messages := messages + [Message(history[i].role, [history[i].text])];
    }
    preamble := RenderLanes(PREAMBLE_LANES, chunks);
    var content: seq<string> := [];
    if |preamble| > 0 {
      content := content + [preamble];
    }
    content := content + [userMessage];
    assert content == (if preamble == "" then [] else [preamble]) + [userMessage];
    messages := messages + [Message("user", content)];
  }

  /** Sorting the kept history by time again changes nothing: it already is in that order. */
  lemma HistoryIsInOrder(o: Settings, chunks: seq<Chunk>, userTokens: nat, budget: int)
    requires UniqueIds(chunks)
    ensures var history := Filter(Kept(o, chunks, userTokens, budget), OfLane(History));
      Sort(ByTime, history) == history
  {
    var ordered := Ordered(o, chunks);
    OrderedAre(o, chunks);
    var ids := Packing.Ids(Packing.Trimmed(o.weight, ordered, userTokens, budget));
    FilterSorted(ForAssembly(o.weight), ordered, Packing.IdNotIn(ids));
    FilterUnique(ordered, Packing.IdNotIn(ids));
    var kept := Kept(o, chunks, userTokens, budget);
    FilterSorted(ForAssembly(o.weight), kept, OfLane(History));
    FilterUnique(kept, OfLane(History));
    var history := Filter(kept, OfLane(History));
    forall i, j | 0 <= i < j < |history|
      ensures Le(ByTime, history[i], history[j])
    {
      assert Le(ForAssembly(o.weight), history[i], history[j]);
      assert history[i] in history && history[j] in history;
    }
    SortSorts(ByTime, history);
    SortKeepsMembers(ByTime, history);
    SortedIsUnique(ByTime, Sort(ByTime, history), history);
  }

  // ----- every chunk is accounted for

  /** Chunks of one source, or of any. */
  function From(id: Option<string>): Chunk -> bool {
    (c: Chunk) => id.None? || c.sourceId == id.value
  }

  function Count(s: seq<Chunk>, id: Option<string>): nat {
    |Filter(s, From(id))|
  }

  lemma CountCons(c: Chunk, s: seq<Chunk>, id: Option<string>)
    ensures Count([c] + s, id) == Count(s, id) + (if From(id)(c) then 1 else 0) && Count([] + s, id) == Count(s, id)
  {
    assert ([c] + s)[1..] == s && [] + s == s;
  }

  lemma {:induction false} CountSplit(s: seq<Chunk>, p: Chunk -> bool, q: Chunk -> bool, id: Option<string>)
    requires forall c :: c in s ==> p(c) != q(c)
    ensures Count(s, id) == Count(Filter(s, p), id) + Count(Filter(s, q), id)
  {
    if s != [] {
      CountSplit(s[1..], p, q, id);
      CountCons(s[0], Filter(s[1..], p), id);
      CountCons(s[0], Filter(s[1..], q), id);
      CountCons(s[0], s[1..], id);
      assert s == [s[0]] + s[1..];
      hide Count;
    }
  }

  lemma {:induction false} CountSnoc(s: seq<Chunk>, c: Chunk, id: Option<string>)
    ensures Count(s + [c], id) == Count(s, id) + if From(id)(c) then 1 else 0
  {
    if s == [] {
      assert s + [c] == [c];
    } else {
      CountSnoc(s[1..], c, id);
      assert (s + [c])[1..] == s[1..] + [c];
    }
  }

  /** Chunks with distinct ids are counted alike however they are listed. */
  lemma CountOfMembers(s: seq<Chunk>, t: seq<Chunk>, id: Option<string>)
    requires UniqueIds(s) && UniqueIds(t) && Members(s) == Members(t)
    ensures Count(s, id) == Count(t, id)
  {
    FilterUnique(s, From(id));
    FilterUnique(t, From(id));
    var f, g := Filter(s, From(id)), Filter(t, From(id));
    forall c
      ensures c in f <==> c in g
    {
      assert c in s <==> c in Members(s);
      assert c in t <==> c in Members(t);
    }
    assert Members(f) == Members(g);
    SortSorts(ByTime, f);
    SortSorts(ByTime, g);
    SortKeepsMembers(ByTime, f);
    SortKeepsMembers(ByTime, g);
    SortedIsUnique(ByTime, Sort(ByTime, f), Sort(ByTime, g));
    assert |f| == |multiset(f)| && |g| == |multiset(g)|;
    assert |Sort(ByTime, f)| == |multiset(Sort(ByTime, f))| && |Sort(ByTime, g)| == |multiset(Sort(ByTime, g))|;
  }

  lemma CountNone(id: Option<string>)
    ensures Count([], id) == 0
  {
  }

  lemma {:induction false} CountOfFirsts(norm: Norm, s: seq<Chunk>, n: nat, id: Option<string>)
    requires n <= |s|
    ensures Count(Firsts(norm, s, n, true), id) + Count(Firsts(norm, s, n, false), id) == Count(s[..n], id)
  {
    hide Count, FirstOfText, Filter;
    if n == 0 {
      assert s[..0] == [];
      CountNone(id);
    } else {
      CountOfFirsts(norm, s, n - 1, id);
      CountSnoc(s[..n - 1], s[n - 1], id);
      assert s[..n] == s[..n - 1] + [s[n - 1]];
      CountSnoc(Firsts(norm, s, n - 1, FirstOfText(norm, s, n - 1)), s[n - 1], id);
      var other := Firsts(norm, s, n - 1, !FirstOfText(norm, s, n - 1));
      assert other + [] == other;
    }
  }

  lemma {:induction false} CountOfCapped(o: Settings, s: seq<Chunk>, id: Option<string>)
    ensures Count(CappedAll(o, s), id) == Count(s, id)
  {
    if s != [] {
      CountOfCapped(o, s[1..], id);
      assert CappedAll(o, s)[1..] == CappedAll(o, s[1..]);
    }
  }

  /** Included, dropped as duplicates and dropped for the budget make up what was collected, in all and by source. */
  lemma EveryChunkAccountedFor(o: Settings, chunks: seq<Chunk>, userTokens: nat, budget: int, id: Option<string>)
    requires UniqueIds(chunks)
    ensures Count(Kept(o, chunks, userTokens, budget), id)
        + Count(Duplicates(o.norm, o.weight, chunks), id)
        + Count(Packing.Trimmed(o.weight, Ordered(o, chunks), userTokens, budget), id)
      == Count(chunks, id)
  {
    hide Filter;
    var ordered := Ordered(o, chunks);
    var winners := Winners(o.norm, o.weight, chunks);
    var sorted := Sort(ByStrength(o.weight), chunks);
    SortKeepsMembers(ByStrength(o.weight), chunks);
    CountOfMembers(sorted, chunks, id);
    CountOfFirsts(o.norm, sorted, |sorted|, id);
    assert sorted[..|sorted|] == sorted;
    WinnersUnique(o.norm, o.weight, chunks);
    CountOfCapped(o, winners, id);
    SortKeepsMembers(ForAssembly(o.weight), CappedAll(o, winners));
    CountOfMembers(ordered, CappedAll(o, winners), id);
    KeptAndTrimmed(o.weight, ordered, userTokens, budget, id);
  }

  lemma KeptAndTrimmed(weight: real, ordered: seq<Chunk>, userTokens: nat, budget: int, id: Option<string>)
    requires UniqueIds(ordered)
    ensures Count(Packing.Included(weight, ordered, userTokens, budget), id)
      + Count(Packing.Trimmed(weight, ordered, userTokens, budget), id) == Count(ordered, id)
  {
    var trimmed := Packing.Trimmed(weight, ordered, userTokens, budget);
    var ids := Packing.Ids(trimmed);
    CountSplit(ordered, Packing.IdNotIn(ids), Packing.IdIn(ids), id);
    Packing.TrimmedAreIdIn(weight, ordered, userTokens, budget);
    CountOfMembers(Filter(ordered, Packing.IdIn(ids)), trimmed, id);
  }

  // ----- the report's counts

  lemma {:induction false} CountIfIs(s: seq<Chunk>, n: nat, id: string)
    requires n <= |s|
    ensures CountIf(s, n, OfSource(id)) == Count(s[..n], Some(id))
  {
    if n > 0 {
      CountIfIs(s, n - 1, id);
      CountSnoc(s[..n - 1], s[n - 1], Some(id));
      assert s[..n] == s[..n - 1] + [s[n - 1]];
      hide Count;
    } else {
      assert s[..0] == [];
      CountNone(Some(id));
    }
  }

  lemma {:induction false} DroppedOfDrops(s: seq<Chunk>, n: nat, reason: Reason, more: seq<DroppedChunk>, id: string)
    requires n <= |s|
    ensures DroppedOf(Drops(s, reason) + more, n, id) == Count(s[..n], Some(id))
  {
    if n > 0 {
      DroppedOfDrops(s, n - 1, reason, more, id);
      CountSnoc(s[..n - 1], s[n - 1], Some(id));
      assert s[..n] == s[..n - 1] + [s[n - 1]];
      hide Count;
    } else {
      assert s[..0] == [];
      CountNone(Some(id));
    }
  }

  lemma {:induction false} DroppedOfBoth(s: seq<Chunk>, t: seq<Chunk>, n: nat, id: string)
    requires n <= |t|
    ensures DroppedOf(Drops(s, Duplicate) + Drops(t, Budget), |s| + n, id) ==
      Count(s, Some(id)) + Count(t[..n], Some(id))
  {
    if n > 0 {
      DroppedOfBoth(s, t, n - 1, id);
      CountSnoc(t[..n - 1], t[n - 1], Some(id));
      assert t[..n] == t[..n - 1] + [t[n - 1]];
      hide Count;
    } else {
      DroppedOfDrops(s, |s|, Duplicate, Drops(t, Budget), id);
      assert s[..|s|] == s && t[..0] == [];
      CountNone(Some(id));
    }
  }

  datatype SourceReport = SourceReport(id: string, collected: nat, included: nat, dropped: nat, tokens: nat)

  datatype Report = Report(
    nominalTokens: nat,
    realTokens: nat,
    overBudget: bool,
    userMessageTokens: nat,
    included: seq<Chunk>,
    dropped: seq<DroppedChunk>,
    compressed: seq<CompressedChunk>,
    lanes: seq<LaneReport>,
    sources: seq<SourceReport>,
    breakpoints: seq<Breakpoint>)

  method BuildSources(cs: seq<Collected>, perSource: map<string, nat>, included: seq<Chunk>, dropped: seq<DroppedChunk>)
      returns (sources: seq<SourceReport>)
    requires forall id :: HandedIn(cs, |cs|, id) == if id in perSource then perSource[id] else 0
    ensures |sources| == |cs| && forall k :: 0 <= k < |cs| ==> Books(cs, included, dropped, cs[k].source.id, sources[k])
  {
    var inc := SourceTotals(included);
    var drop := DroppedCounts(dropped);
    sources := [];
    for k := 0 to |cs|
      invariant |sources| == k && forall j :: 0 <= j < k ==> Books(cs, included, dropped, cs[j].source.id, sources[j])
    {
      var id := cs[k].source.id;
      var totals := if id in inc then inc[id] else Totals(0, 0);
      sources := sources + [SourceReport(id, if id in perSource then perSource[id] else 0, totals.count,
                                         if id in drop then drop[id] else 0, totals.tokens)];
    }
  }

  predicate Books(cs: seq<Collected>, included: seq<Chunk>, dropped: seq<DroppedChunk>, id: string, r: SourceReport) {
    r == SourceReport(id, HandedIn(cs, |cs|, id), CountIf(included, |included|, OfSource(id)),
                      DroppedOf(dropped, |dropped|, id), SumIf(included, |included|, OfSource(id)))
  }

  /** How many collected chunks carry a source's label, whoever handed them in. */
  function Labelled(cs: seq<Collected>, n: nat, id: string): nat
    requires n <= |cs|
  {
    if n == 0 then 0 else Labelled(cs, n - 1, id) + LabelledIn(cs[n - 1], |cs[n - 1].chunks|, id)
  }

  function LabelledIn(c: Collected, n: nat, id: string): nat
    requires n <= |c.chunks|
  {
    if n == 0 then 0 else LabelledIn(c, n - 1, id) + if Or(c.chunks[n - 1].sourceId, c.source.id) == id then 1 else 0
  }

  lemma {:induction false} LabelledInIs(before: seq<Chunk>, c: Collected, n: nat, now: int, estimate: string -> nat,
                                        id: string)
    requires n <= |c.chunks|
    ensures Count(before + ResolvedOf(c, n, now, estimate), Some(id)) == Count(before, Some(id)) + LabelledIn(c, n, id)
  {
    hide Count;
    if n == 0 {
      assert before + [] == before;
    } else {
      LabelledInIs(before, c, n - 1, now, estimate, id);
      var chunk := Resolve(c.chunks[n - 1], c.source, n - 1, now, estimate);
      CountSnoc(before + ResolvedOf(c, n - 1, now, estimate), chunk, Some(id));
      assert before + ResolvedOf(c, n, now, estimate) == before + ResolvedOf(c, n - 1, now, estimate) + [chunk];
    }
  }

  lemma {:induction false} LabelledIs(cs: seq<Collected>, n: nat, now: int, estimate: string -> nat, id: string)
    requires n <= |cs|
    ensures Count(ResolvedAll(cs, n, now, estimate), Some(id)) == Labelled(cs, n, id)
  {
    if n == 0 {
      CountNone(Some(id));
    } else {
      LabelledIs(cs, n - 1, now, estimate, id);
      LabelledInIs(ResolvedAll(cs, n - 1, now, estimate), cs[n - 1], |cs[n - 1].chunks|, now, estimate, id);
    }
  }

  lemma BooksAddUp(cs: seq<Collected>, kept: seq<Chunk>, duplicates: seq<Chunk>, trimmed: seq<Chunk>, id: string,
                   r: SourceReport)
    requires Books(cs, kept, Drops(duplicates, Duplicate) + Drops(trimmed, Budget), id, r)
    ensures r.collected == HandedIn(cs, |cs|, id)
    ensures r.included + r.dropped == Count(kept, Some(id)) + Count(duplicates, Some(id)) + Count(trimmed, Some(id))
  {
    hide Count, HandedIn, Drops, DroppedOf, CountIf, SumIf;
    CountIfIs(kept, |kept|, id);
    DroppedOfBoth(duplicates, trimmed, |trimmed|, id);
    assert kept[..|kept|] == kept && trimmed[..|trimmed|] == trimmed;
  }

  /**
   A source's included and dropped counts add up to the chunks that carry its label, and so to what
   it handed in exactly when as many chunks carry the label as it handed in.
   */
  lemma SourceBooksBalance(cs: seq<Collected>, o: Settings, user: nat, budget: int, now: int, estimate: string -> nat,
                           id: string, r: SourceReport)
    requires var chunks := ResolvedAll(cs, |cs|, now, estimate);
      && UniqueIds(chunks)
      && Books(cs, Kept(o, chunks, user, budget),
               Drops(Duplicates(o.norm, o.weight, chunks), Duplicate)
               + Drops(Packing.Trimmed(o.weight, Ordered(o, chunks), user, budget), Budget), id, r)
    ensures r.included + r.dropped == Labelled(cs, |cs|, id)
    ensures r.included + r.dropped == r.collected <==> Labelled(cs, |cs|, id) == HandedIn(cs, |cs|, id)
  {
    var chunks := ResolvedAll(cs, |cs|, now, estimate);
    var kept := Kept(o, chunks, user, budget);
    var duplicates := Duplicates(o.norm, o.weight, chunks);
    var trimmed := Packing.Trimmed(o.weight, Ordered(o, chunks), user, budget);
    hide Count, Kept, Duplicates, Packing.Trimmed, ResolvedAll, Ordered, Books, Drops, HandedIn, Labelled;
    LabelledIs(cs, |cs|, now, estimate, id);
    EveryChunkAccountedFor(o, chunks, user, budget, Some(id));
    BooksAddUp(cs, kept, duplicates, trimmed, id, r);
  }

  /** A source that hands in one chunk labelled for another: its books do not balance. */
  lemma ForeignLabelUnbalances()
    ensures var cs := [Collected(Source("a", 1.0),
      [RawChunk("c", Some("b"), Retrieved, "x", None, None, None, None, None, None)])];
      Labelled(cs, |cs|, "a") != HandedIn(cs, |cs|, "a")
  {
    var chunk := RawChunk("c", Some("b"), Retrieved, "x", None, None, None, None, None, None);
    var c := Collected(Source("a", 1.0), [chunk]);
    assert LabelledIn(c, 1, "a") == LabelledIn(c, 0, "a") + 0;
    assert Labelled([c], 1, "a") == Labelled([c], 0, "a") + 0;
    assert HandedIn([c], 1, "a") == HandedIn([c], 0, "a") + 1;
  }

  function VolatileKept(o: Settings, chunks: seq<Chunk>, user: nat, budget: int): seq<Chunk> {
    Filter(Kept(o, chunks, user, budget), VolatileOnly())
  }

  function HistoryKept(o: Settings, chunks: seq<Chunk>, user: nat, budget: int): seq<Chunk> {
    Sort(ByTime, Filter(VolatileKept(o, chunks, user, budget), OfLane(History)))
  }

  method Run(cs: seq<Collected>, userMessage: string, o: Settings, budget: int, maxBreakpoints: int, now: int,
             estimate: string -> nat)
      returns (system: string, messages: seq<Message>, preamble: string, report: Report)
    ensures var chunks := ResolvedAll(cs, |cs|, now, estimate);
      var user := estimate(userMessage);
      && system == SystemPrompt(o, chunks, user, budget)
      && report.included == Kept(o, chunks, user, budget)
      && report.dropped == Drops(Duplicates(o.norm, o.weight, chunks), Duplicate)
           + Drops(Packing.Trimmed(o.weight, Ordered(o, chunks), user, budget), Budget)
      && report.compressed == Shortenings(o, Winners(o.norm, o.weight, chunks), |Winners(o.norm, o.weight, chunks)|)
      && report.nominalTokens == Tokens(chunks) + user
      && report.userMessageTokens == user
      && preamble == Join(Sections(PREAMBLE_LANES, VolatileKept(o, chunks, user, budget)), "\n\n")
      && messages == HistoryMessages(HistoryKept(o, chunks, user, budget), |HistoryKept(o, chunks, user, budget)|)
           + [Message("user", (if preamble == "" then [] else [preamble]) + [userMessage])]
    ensures report.realTokens == Tokens(report.included) + report.userMessageTokens
    ensures report.overBudget <==> report.realTokens > budget
    ensures SumOfReports(report.lanes, |report.lanes|) + report.userMessageTokens == report.realTokens
    ensures forall r :: r in report.lanes ==> Reports(report.included, r)
    ensures forall lane :: IsReported(report.lanes, lane) <==> InUse(report.included, lane)
    ensures |report.sources| == |cs| && forall k :: 0 <= k < |cs| ==>
      Books(cs, report.included, report.dropped, cs[k].source.id, report.sources[k])
    ensures report.breakpoints == Last(AllMarks(report.included, |STATIC_LANES|), maxBreakpoints)
  {
    hide Sort, Filter, Tokens, Drops, Shortenings, SumIf, CountIf, ResolvedAll, HandedIn, Books, Marks, Sections,
         Join, SumOfReports, Winners, Duplicates, Packing.Trimmed, Packing.Included, CappedAll, HistoryMessages,
         IsReported, InUse, Reports, AllMarks, Last;
    var resolved, perSource := ResolveCollected(cs, now, estimate);
    var user := estimate(userMessage);
    var nominal := Tokens(resolved) + user;
    var winners, dropped := Dedupe.Run(resolved, o.weight, o.norm);
    var capped, compressed := Compress(o, winners);
    var ordered := Sort(ForAssembly(o.weight), capped);
    var packed := Packing.Pack(ordered, budget, user, o.weight);
    dropped := dropped + packed.packDropped;
    var statics := Filter(packed.included, StaticOnly());
    system := RenderLanes(STATIC_LANES, statics);
    var volatiles := Filter(packed.included, VolatileOnly());
    messages, preamble := RenderVolatile(volatiles, userMessage);
    var lanes := Lanes(packed.included);
    var breakpoints := Breakpoints(packed.included, maxBreakpoints);
    var sources := BuildSources(cs, perSource, packed.included, dropped);
    report := Report(nominal, packed.realTokens, packed.overBudget, user, packed.included, dropped, compressed, lanes,
                     sources, breakpoints);
  }

  function VolatileOnly(): Chunk -> bool {
    (c: Chunk) => !Static(c)
  }
}
