/**
 The books of one assembly (packages/context/src/engine.ts, `buildReport`): token totals by lane
 and by source, and the cache breakpoints over the static prefix.
 */
module ContextReport {
  import opened Chunks
  import opened Dedupe

  /** The tokens of those among the first `n` chunks that satisfy `p`. */
  function SumIf(s: seq<Chunk>, n: nat, p: Chunk -> bool): nat
    requires n <= |s|
  {
    if n == 0 then 0 else SumIf(s, n - 1, p) + if p(s[n - 1]) then s[n - 1].tokens else 0
  }

  function CountIf(s: seq<Chunk>, n: nat, p: Chunk -> bool): nat
    requires n <= |s|
  {
    if n == 0 then 0 else CountIf(s, n - 1, p) + if p(s[n - 1]) then 1 else 0
  }

  function OfSource(id: string): Chunk -> bool {
    (c: Chunk) => c.sourceId == id
  }

  /** Chunks of the first `n` lanes. */
  function Below(n: nat): Chunk -> bool {
    (c: Chunk) => LaneIndex(c.lane) < n
  }

  datatype Totals = Totals(tokens: nat, count: nat)

  datatype LaneReport = LaneReport(lane: Lane, isStatic: bool, totals: Totals)

  datatype Breakpoint = Breakpoint(lane: Lane, tokenOffset: nat)

  const ALL_LANES: seq<Lane> := STATIC_LANES + VOLATILE_LANES

  lemma LanesInOrder()
    ensures |ALL_LANES| == 11
    ensures forall i :: 0 <= i < 11 ==> LaneIndex(ALL_LANES[i]) == i
    ensures forall i :: 0 <= i < 6 ==> ALL_LANES[i] == STATIC_LANES[i]
  {
  }

  // ----- by lane

  method LaneTotals(included: seq<Chunk>) returns (agg: map<Lane, Totals>)
    ensures forall lane :: lane in agg <==> CountIf(included, |included|, OfLane(lane)) > 0
    ensures forall lane :: lane in agg ==>
      agg[lane] == Totals(SumIf(included, |included|, OfLane(lane)), CountIf(included, |included|, OfLane(lane)))
  {
    agg := map[];
    for i := 0 to |included|
      invariant forall lane :: lane in agg <==> CountIf(included, i, OfLane(lane)) > 0
      invariant forall lane :: lane in agg ==>
        agg[lane] == Totals(SumIf(included, i, OfLane(lane)), CountIf(included, i, OfLane(lane)))
      invariant forall lane :: lane !in agg ==> SumIf(included, i, OfLane(lane)) == 0
    {
      var c := included[i];
      var cur := if c.lane in agg then agg[c.lane] else Totals(0, 0);
      agg := agg[c.lane := Totals(cur.tokens + c.tokens, cur.count + 1)];
    }
  }

  lemma {:induction false} SumZeroWithoutChunks(s: seq<Chunk>, n: nat, p: Chunk -> bool)
    requires n <= |s|
    ensures CountIf(s, n, p) == 0 ==> SumIf(s, n, p) == 0
  {
    if n > 0 {
      SumZeroWithoutChunks(s, n - 1, p);
    }
  }

  /** One more lane adds that lane's tokens. */
  lemma {:induction false} SumBelowNext(s: seq<Chunk>, n: nat, lane: Lane)
    requires n <= |s|
    ensures SumIf(s, n, Below(LaneIndex(lane) + 1)) == SumIf(s, n, Below(LaneIndex(lane))) + SumIf(s, n, OfLane(lane))
  {
    if n > 0 {
      SumBelowNext(s, n - 1, lane);
    }
  }

  lemma {:induction false} SumBelowNone(s: seq<Chunk>, n: nat)
    requires n <= |s|
    ensures SumIf(s, n, Below(0)) == 0
  {
    if n > 0 {
      SumBelowNone(s, n - 1);
    }
  }

  lemma {:induction false} SumSame(s: seq<Chunk>, n: nat, p: Chunk -> bool, q: Chunk -> bool)
    requires n <= |s| && forall c :: c in s ==> p(c) == q(c)
    ensures SumIf(s, n, p) == SumIf(s, n, q)
  {
    if n > 0 {
      SumSame(s, n - 1, p, q);
    }
  }

  lemma {:induction false} TokensAreSum(s: seq<Chunk>, n: nat)
    requires n <= |s|
    ensures SumIf(s, n, Below(11)) == Tokens(s[..n])
  {
    if n > 0 {
      TokensAreSum(s, n - 1);
      assert s[..n] == s[..n - 1] + [s[n - 1]];
      TokensOfSnoc(s[..n - 1], s[n - 1]);
    }
  }

  function SumOfReports(lanes: seq<LaneReport>, n: nat): nat
    requires n <= |lanes|
  {
    if n == 0 then 0 else SumOfReports(lanes, n - 1) + lanes[n - 1].totals.tokens
  }

  lemma {:induction false} SumOfPrefix(lanes: seq<LaneReport>, more: seq<LaneReport>, n: nat)
    requires n <= |lanes|
    ensures SumOfReports(lanes + more, n) == SumOfReports(lanes, n)
  {
    if n > 0 {
      SumOfPrefix(lanes, more, n - 1);
    }
  }

  predicate Reports(included: seq<Chunk>, r: LaneReport) {
    && r.isStatic == IsStaticLane(r.lane)
    && r.totals == Totals(SumIf(included, |included|, OfLane(r.lane)), CountIf(included, |included|, OfLane(r.lane)))
  }

  predicate IsReported(lanes: seq<LaneReport>, lane: Lane) {
    exists k :: 0 <= k < |lanes| && lanes[k].lane == lane
  }

  /** Reports in lane order of the lanes among the first `n` that are in use. */
  ghost predicate ReportsUpTo(included: seq<Chunk>, lanes: seq<LaneReport>, n: nat) {
    && SumOfReports(lanes, |lanes|) == SumIf(included, |included|, Below(n))
    && (forall k :: 0 <= k < |lanes| ==> LaneIndex(lanes[k].lane) < n && Reports(included, lanes[k]))
    && (forall k, l :: 0 <= k < l < |lanes| ==> LaneIndex(lanes[k].lane) < LaneIndex(lanes[l].lane))
    && (forall lane :: IsReported(lanes, lane) <==> LaneIndex(lane) < n && InUse(included, lane))
  }

  predicate InUse(included: seq<Chunk>, lane: Lane) {
    CountIf(included, |included|, OfLane(lane)) > 0
  }

  lemma IsReportedNext(lanes: seq<LaneReport>, r: LaneReport, lane: Lane)
    ensures IsReported(lanes + [r], lane) <==> IsReported(lanes, lane) || lane == r.lane
  {
    var more := lanes + [r];
    assert more[|lanes|] == r;
    if k :| 0 <= k < |lanes| && lanes[k].lane == lane {
      assert more[k].lane == lane;
    }
  }

  lemma ReportNext(included: seq<Chunk>, lanes: seq<LaneReport>, n: nat, r: LaneReport)
    requires ReportsUpTo(included, lanes, n) && LaneIndex(r.lane) == n && Reports(included, r)
      && InUse(included, r.lane)
    ensures ReportsUpTo(included, lanes + [r], n + 1)
  {
    hide InUse, SumIf, CountIf;
    SumBelowNext(included, |included|, r.lane);
    SumOfPrefix(lanes, [r], |lanes|);
    forall lane
      ensures IsReported(lanes + [r], lane) <==> LaneIndex(lane) < n + 1 && InUse(included, lane)
    {
      IsReportedNext(lanes, r, lane);
      OneLaneAt(r.lane, lane);
      hide IsReported;
    }
  }

  lemma NoReportNext(included: seq<Chunk>, lanes: seq<LaneReport>, n: nat, lane: Lane)
    requires ReportsUpTo(included, lanes, n) && LaneIndex(lane) == n && !InUse(included, lane)
    ensures ReportsUpTo(included, lanes, n + 1)
  {
    SumBelowNext(included, |included|, lane);
    SumZeroWithoutChunks(included, |included|, OfLane(lane));
    hide SumIf, CountIf, IsReported, Reports;
    forall l
      ensures IsReported(lanes, l) <==> LaneIndex(l) < n + 1 && InUse(included, l)
    {
      OneLaneAt(lane, l);
    }
  }

  lemma OneLaneAt(lane: Lane, l: Lane)
    ensures LaneIndex(l) == LaneIndex(lane) ==> l == lane
  {
  }

  lemma NothingReported(included: seq<Chunk>)
    ensures ReportsUpTo(included, [], 0)
  {
    SumBelowNone(included, |included|);
  }

  /** One report per lane in use, in lane order; their tokens add up to everything included. */
  method Lanes(included: seq<Chunk>) returns (lanes: seq<LaneReport>)
    ensures SumOfReports(lanes, |lanes|) == Tokens(included)
    ensures forall i, j :: 0 <= i < j < |lanes| ==> LaneIndex(lanes[i].lane) < LaneIndex(lanes[j].lane)
    ensures forall r :: r in lanes ==> Reports(included, r)
    ensures forall lane :: IsReported(lanes, lane) <==> InUse(included, lane)
  {
    hide SumIf, CountIf, ReportsUpTo;
    var agg := LaneTotals(included);
    lanes := [];
    LanesInOrder();
    NothingReported(included);
    for i := 0 to |ALL_LANES|
      invariant ReportsUpTo(included, lanes, i)
    {
      var lane := ALL_LANES[i];
      if lane in agg {
        var report := LaneReport(lane, IsStaticLane(lane), agg[lane]);
        ReportNext(included, lanes, i, report);
        lanes := lanes + [report];
      } else {
        NoReportNext(included, lanes, i, lane);
      }
    }
    AllReported(included, lanes);
  }

  lemma AllReported(included: seq<Chunk>, lanes: seq<LaneReport>)
    requires ReportsUpTo(included, lanes, |ALL_LANES|)
    ensures SumOfReports(lanes, |lanes|) == Tokens(included)
    ensures forall i, j :: 0 <= i < j < |lanes| ==> LaneIndex(lanes[i].lane) < LaneIndex(lanes[j].lane)
    ensures forall r :: r in lanes ==> Reports(included, r)
    ensures forall lane :: IsReported(lanes, lane) <==> InUse(included, lane)
  {
    TokensAreSum(included, |included|);
    assert included[..|included|] == included;
    hide SumIf, CountIf, IsReported, Reports;
  }

  // ----- breakpoints

  /** The offset at which a lane ends in the prefix. */
  function EndOf(included: seq<Chunk>, lane: Lane): nat {
    SumIf(included, |included|, Below(LaneIndex(lane) + 1))
  }

  /** The end of a static lane that holds tokens. */
  predicate Marks(included: seq<Chunk>, b: Breakpoint) {
    IsStaticLane(b.lane) && SumIf(included, |included|, OfLane(b.lane)) > 0 && b.tokenOffset == EndOf(included, b.lane)
  }

  predicate Increasing(bs: seq<Breakpoint>) {
    forall i, j :: 0 <= i < j < |bs| ==> bs[i].tokenOffset < bs[j].tokenOffset
  }

  /** The ends of the static lanes that hold tokens, among the first `n`, in lane order. */
  function AllMarks(included: seq<Chunk>, n: nat): seq<Breakpoint>
    requires n <= |STATIC_LANES|
  {
    if n == 0 then []
    else
      var lane := STATIC_LANES[n - 1];
      AllMarks(included, n - 1)
      + if SumIf(included, |included|, OfLane(lane)) > 0 then [Breakpoint(lane, EndOf(included, lane))] else []
  }

  /** The last `max` of a list. */
  function Last<T>(s: seq<T>, max: int): seq<T> {
    if |s| <= max then s else if max < 0 then [] else s[|s| - max..]
  }

  /** Static lanes with tokens, in lane order, each with the offset of its end; the last `maxBreakpoints` of them. */
  method Breakpoints(included: seq<Chunk>, maxBreakpoints: int) returns (breakpoints: seq<Breakpoint>)
    ensures breakpoints == Last(AllMarks(included, |STATIC_LANES|), maxBreakpoints)
  {
    var agg := LaneTotals(included);
    var all: seq<Breakpoint> := [];
    var cumulative := 0;
    LanesInOrder();
    SumBelowNone(included, |included|);
    hide SumIf, CountIf;
    for i := 0 to |STATIC_LANES|
      invariant cumulative == SumIf(included, |included|, Below(i)) && all == AllMarks(included, i)
    {
      var lane := STATIC_LANES[i];
      StaticLaneAt(i);
      SumBelowNext(included, |included|, lane);
      SumZeroWithoutChunks(included, |included|, OfLane(lane));
      if lane !in agg || agg[lane].tokens == 0 {
        continue;
      }
      cumulative := cumulative + agg[lane].tokens;
      all := all + [Breakpoint(lane, cumulative)];
    }
    var first := if maxBreakpoints < 0 then |all| else |all| - maxBreakpoints;
    breakpoints := if |all| > maxBreakpoints then all[first..] else all;
  }

  lemma StaticLaneAt(i: nat)
    requires i < |STATIC_LANES|
    ensures LaneIndex(STATIC_LANES[i]) == i && IsStaticLane(STATIC_LANES[i])
  {
  }

  /** One lane more, with its mark or without. */
  lemma NextMark(included: seq<Chunk>, n: nat)
    requires 0 < n <= |STATIC_LANES|
    ensures var all, lane := AllMarks(included, n - 1), STATIC_LANES[n - 1];
      var before, mine := SumIf(included, |included|, Below(n - 1)), SumIf(included, |included|, OfLane(lane));
      && SumIf(included, |included|, Below(n)) == before + mine
      && AllMarks(included, n) == all + (if mine > 0 then [Breakpoint(lane, before + mine)] else [])
      && (mine > 0 ==> Marks(included, Breakpoint(lane, before + mine)))
  {
    hide SumIf;
    StaticLaneAt(n - 1);
    SumBelowNext(included, |included|, STATIC_LANES[n - 1]);
  }

  predicate UpTo(included: seq<Chunk>, all: seq<Breakpoint>, total: nat) {
    && Increasing(all) && (forall b :: b in all ==> Marks(included, b))
    && (all == [] <==> total == 0)
    && (all != [] ==> all[|all| - 1].tokenOffset == total)
  }

  lemma UpToMore(included: seq<Chunk>, all: seq<Breakpoint>, total: nat, b: Breakpoint)
    requires UpTo(included, all, total) && Marks(included, b) && b.tokenOffset > total
    ensures UpTo(included, all + [b], b.tokenOffset)
  {
    hide Marks;
  }

  lemma {:induction false} MarksUpTo(included: seq<Chunk>, n: nat)
    requires n <= |STATIC_LANES|
    ensures UpTo(included, AllMarks(included, n), SumIf(included, |included|, Below(n)))
  {
    if n == 0 {
      SumBelowNone(included, |included|);
    } else {
      hide SumIf, Marks, UpTo, AllMarks;
      MarksUpTo(included, n - 1);
      NextMark(included, n);
      var all, lane := AllMarks(included, n - 1), STATIC_LANES[n - 1];
      var before, mine := SumIf(included, |included|, Below(n - 1)), SumIf(included, |included|, OfLane(lane));
      if mine > 0 {
        UpToMore(included, all, before, Breakpoint(lane, before + mine));
      } else {
        assert all + [] == all;
      }
    }
  }

  lemma LastOf(s: seq<Breakpoint>, max: int)
    ensures var bs := Last(s, max);
      && |bs| == (if |s| <= max then |s| else if max < 0 then 0 else max)
      && forall i :: 0 <= i < |bs| ==> bs[i] == s[|s| - |bs| + i]
  {
  }

  /** Breakpoints increase strictly, each marks a static lane's end, and the last is the end of the static tokens. */
  lemma BreakpointsAre(included: seq<Chunk>, max: int)
    ensures var bs := Last(AllMarks(included, |STATIC_LANES|), max);
      && Increasing(bs) && (forall b :: b in bs ==> Marks(included, b))
      && (bs != [] ==> bs[|bs| - 1].tokenOffset == SumIf(included, |included|, Below(6)))
      && (bs == [] <==> max <= 0 || SumIf(included, |included|, Below(6)) == 0)
      && |bs| <= if max > 0 then max else 0
  {
    var all := AllMarks(included, |STATIC_LANES|);
    MarksUpTo(included, |STATIC_LANES|);
    LastOf(all, max);
    hide SumIf, Marks, AllMarks, Last;
    var bs := Last(all, max);
    forall i, j | 0 <= i < j < |bs|
      ensures bs[i].tokenOffset < bs[j].tokenOffset
    {
      assert all[|all| - |bs| + i].tokenOffset < all[|all| - |bs| + j].tokenOffset;
    }
  }

  // ----- by source

  method SourceTotals(included: seq<Chunk>) returns (agg: map<string, Totals>)
    ensures forall id :: id in agg ==>
      agg[id] == Totals(SumIf(included, |included|, OfSource(id)), CountIf(included, |included|, OfSource(id)))
    ensures forall id :: id !in agg ==>
      CountIf(included, |included|, OfSource(id)) == 0 && SumIf(included, |included|, OfSource(id)) == 0
  {
    agg := map[];
    for i := 0 to |included|
      invariant forall id :: id in agg ==>
        agg[id] == Totals(SumIf(included, i, OfSource(id)), CountIf(included, i, OfSource(id)))
      invariant forall id :: id !in agg ==>
        CountIf(included, i, OfSource(id)) == 0 && SumIf(included, i, OfSource(id)) == 0
    {
      var c := included[i];
      var cur := if c.sourceId in agg then agg[c.sourceId] else Totals(0, 0);
      agg := agg[c.sourceId := Totals(cur.tokens + c.tokens, cur.count + 1)];
    }
  }

  function DroppedOf(dropped: seq<DroppedChunk>, n: nat, id: string): nat
    requires n <= |dropped|
  {
    if n == 0 then 0 else DroppedOf(dropped, n - 1, id) + if dropped[n - 1].sourceId == id then 1 else 0
  }

  method DroppedCounts(dropped: seq<DroppedChunk>) returns (counts: map<string, nat>)
    ensures forall id :: DroppedOf(dropped, |dropped|, id) == if id in counts then counts[id] else 0
  {
    counts := map[];
    for i := 0 to |dropped|
      invariant forall id :: DroppedOf(dropped, i, id) == if id in counts then counts[id] else 0
    {
      var id := dropped[i].sourceId;
      counts := counts[id := (if id in counts then counts[id] else 0) + 1];
    }
  }
}
