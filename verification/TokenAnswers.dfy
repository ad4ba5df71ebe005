/**
 What a caller of `getFresh` is told (packages/auth/src/store.ts), in every run of `TokenRefresh`:
 by what it read first, and by how the refresh it started or joined ended.
 */
module TokenAnswers {
  import opened Options
  import opened TokenRefresh

  /** Caller `c` read `current` at event `i` and goes on from there at event `j`. */
  ghost predicate GoesOnAt(s0: State, skew: int, events: seq<Event>, c: CallerId, i: nat, j: nat,
                           current: Option<TokenSet>) {
    && i < j < |events| && ReadAt(s0, skew, events, i, c, current)
    && events[j].Resume? && events[j].c == c
    && var s := Run(s0, skew, events[..j]); c in s.callers && s.callers[c] == HasRead(current)
  }

  lemma GoesOnMore(s0: State, skew: int, events: seq<Event>, n: nat, c: CallerId, i: nat, j: nat,
                   current: Option<TokenSet>)
    requires n <= |events| && GoesOnAt(s0, skew, events[..n], c, i, j, current)
    ensures GoesOnAt(s0, skew, events, c, i, j, current) && events[..n][..j] == events[..j]
  {
    hide Run, ReadAt;
    assert events[..n][..j] == events[..j];
    ReadAtMore(s0, skew, events, n, i, c, current);
  }

  lemma GoesOnNow(s0: State, skew: int, events: seq<Event>, c: CallerId) returns (i: nat)
    requires s0.callers == map[] && events != []
    requires events[|events| - 1].Resume? && events[|events| - 1].c == c
    requires var s := Run(s0, skew, events[..|events| - 1]); c in s.callers && s.callers[c].HasRead?
    ensures var n := |events| - 1;
      GoesOnAt(s0, skew, events, c, i, n, Run(s0, skew, events[..n]).callers[c].current)
  {
    var n := |events| - 1;
    hide Run, ReadAt;
    FirstRead(s0, skew, events[..n], c);
    var current := Run(s0, skew, events[..n]).callers[c].current;
    i :| ReadAt(s0, skew, events[..n], i, c, current);
    ReadAtMore(s0, skew, events, n, i, c, current);
    ReadIsBefore(s0, skew, events[..n], i, c, current);
  }

  lemma ReadIsBefore(s0: State, skew: int, events: seq<Event>, i: nat, c: CallerId, current: Option<TokenSet>)
    requires ReadAt(s0, skew, events, i, c, current)
    ensures i < |events|
  {
    hide Run;
  }

  /** The refresh that a caller joins: the one under way, or the one it starts. */
  function FlightOf(s: State): FlightId {
    if s.slot.Some? then s.slot.value else s.started
  }

  predicate Waits(s: State, c: CallerId) {
    c in s.callers && (s.callers[c].Owns? || s.callers[c].Joined?)
  }

  lemma WaitStep(s: State, skew: int, e: Event, c: CallerId)
    requires Waits(Step(s, skew, e), c)
    ensures var t := Step(s, skew, e);
      if Waits(s, c) then t.callers[c].flight == s.callers[c].flight
      else
        && e.Resume? && e.c == c && c in s.callers && s.callers[c].HasRead? && Refreshable(s.callers[c].current)
        && e.now >= s.callers[c].current.value.expiresAt - skew && t.callers[c].flight == FlightOf(s)
  {
  }

  /** At event `j` a caller finds the set it read stale and refreshable, and waits for flight `f` from then on. */
  ghost predicate WaitsFor(s0: State, skew: int, events: seq<Event>, c: CallerId, i: nat, j: nat, ts: TokenSet,
                           f: FlightId) {
    && GoesOnAt(s0, skew, events, c, i, j, Some(ts))
    && events[j].now >= ts.expiresAt - skew && ts.refresh.Some? && f == FlightOf(Run(s0, skew, events[..j]))
  }

  lemma {:induction false} WaitingSince(s0: State, skew: int, events: seq<Event>, c: CallerId)
    requires s0.callers == map[] && Waits(Run(s0, skew, events), c)
    ensures exists i: nat, j: nat, ts ::
      WaitsFor(s0, skew, events, c, i, j, ts, Run(s0, skew, events).callers[c].flight)
  {
    assert events != [];
    var n := |events| - 1;
    var s, t := Run(s0, skew, events[..n]), Run(s0, skew, events);
    assert t == Step(s, skew, events[n]);
    hide Run, Step;
    WaitStep(s, skew, events[n], c);
    if Waits(s, c) {
      WaitingSince(s0, skew, events[..n], c);
      var i: nat, j: nat, ts :| WaitsFor(s0, skew, events[..n], c, i, j, ts, s.callers[c].flight);
      GoesOnMore(s0, skew, events, n, c, i, j, Some(ts));
      assert WaitsFor(s0, skew, events, c, i, j, ts, t.callers[c].flight);
    } else {
      var i := GoesOnNow(s0, skew, events, c);
      assert WaitsFor(s0, skew, events, c, i, n, s.callers[c].current.value, t.callers[c].flight);
    }
  }

  /** What a caller is told that read `current`, goes on at `now`, and in case of a refresh waits for `f`. */
  predicate Answers(r: Result, current: Option<TokenSet>, now: int, skew: int, f: FlightId,
                    flights: map<FlightId, Flight>) {
    if current.None? then r == Nothing
    else if now < current.value.expiresAt - skew then r == Tokens(current.value)
    else if current.value.refresh.None? then r == Thrown
    else f in flights && flights[f] == Settled(r)
  }

  ghost predicate IsTold(s0: State, skew: int, events: seq<Event>, c: CallerId, i: nat, j: nat,
                         current: Option<TokenSet>, r: Result) {
    && GoesOnAt(s0, skew, events, c, i, j, current)
    && Answers(r, current, events[j].now, skew, FlightOf(Run(s0, skew, events[..j])), Run(s0, skew, events).flights)
  }

  /**
   In every run, what a caller has been told is `Nothing` exactly if the store was empty when it read
   it first, the set it read if that was fresh, `Thrown` if that was stale and without a refresh token,
   and otherwise the outcome of the refresh that was under way or that it started.
   */
  lemma {:induction false} EveryCallerIsTold(stored: Option<TokenSet>, issued: RefreshToken, skew: int,
                                             events: seq<Event>, c: CallerId)
    requires var s := Run(Initial(stored, issued), skew, events); c in s.callers && s.callers[c].Done?
    ensures exists i: nat, j: nat, current :: IsTold(Initial(stored, issued), skew, events, c, i, j, current,
                                                     Run(Initial(stored, issued), skew, events).callers[c].result)
  {
    var s0, n := Initial(stored, issued), |events| - 1;
    var s, t := Run(s0, skew, events[..n]), Run(s0, skew, events);
    SlotInvAlways(stored, issued, skew, events[..n]);
    assert s0.callers == map[] && t == Step(s, skew, events[n]);
    OutcomesStay(s, skew, events[n]);
    hide Run, Initial, Step, SlotInv, GoesOnAt, FlightOf;
    DoneStep(s, skew, events[n], c);
    var r := t.callers[c].result;
    if c in s.callers && s.callers[c].Done? {
      EveryCallerIsTold(stored, issued, skew, events[..n], c);
      var i: nat, j: nat, current :| IsTold(s0, skew, events[..n], c, i, j, current, r);
      StillTold(s0, skew, events, n, c, i, j, current, r);
    } else if events[n].Return? {
      WaitingSince(s0, skew, events[..n], c);
      var i: nat, j: nat, ts :| WaitsFor(s0, skew, events[..n], c, i, j, ts, s.callers[c].flight);
      GoesOnMore(s0, skew, events, n, c, i, j, Some(ts));
      assert IsTold(s0, skew, events, c, i, j, Some(ts), r);
    } else {
      var i := GoesOnNow(s0, skew, events, c);
      assert IsTold(s0, skew, events, c, i, n, s.callers[c].current, r);
    }
  }

  predicate OutcomesKept(before: map<FlightId, Flight>, after: map<FlightId, Flight>) {
    forall f :: f in before && before[f].Settled? ==> f in after && after[f] == before[f]
  }

  lemma StillAnswers(r: Result, current: Option<TokenSet>, now: int, skew: int, f: FlightId,
                     before: map<FlightId, Flight>, after: map<FlightId, Flight>)
    requires OutcomesKept(before, after) && Answers(r, current, now, skew, f, before)
    ensures Answers(r, current, now, skew, f, after)
  {
  }

  lemma StillTold(s0: State, skew: int, events: seq<Event>, n: nat, c: CallerId, i: nat, j: nat,
                  current: Option<TokenSet>, r: Result)
    requires n <= |events| && IsTold(s0, skew, events[..n], c, i, j, current, r)
    requires OutcomesKept(Run(s0, skew, events[..n]).flights, Run(s0, skew, events).flights)
    ensures IsTold(s0, skew, events, c, i, j, current, r)
  {
    hide Run, Step, ReadAt, FlightOf, Answers, OutcomesKept;
    GoesOnMore(s0, skew, events, n, c, i, j, current);
    assert events[..n][j] == events[j];
    StillAnswers(r, current, events[j].now, skew, FlightOf(Run(s0, skew, events[..j])),
                 Run(s0, skew, events[..n]).flights, Run(s0, skew, events).flights);
  }

  lemma DoneStep(s: State, skew: int, e: Event, c: CallerId)
    requires var t := Step(s, skew, e); c in t.callers && t.callers[c].Done?
    ensures var t := Step(s, skew, e);
      var r := t.callers[c].result;
      && c in s.callers
      && if s.callers[c].Done? then r == s.callers[c].result
         else if e.Return? then
           && t.flights == s.flights && Waits(s, c)
           && s.callers[c].flight in s.flights && s.flights[s.callers[c].flight] == Settled(r)
         else
           && e.Resume? && e.c == c && s.callers[c].HasRead?
           && var current := s.callers[c].current;
           if current.None? then r == Nothing
           else if e.now < current.value.expiresAt - skew then r == Tokens(current.value)
           else current.value.refresh.None? && r == Thrown
  {
  }

  lemma OutcomesStay(s: State, skew: int, e: Event)
    requires SlotInv(s)
    ensures OutcomesKept(s.flights, Step(s, skew, e).flights)
  {
    forall f | f in s.flights && s.flights[f].Settled?
      ensures f in Step(s, skew, e).flights && Step(s, skew, e).flights[f] == s.flights[f]
    {
      SettledStays(s, skew, e, f);
    }
  }

  /** Owner or not, a caller whose flight has settled is handed that outcome when it returns. */
  lemma WaitersGetTheOutcome(s: State, skew: int, c: CallerId, f: FlightId, r: Result)
    requires c in s.callers && s.callers[c] in {Owns(f), Joined(f)} && f in s.flights && s.flights[f] == Settled(r)
    ensures Step(s, skew, Return(c)).callers[c] == Done(r)
  {
  }

  // ----- how a refresh ends

  /** At event `k` flight `f` re-reads the store, which holds `latest`. */
  ghost predicate ReReadsAt(s0: State, skew: int, events: seq<Event>, f: FlightId, k: nat, latest: Option<TokenSet>) {
    k < |events| && events[k] == FlightReads(f) && Run(s0, skew, events[..k]).stored == latest
  }

  /** At event `k` the endpoint answers flight `f` with `tokens`, a new refresh token or the one that was sent. */
  ghost predicate AnsweredAt(s0: State, skew: int, events: seq<Event>, f: FlightId, k: nat, tokens: TokenSet) {
    && k < |events|
    && var s := Run(s0, skew, events[..k]);
    && f in s.flights && s.flights[f].Sent?
    && ((events[k] == EndpointRotates(f, tokens.expiresAt) && tokens.refresh == Some(s.issued))
        || (events[k] == EndpointKeeps(f, tokens.expiresAt) && tokens.refresh == Some(s.flights[f].token)))
  }

  /** A flight ends with a fresh set it found, with the answer it writes, or in failure. */
  predicate Ends(s: State, e: Event, stored: Option<TokenSet>, skew: int, f: FlightId, r: Result)
    requires f in s.flights
  {
    match s.flights[f]
    case Reread(fallback, latest) =>
      && e.FlightDecides? && e.f == f
      && var known := if latest.Some? then latest.value else fallback;
      e.now < known.expiresAt - skew && r == Tokens(known)
    case Writing(tokens, _) =>
      || (e == FlightWrites(f) && r == Tokens(tokens) && stored == Some(tokens))
      || (e == WriteFails(f) && r == Thrown)
    case Sent(_) => e.EndpointFails? && e.f == f && r == Thrown
    case _ => false
  }

  ghost predicate EndsAt(s0: State, skew: int, events: seq<Event>, f: FlightId, k: nat, r: Result) {
    && k < |events|
    && var s := Run(s0, skew, events[..k]);
    f in s.flights && Ends(s, events[k], Run(s0, skew, events[..k + 1]).stored, skew, f, r)
  }

  /** How a flight came to stand where it stands. */
  ghost predicate Explained(s0: State, skew: int, events: seq<Event>, f: FlightId, fl: Flight) {
    match fl
    case Rereading(_) => true
    case Reread(_, latest) => exists k: nat :: ReReadsAt(s0, skew, events, f, k, latest)
    case Sent(_) => true
    case Writing(tokens, _) => exists k: nat :: AnsweredAt(s0, skew, events, f, k, tokens)
    case Settled(r) => exists k: nat :: EndsAt(s0, skew, events, f, k, r)
  }

  lemma ExplainedMore(s0: State, skew: int, events: seq<Event>, n: nat, f: FlightId, fl: Flight)
    requires n <= |events| && Explained(s0, skew, events[..n], f, fl)
    ensures Explained(s0, skew, events, f, fl)
  {
    hide Run;
    match fl {
      case Reread(_, latest) =>
        var k: nat :| ReReadsAt(s0, skew, events[..n], f, k, latest);
        assert events[..n][..k] == events[..k];
        assert ReReadsAt(s0, skew, events, f, k, latest);
      case Writing(tokens, _) =>
        var k: nat :| AnsweredAt(s0, skew, events[..n], f, k, tokens);
        assert events[..n][..k] == events[..k];
        assert AnsweredAt(s0, skew, events, f, k, tokens);
      case Settled(r) =>
        var k: nat :| EndsAt(s0, skew, events[..n], f, k, r);
        assert events[..n][..k] == events[..k] && events[..n][..k + 1] == events[..k + 1];
        assert EndsAt(s0, skew, events, f, k, r);
      case _ =>
    }
  }

  /** The steps that bring a flight to where it stands. */
  lemma FlightStep(s: State, skew: int, e: Event, f: FlightId)
    requires var t := Step(s, skew, e);
      f in t.flights && (f in s.flights ==> f < s.started && s.flights[f] != t.flights[f])
    ensures var t := Step(s, skew, e);
      match t.flights[f]
      case Rereading(_) => true
      case Reread(_, latest) => e == FlightReads(f) && s.stored == latest
      case Sent(_) => true
      case Writing(tokens, _) =>
        && f in s.flights && s.flights[f].Sent?
        && ((e == EndpointRotates(f, tokens.expiresAt) && tokens.refresh == Some(s.issued))
            || (e == EndpointKeeps(f, tokens.expiresAt) && tokens.refresh == Some(s.flights[f].token)))
      case Settled(r) => f in s.flights && Ends(s, e, t.stored, skew, f, r)
  {
  }

  lemma ExplainedNow(s0: State, skew: int, events: seq<Event>, f: FlightId)
    requires events != []
    requires var s, t := Run(s0, skew, events[..|events| - 1]), Run(s0, skew, events);
      f in t.flights && (f !in s.flights || s.flights[f] != t.flights[f]) && (f in s.flights ==> f < s.started)
    ensures Explained(s0, skew, events, f, Run(s0, skew, events).flights[f])
  {
    var n := |events| - 1;
    var s, t := Run(s0, skew, events[..n]), Run(s0, skew, events);
    assert t == Step(s, skew, events[n]) && events[..n + 1] == events;
    hide Run, Ends;
    FlightStep(s, skew, events[n], f);
    hide Step;
    match t.flights[f] {
      case Reread(_, latest) => assert ReReadsAt(s0, skew, events, f, n, latest);
      case Writing(tokens, _) => assert AnsweredAt(s0, skew, events, f, n, tokens);
      case Settled(r) => assert EndsAt(s0, skew, events, f, n, r);
      case _ =>
    }
  }

  /**
   In every run: a flight that re-read holds what the store held then, one about to write holds the
   endpoint's answer, and a settled one ended with a set that was fresh, with the set it has just
   written, or in failure.
   */
  lemma {:induction false} EveryFlightIsExplained(stored: Option<TokenSet>, issued: RefreshToken, skew: int,
                                                  events: seq<Event>, f: FlightId)
    requires f in Run(Initial(stored, issued), skew, events).flights
    ensures Explained(Initial(stored, issued), skew, events, f, Run(Initial(stored, issued), skew, events).flights[f])
  {
    var s0 := Initial(stored, issued);
    assert events != [];
    var n := |events| - 1;
    var s, t := Run(s0, skew, events[..n]), Run(s0, skew, events);
    SlotInvAlways(stored, issued, skew, events[..n]);
    assert f in s.flights ==> f < s.started;
    hide Run, Initial, SlotInv, Explained;
    if f in s.flights && s.flights[f] == t.flights[f] {
      EveryFlightIsExplained(stored, issued, skew, events[..n], f);
      ExplainedMore(s0, skew, events, n, f, t.flights[f]);
    } else {
      ExplainedNow(s0, skew, events, f);
    }
  }

  // ----- no call is stuck

  /** How many steps of the call and its refresh are still to come, at most. */
  function StepsLeft(s: State, c: CallerId): nat
    requires c in s.callers
  {
    match s.callers[c]
    case Reading => 7
    case HasRead(_) => 6
    case Owns(f) => 1 + FlightLeft(s, f)
    case Joined(f) => 1 + FlightLeft(s, f)
    case Done(_) => 0
  }

  function FlightLeft(s: State, f: FlightId): nat {
    if f !in s.flights then 0
    else
      match s.flights[f]
      case Rereading(_) => 4
      case Reread(_, _) => 3
      case Sent(_) => 2
      case Writing(_, _) => 1
      case Settled(_) => 0
  }

  /** The next of them; an endpoint that does not answer has failed. */
  function NextStep(s: State, c: CallerId, now: int): Event
    requires c in s.callers
  {
    match s.callers[c]
    case Reading => Read(c)
    case HasRead(_) => Resume(c, now)
    case Owns(f) => NextOfFlight(s, c, f, now)
    case Joined(f) => NextOfFlight(s, c, f, now)
    case Done(_) => Return(c)
  }

  function NextOfFlight(s: State, c: CallerId, f: FlightId, now: int): Event {
    if f !in s.flights then Return(c)
    else
      match s.flights[f]
      case Rereading(_) => FlightReads(f)
      case Reread(_, _) => FlightDecides(f, now)
      case Sent(_) => EndpointFails(f, false)
      case Writing(_, _) => FlightWrites(f)
      case Settled(_) => Return(c)
  }

  lemma NextStepHelps(s: State, skew: int, c: CallerId, now: int)
    requires SlotInv(s) && c in s.callers && !s.callers[c].Done?
    ensures var t := Step(s, skew, NextStep(s, c, now)); c in t.callers && StepsLeft(t, c) < StepsLeft(s, c)
  {
    if Waits(s, c) && Active(s, s.callers[c].flight) {
      FlightHelps(s, skew, c, s.callers[c].flight, now);
    } else {
      assert s.callers[c].Owns? ==> s.callers[c].flight in s.flights;
      hide SlotInv, Decide;
    }
  }

  lemma FlightHelps(s: State, skew: int, c: CallerId, f: FlightId, now: int)
    requires Active(s, f)
    ensures var t := Step(s, skew, NextOfFlight(s, c, f, now));
      t.callers == s.callers && FlightLeft(t, f) < FlightLeft(s, f)
  {
  }

  lemma {:induction false} RunAfter(s: State, skew: int, e: Event, events: seq<Event>)
    ensures Run(s, skew, [e] + events) == Run(Step(s, skew, e), skew, events)
  {
    hide Step;
    if events == [] {
      assert [e] + events == [e] && [e][..0] == [];
    } else {
      var n := |events| - 1;
      RunAfter(s, skew, e, events[..n]);
      assert ([e] + events)[..n + 1] == [e] + events[..n];
    }
  }

  /** In every run each call can still be brought to its end, by at most seven steps of its own and its refresh. */
  lemma {:induction false} EveryCallCanEnd(s: State, skew: int, c: CallerId, now: int) returns (more: seq<Event>)
    requires SlotInv(s) && c in s.callers
    ensures |more| <= StepsLeft(s, c) <= 7
    ensures var t := Run(s, skew, more); c in t.callers && t.callers[c].Done?
    decreases StepsLeft(s, c)
  {
    if s.callers[c].Done? {
      more := [];
    } else {
      var e := NextStep(s, c, now);
      NextStepHelps(s, skew, c, now);
      SlotInvStep(s, skew, e);
      hide SlotInv, Step, NextStep;
      more := EveryCallCanEnd(Step(s, skew, e), skew, c, now);
      RunAfter(s, skew, e, more);
      more := [e] + more;
    }
  }
}
