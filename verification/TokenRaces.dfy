/**
 Several token stores over one secret store (packages/auth/src/store.ts, the note on
 `refreshInFlight`).

 Each instance joins its own refreshes only, so refreshes of different instances run side by side,
 each as a flight of `TokenRefresh` and none bound by a slot. A flight begins with its caller's
 first read; any time may pass before it re-reads. The note takes the re-read to make this safe.
 It does if no flight re-reads while another is between its own re-read and its end, and not in
 general.
 */
module TokenRaces {
  import opened Options
  import opened TokenRefresh

  /** A flight begins, or something that needs no caller happens. */
  datatype RaceEvent = Begins(f: FlightId, now: int) | Goes(e: Event)

  predicate OfCaller(e: Event) {
    e.Call? || e.Read? || e.Resume? || e.Return?
  }

  function RaceStep(s: State, skew: int, e: RaceEvent): State {
    match e
    case Begins(f, now) =>
      if f !in s.flights && Refreshable(s.stored) && NeedsRefresh(s.stored.value, now, skew)
      then s.(flights := s.flights[f := Rereading(s.stored.value)]) else s
    case Goes(e) => if OfCaller(e) then s else Step(s, skew, e)
  }

  function RaceRun(s: State, skew: int, events: seq<RaceEvent>): State {
    if events == [] then s else RaceStep(RaceRun(s, skew, events[..|events| - 1]), skew, events[|events| - 1])
  }

  /** Between its re-read and its end. */
  predicate UnderWay(fl: Flight) {
    fl.Reread? || fl.Sent? || fl.Writing?
  }

  predicate Alone(s: State, f: FlightId) {
    forall g :: g in s.flights && g != f ==> !UnderWay(s.flights[g])
  }

  /** Whenever a flight re-reads, no other one is under way. */
  ghost predicate Separate(s: State, skew: int, events: seq<RaceEvent>) {
    forall k :: 0 <= k < |events| && events[k].Goes? && events[k].e.FlightReads? ==>
      Alone(RaceRun(s, skew, events[..k]), events[k].e.f)
  }

  ghost predicate Written(s: State, token: RefreshToken) {
    exists f :: f in s.flights && s.flights[f].Writing? && s.flights[f].spent == Some(token)
  }

  predicate FlightIsFresh(s: State, fl: Flight) {
    match fl
    case Rereading(_) => Refreshable(s.stored)
    case Reread(_, latest) => Refreshable(latest) && Issued(s, latest.value)
      && latest.value.refresh.value !in s.consumed
    case Sent(token) => token < s.issued
    case Writing(tokens, _) => Issued(s, tokens) && tokens.refresh.value !in s.consumed
    case Settled(_) => true
  }

  /** With at most one flight under way, the stored token is unspent but for one whose successor is being written. */
  ghost predicate RaceInv(s: State) {
    && !s.replayed
    && s.consumed <= s.dead && (forall t :: t in s.dead ==> t < s.issued)
    && (forall f, g :: f in s.flights && g in s.flights && UnderWay(s.flights[f]) && UnderWay(s.flights[g]) ==> f == g)
    && (forall f :: f in s.flights ==> FlightIsFresh(s, s.flights[f]))
    && (Refreshable(s.stored) ==>
          && Issued(s, s.stored.value)
          && (s.stored.value.refresh.value in s.consumed ==> Written(s, s.stored.value.refresh.value)))
  }

  lemma RaceInvStep(s: State, skew: int, e: RaceEvent)
    requires RaceInv(s) && (e.Goes? ==> Undisturbed(e.e))
    requires e.Goes? && e.e.FlightReads? ==> Alone(s, e.e.f)
    ensures RaceInv(RaceStep(s, skew, e))
  {
    if RaceStep(s, skew, e) != s {
      match e {
        case Begins(f, _) => FlightMoves(s, f, Rereading(s.stored.value));
        case Goes(Login(_, _)) =>
        case Goes(FlightReads(f)) =>
          assert FlightIsFresh(s, s.flights[f]);
          FlightMoves(s, f, Reread(s.flights[f].fallback, s.stored));
        case Goes(FlightDecides(f, _)) =>
          assert FlightIsFresh(s, s.flights[f]);
          FlightMoves(s, f, RaceStep(s, skew, e).flights[f]);
        case Goes(EndpointFails(f, _)) => FlightMoves(s, f, Settled(Thrown));
        case Goes(x) => Answered(s, skew, x);
      }
    }
  }

  /** A flight moves on without an answer; unless it alone is under way it was so already. */
  lemma FlightMoves(s: State, f: FlightId, fl: Flight)
    requires RaceInv(s) && FlightIsFresh(s, fl) && !fl.Writing? && (f in s.flights ==> !s.flights[f].Writing?)
    requires UnderWay(fl) ==> Alone(s, f)
    ensures RaceInv(s.(flights := s.flights[f := fl]))
  {
    var s' := s.(flights := s.flights[f := fl]);
    if Refreshable(s.stored) && s.stored.value.refresh.value in s.consumed {
      var g :| g in s.flights && s.flights[g].Writing? && s.flights[g].spent == Some(s.stored.value.refresh.value);
      assert s'.flights[g] == s.flights[g];
    }
  }

  lemma Answered(s: State, skew: int, e: Event)
    requires RaceInv(s) && (e.EndpointRotates? || e.EndpointKeeps? || e.FlightWrites?)
    ensures RaceInv(Step(s, skew, e))
  {
    var s' := Step(s, skew, e);
    if s' != s {
      assert UnderWay(s.flights[e.f]) && FlightIsFresh(s, s.flights[e.f]);
      if e.EndpointRotates? {
        assert s'.flights[e.f].spent == Some(s.flights[e.f].token);
      }
    }
  }

  lemma {:induction false} SeparateKeepsInv(stored: Option<TokenSet>, issued: RefreshToken, skew: int,
                                            events: seq<RaceEvent>)
    requires Honoured(stored, issued) && Separate(Initial(stored, issued), skew, events)
    requires forall i :: 0 <= i < |events| && events[i].Goes? ==> Undisturbed(events[i].e)
    ensures RaceInv(RaceRun(Initial(stored, issued), skew, events))
  {
    if events != [] {
      var front := events[..|events| - 1];
      forall k | 0 <= k < |front|
        ensures front[..k] == events[..k]
      {
      }
      hide RaceInv, RaceStep, Alone;
      SeparateKeepsInv(stored, issued, skew, front);
      RaceInvStep(RaceRun(Initial(stored, issued), skew, front), skew, events[|events| - 1]);
    }
  }

  /**
   Instances whose refreshes never overlap from re-read to end send no consumed token again, wherever
   their first reads lie.
   */
  lemma SeparateNeverReplays(stored: Option<TokenSet>, issued: RefreshToken, skew: int, events: seq<RaceEvent>)
    requires Honoured(stored, issued) && Separate(Initial(stored, issued), skew, events)
    requires forall i :: 0 <= i < |events| && events[i].Goes? ==> Undisturbed(events[i].e)
    ensures !RaceRun(Initial(stored, issued), skew, events).replayed
  {
    SeparateKeepsInv(stored, issued, skew, events);
    hide RaceRun, Separate;
  }

  lemma RaceOn(s: State, skew: int, events: seq<RaceEvent>, e: RaceEvent)
    ensures RaceRun(s, skew, events + [e]) == RaceStep(RaceRun(s, skew, events), skew, e)
  {
    assert (events + [e])[..|events|] == events;
  }

  lemma RaceTwo(s: State, skew: int, events: seq<RaceEvent>, e1: RaceEvent, e2: RaceEvent)
    ensures RaceRun(s, skew, events + [e1, e2]) == RaceStep(RaceStep(RaceRun(s, skew, events), skew, e1), skew, e2)
  {
    hide RaceRun, RaceStep;
    RaceOn(s, skew, events, e1);
    RaceOn(s, skew, events + [e1], e2);
    assert events + [e1, e2] == events + [e1] + [e2];
  }

  /** Whenever a flight re-reads while another has sent the stored token, that token may be sent again. */
  lemma OverlapLetsReplay(s0: State, skew: int, events: seq<RaceEvent>, f: FlightId, g: FlightId, now: int,
                          expiresAt: int)
    requires var s := RaceRun(s0, skew, events);
      && f in s.flights && s.flights[f].Sent? && s.flights[f].token !in s.dead
      && g in s.flights && s.flights[g].Rereading?
      && s.stored.Some? && s.stored.value.refresh == Some(s.flights[f].token) && NeedsRefresh(s.stored.value, now, skew)
    ensures RaceRun(s0, skew, events + [Goes(FlightReads(g)), Goes(EndpointRotates(f, expiresAt))]
                              + [Goes(FlightDecides(g, now))]).replayed
  {
    RaceTwo(s0, skew, events, Goes(FlightReads(g)), Goes(EndpointRotates(f, expiresAt)));
    RaceOn(s0, skew, events + [Goes(FlightReads(g)), Goes(EndpointRotates(f, expiresAt))], Goes(FlightDecides(g, now)));
    hide RaceRun;
  }

  /**
   Two instances that refresh one stale set send its token twice, although both re-read it and nothing
   disturbs them.
   */
  lemma TwoInstancesReplay()
    ensures RaceRun(Stale(), 0, [Begins(0, 0), Begins(1, 0)] + [Goes(FlightReads(0)), Goes(FlightDecides(0, 0))]
                                + [Goes(FlightReads(1)), Goes(EndpointRotates(0, 100))]
                                + [Goes(FlightDecides(1, 0))]).replayed
  {
    RaceTwo(Stale(), 0, [], Begins(0, 0), Begins(1, 0));
    RaceTwo(Stale(), 0, [Begins(0, 0), Begins(1, 0)], Goes(FlightReads(0)), Goes(FlightDecides(0, 0)));
    assert RaceRun(Stale(), 0, []) == Stale() && [] + [Begins(0, 0), Begins(1, 0)] == [Begins(0, 0), Begins(1, 0)];
    hide RaceRun;
    OverlapLetsReplay(Stale(), 0, [Begins(0, 0), Begins(1, 0)] + [Goes(FlightReads(0)), Goes(FlightDecides(0, 0))],
                      0, 1, 0, 100);
  }
}
