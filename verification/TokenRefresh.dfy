/**
 Single-flight token refresh (packages/auth/src/store.ts, `getFresh`), for refresh as in
 section 6 of RFC 6749.

 Any number of callers run `getFresh` for one provider on one store instance. Between two awaits
 JavaScript runs without interruption, so one event below is one such stretch, and a run is any
 sequence of events: an event that is not enabled leaves the state as it is. The token endpoint
 may rotate the refresh token, keep it, refuse, or rotate it and lose the answer.
 */
module TokenRefresh {
  import opened Options

  type RefreshToken = nat
  type CallerId = nat
  type FlightId = nat

  datatype TokenSet = TokenSet(refresh: Option<RefreshToken>, expiresAt: int)

  predicate NeedsRefresh(ts: TokenSet, now: int, skew: int) {
    now >= ts.expiresAt - skew
  }

  datatype Result = Nothing | Tokens(tokens: TokenSet) | Thrown

  /** Where a `getFresh` call stands. */
  datatype Caller =
    | Reading
    | HasRead(current: Option<TokenSet>)
    | Owns(flight: FlightId)
    | Joined(flight: FlightId)
    | Done(result: Result)

  /**
   Where the refresh closure of a call stands; `fallback` is what that call had read, `spent` the
   refresh token that the answer now being written has consumed.
   */
  datatype Flight =
    | Rereading(fallback: TokenSet)
    | Reread(fallback: TokenSet, latest: Option<TokenSet>)
    | Sent(token: RefreshToken)
    | Writing(tokens: TokenSet, spent: Option<RefreshToken>)
    | Settled(result: Result)

  datatype State = State(
    stored: Option<TokenSet>,
    slot: Option<FlightId>,         // the provider's entry in `refreshInFlight`
    callers: map<CallerId, Caller>,
    flights: map<FlightId, Flight>,
    started: FlightId,              // flights are numbered in the order they start
    issued: RefreshToken,           // the endpoint has issued the refresh tokens below this one
    dead: set<RefreshToken>,        // refresh tokens the endpoint no longer honours
    consumed: set<RefreshToken>,    // those consumed by a refresh whose answer arrived
    lost: set<RefreshToken>,        // those of them whose successor could not be written
    replayed: bool)                 // a consumed refresh token was sent again

  datatype Event =
    | Call(c: CallerId)
    | Read(c: CallerId)
    | Resume(c: CallerId, now: int)
    | FlightReads(f: FlightId)
    | FlightDecides(f: FlightId, now: int)
    | EndpointRotates(f: FlightId, expiresAt: int)
    | EndpointKeeps(f: FlightId, expiresAt: int)
    | EndpointFails(f: FlightId, answerLost: bool)
    | FlightWrites(f: FlightId)
    | Return(c: CallerId)
    // from outside `getFresh`
    | WriteFails(f: FlightId)
    | Clear
    | Login(withRefreshToken: bool, expiresAt: int)

  function Step(s: State, skew: int, e: Event): State {
    match e
    case Call(c) =>
      if c in s.callers then s else s.(callers := s.callers[c := Reading])
    case Read(c) =>
      if c in s.callers && s.callers[c].Reading? then s.(callers := s.callers[c := HasRead(s.stored)]) else s
    case Resume(c, now) =>
      if c in s.callers && s.callers[c].HasRead? then ResumeCaller(s, skew, c, s.callers[c].current, now) else s
    case FlightReads(f) =>
      if f in s.flights && s.flights[f].Rereading?
      then s.(flights := s.flights[f := Reread(s.flights[f].fallback, s.stored)]) else s
    case FlightDecides(f, now) =>
      if f in s.flights && s.flights[f].Reread?
      then Decide(s, skew, f, s.flights[f].fallback, s.flights[f].latest, now) else s
    case EndpointRotates(f, expiresAt) =>
      if f in s.flights && s.flights[f].Sent? && s.flights[f].token !in s.dead then
        s.(flights := s.flights[f := Writing(TokenSet(Some(s.issued), expiresAt), Some(s.flights[f].token))],
           issued := s.issued + 1, dead := s.dead + {s.flights[f].token}, consumed := s.consumed + {s.flights[f].token})
      else s
    case EndpointKeeps(f, expiresAt) =>
      // the answer carries no refresh token, so the old one is carried forward
      if f in s.flights && s.flights[f].Sent? && s.flights[f].token !in s.dead then
        s.(flights := s.flights[f := Writing(TokenSet(Some(s.flights[f].token), expiresAt), None)])
      else s
    case EndpointFails(f, answerLost) =>
      if f in s.flights && s.flights[f].Sent? then
        s.(flights := s.flights[f := Settled(Thrown)],
           dead := if answerLost then s.dead + {s.flights[f].token} else s.dead)
      else s
    case FlightWrites(f) =>
      if f in s.flights && s.flights[f].Writing? then
        s.(stored := Some(s.flights[f].tokens), flights := s.flights[f := Settled(Tokens(s.flights[f].tokens))])
      else s
    case WriteFails(f) =>
      if f in s.flights && s.flights[f].Writing? then
        s.(flights := s.flights[f := Settled(Thrown)],
           lost := if s.flights[f].spent.Some? then s.lost + {s.flights[f].spent.value} else s.lost)
      else s
    case Return(c) =>
      if c in s.callers && Awaited(s, c).Some? then
        s.(callers := s.callers[c := Done(Awaited(s, c).value)], slot := if s.callers[c].Owns? then None else s.slot)
      else s
    case Clear => s.(stored := None)
    case Login(withRefreshToken, expiresAt) =>
      s.(stored := Some(TokenSet(if withRefreshToken then Some(s.issued) else None, expiresAt)), issued := s.issued + 1)
  }

  /** The rest of `getFresh` after its first read, up to its next await. */
  function ResumeCaller(s: State, skew: int, c: CallerId, current: Option<TokenSet>, now: int): State {
    if current.None? then s.(callers := s.callers[c := Done(Nothing)])
    else if !NeedsRefresh(current.value, now, skew) then s.(callers := s.callers[c := Done(Tokens(current.value))])
    else if current.value.refresh.None? then s.(callers := s.callers[c := Done(Thrown)])
    else if s.slot.Some? then s.(callers := s.callers[c := Joined(s.slot.value)])
    else
      var f := s.started;
      s.(callers := s.callers[c := Owns(f)], flights := s.flights[f := Rereading(current.value)],
         slot := Some(f), started := f + 1)
  }

  /** The refresh closure after its re-read, up to its next await. */
  function Decide(s: State, skew: int, f: FlightId, fallback: TokenSet, latest: Option<TokenSet>, now: int): State {
    var known := if latest.Some? then latest.value else fallback;
    if !NeedsRefresh(known, now, skew) then s.(flights := s.flights[f := Settled(Tokens(known))])
    else
      var token := if known.refresh.Some? then known.refresh.value
                   else if fallback.refresh.Some? then fallback.refresh.value else 0;
      s.(flights := s.flights[f := Sent(token)], replayed := s.replayed || token in s.consumed)
  }

  /** What the promise a caller waits for has settled to. */
  function Awaited(s: State, c: CallerId): Option<Result>
    requires c in s.callers
  {
    match s.callers[c]
    case Owns(f) => if f in s.flights && s.flights[f].Settled? then Some(s.flights[f].result) else None
    case Joined(f) => if f in s.flights && s.flights[f].Settled? then Some(s.flights[f].result) else None
    case _ => None
  }

  function Run(s: State, skew: int, events: seq<Event>): State {
    if events == [] then s else Step(Run(s, skew, events[..|events| - 1]), skew, events[|events| - 1])
  }

  /** One stored token set, whose refresh token (if any) the endpoint still honours; nobody has called yet. */
  function Initial(stored: Option<TokenSet>, issued: RefreshToken): State {
    State(stored, None, map[], map[], 0, issued, {}, {}, {}, false)
  }

  predicate Honoured(stored: Option<TokenSet>, issued: RefreshToken) {
    stored.Some? && stored.value.refresh.Some? ==> stored.value.refresh.value < issued
  }

  // ----- what holds in every run

  predicate Active(s: State, f: FlightId) {
    f in s.flights && !s.flights[f].Settled?
  }

  /** The slot holds the one flight whose owner has not returned; every other flight has settled. */
  ghost predicate SlotInv(s: State) {
    && (forall f: nat :: f in s.flights <==> f < s.started)
    && (forall f: nat :: Active(s, f) ==> s.slot == Some(f))
    && (s.slot.Some? ==> s.slot.value in s.flights && exists c :: c in s.callers && s.callers[c] == Owns(s.slot.value))
    && (forall c :: c in s.callers && s.callers[c].Owns? ==> s.slot == Some(s.callers[c].flight))
    && (forall c, d :: c in s.callers && d in s.callers && s.callers[c].Owns? && s.callers[d].Owns? ==> c == d)
    && (forall c :: c in s.callers && s.callers[c].Joined? ==> s.callers[c].flight in s.flights)
  }

  lemma SlotInvStep(s: State, skew: int, e: Event)
    requires SlotInv(s)
    ensures SlotInv(Step(s, skew, e))
  {
    match e {
      case Resume(c, now) => SlotInvResume(s, skew, c, now);
      case Return(c) => SlotInvReturn(s, skew, c);
      case Call(c) => CallerMoves(s, c, Step(s, skew, e));
      case Read(c) => CallerMoves(s, c, Step(s, skew, e));
      case Clear =>
      case Login(_, _) =>
      case _ => FlightMoves(s, e.f, Step(s, skew, e));
    }
  }

  lemma SlotInvResume(s: State, skew: int, c: CallerId, now: int)
    requires SlotInv(s)
    ensures SlotInv(Step(s, skew, Resume(c, now)))
  {
    var s' := Step(s, skew, Resume(c, now));
    if s'.started == s.started {
      CallerMoves(s, c, s');
    } else {
      FlightStarts(s, c, s.callers[c].current.value);
    }
  }

  lemma FlightStarts(s: State, c: CallerId, current: TokenSet)
    requires SlotInv(s) && s.slot.None? && c in s.callers && !s.callers[c].Joined?
    ensures SlotInv(s.(callers := s.callers[c := Owns(s.started)],
                       flights := s.flights[s.started := Rereading(current)],
                       slot := Some(s.started), started := s.started + 1))
  {
    var s' := s.(callers := s.callers[c := Owns(s.started)], flights := s.flights[s.started := Rereading(current)],
                 slot := Some(s.started), started := s.started + 1);
    assert s'.callers[c] == Owns(s.started);
    forall g: nat | Active(s', g)
      ensures s'.slot == Some(g)
    {
      assert g != s.started ==> Active(s, g);
    }
  }

  lemma SlotInvReturn(s: State, skew: int, c: CallerId)
    requires SlotInv(s)
    ensures SlotInv(Step(s, skew, Return(c)))
  {
    var s' := Step(s, skew, Return(c));
    if s'.slot.Some? && s' != s {
      var d :| d in s.callers && s.callers[d] == Owns(s.slot.value);
      assert s'.callers[d] == s.callers[d];
    }
  }

  /** A caller that was not waiting for a flight moves on; at most it joins one. */
  lemma CallerMoves(s: State, c: CallerId, s': State)
    requires SlotInv(s)
    requires s' == s || (c in s'.callers && s' == s.(callers := s.callers[c := s'.callers[c]])
                         && (c in s.callers ==> !s.callers[c].Owns?)
                         && !s'.callers[c].Owns? && (s'.callers[c].Joined? ==> s'.callers[c].flight in s.flights))
    ensures SlotInv(s')
  {
    if s.slot.Some? && s' != s {
      var d :| d in s.callers && s.callers[d] == Owns(s.slot.value);
      assert s'.callers[d] == s.callers[d];
    }
    forall g: nat | Active(s', g)
      ensures s'.slot == Some(g)
    {
      assert Active(s, g);
    }
  }

  /** An active flight moves on; the slot and the callers stay. */
  lemma FlightMoves(s: State, f: FlightId, s': State)
    requires SlotInv(s)
    requires s' == s || (Active(s, f) && f in s'.flights && s'.flights == s.flights[f := s'.flights[f]]
                         && s'.slot == s.slot && s'.callers == s.callers && s'.started == s.started)
    ensures SlotInv(s')
  {
    if s.slot.Some? {
      var d :| d in s.callers && s.callers[d] == Owns(s.slot.value);
      assert s'.callers[d] == s.callers[d];
    }
    forall g: nat | Active(s', g)
      ensures s'.slot == Some(g)
    {
      assert Active(s, g);
    }
  }

  lemma {:induction false} SlotInvAlways(stored: Option<TokenSet>, issued: RefreshToken, skew: int, events: seq<Event>)
    ensures SlotInv(Run(Initial(stored, issued), skew, events))
  {
    if events != [] {
      SlotInvAlways(stored, issued, skew, events[..|events| - 1]);
      SlotInvStep(Run(Initial(stored, issued), skew, events[..|events| - 1]), skew, events[|events| - 1]);
    }
  }

  /** In every run at most one refresh is under way. */
  lemma AtMostOneRefresh(stored: Option<TokenSet>, issued: RefreshToken, skew: int, events: seq<Event>, f: FlightId,
                         g: FlightId)
    requires Active(Run(Initial(stored, issued), skew, events), f)
      && Active(Run(Initial(stored, issued), skew, events), g)
    ensures f == g
  {
    SlotInvAlways(stored, issued, skew, events);
  }

  /** In every run a map entry disappears only when the caller that installed it returns. */
  lemma OnlyTheInstallerRemoves(stored: Option<TokenSet>, issued: RefreshToken, skew: int, events: seq<Event>, e: Event)
    requires var s := Run(Initial(stored, issued), skew, events);
      s.slot.Some? && Step(s, skew, e).slot != s.slot
    ensures var s := Run(Initial(stored, issued), skew, events);
      Step(s, skew, e).slot.None? && e.Return? && e.c in s.callers && s.callers[e.c] == Owns(s.slot.value)
  {
    SlotInvAlways(stored, issued, skew, events);
  }

  /** Once a flight has settled, well or badly, its owner's return frees the slot and hands the outcome on. */
  lemma SettledFlightFreesSlot(stored: Option<TokenSet>, issued: RefreshToken, skew: int, events: seq<Event>)
    requires var s := Run(Initial(stored, issued), skew, events); s.slot.Some? && !Active(s, s.slot.value)
    ensures var s := Run(Initial(stored, issued), skew, events);
      exists c :: c in s.callers && s.callers[c] == Owns(s.slot.value)
        && Step(s, skew, Return(c)).slot.None?
        && Step(s, skew, Return(c)).callers[c] == Done(s.flights[s.slot.value].result)
  {
    SlotInvAlways(stored, issued, skew, events);
  }

  lemma {:induction false} SettledNeverChanges(s: State, skew: int, events: seq<Event>, f: FlightId)
    requires f in s.flights && s.flights[f].Settled? && f < s.started
    ensures f in Run(s, skew, events).flights && Run(s, skew, events).flights[f] == s.flights[f]
    ensures Run(s, skew, events).started >= s.started
  {
    if events != [] {
      SettledNeverChanges(s, skew, events[..|events| - 1], f);
      SettledStays(Run(s, skew, events[..|events| - 1]), skew, events[|events| - 1], f);
    }
  }

  lemma SettledStays(s: State, skew: int, e: Event, f: FlightId)
    requires f in s.flights && s.flights[f].Settled? && f < s.started
    ensures f in Step(s, skew, e).flights && Step(s, skew, e).flights[f] == s.flights[f]
    ensures Step(s, skew, e).started >= s.started
  {
  }

  // ----- exactly when a consumed refresh token is sent again

  predicate Refreshable(ts: Option<TokenSet>) {
    ts.Some? && ts.value.refresh.Some?
  }

  /** The set carries a refresh token the endpoint has issued. */
  predicate Issued(s: State, ts: TokenSet) {
    ts.refresh.Some? && ts.refresh.value < s.issued
  }

  /** If the token was consumed, its successor could not be written. */
  predicate FreshOrLost(s: State, ts: TokenSet) {
    Issued(s, ts) && (ts.refresh.value in s.consumed ==> ts.refresh.value in s.lost)
  }

  predicate FlightBooks(s: State, fl: Flight) {
    match fl
    case Rereading(fallback) => Issued(s, fallback)
    case Reread(fallback, latest) => Issued(s, fallback) && (Refreshable(latest) ==> FreshOrLost(s, latest.value))
    case Sent(token) => token < s.issued
    case Writing(tokens, spent) => Issued(s, tokens) && tokens.refresh.value !in s.consumed
    case Settled(_) => true
  }

  /** A flight has consumed the token and is about to write its successor. */
  ghost predicate BeingReplaced(s: State, token: RefreshToken) {
    s.slot.Some? && s.slot.value in s.flights && s.flights[s.slot.value].Writing?
    && s.flights[s.slot.value].spent == Some(token)
  }

  ghost predicate StoredBooks(s: State) {
    Refreshable(s.stored) ==>
      Issued(s, s.stored.value) && (FreshOrLost(s, s.stored.value) || BeingReplaced(s, s.stored.value.refresh.value))
  }

  predicate CallerBooks(s: State, c: Caller) {
    c.HasRead? && Refreshable(c.current) ==> Issued(s, c.current.value)
  }

  /** What every run keeps about tokens, whatever happens outside `getFresh`. */
  ghost predicate Books(s: State) {
    && s.consumed <= s.dead && (forall t :: t in s.dead ==> t < s.issued)
    && StoredBooks(s)
    && (forall f :: f in s.flights ==> FlightBooks(s, s.flights[f]))
    && (forall c :: c in s.callers ==> CallerBooks(s, s.callers[c]))
  }

  lemma BooksStep(s: State, skew: int, e: Event)
    requires SlotInv(s) && Books(s)
    ensures Books(Step(s, skew, e))
  {
    match e {
      case Call(c) => CallerFrame(s, c, Reading);
      case Read(c) => CallerFrame(s, c, HasRead(s.stored));
      case Resume(c, now) => BooksResume(s, skew, c, now);
      case Return(c) => BooksReturn(s, skew, c);
      case Clear => BooksOutside(s, skew, e);
      case Login(_, _) => BooksOutside(s, skew, e);
      case FlightReads(f) => BooksReading(s, skew, f);
      case FlightDecides(f, now) => BooksDeciding(s, skew, f, now);
      case _ => BooksAnswered(s, skew, e);
    }
  }

  /** A caller moves on without starting a flight. */
  lemma CallerFrame(s: State, c: CallerId, x: Caller)
    requires Books(s)
    ensures CallerBooks(s, x) ==> Books(s.(callers := s.callers[c := x]))
    ensures x.HasRead? && x.current == s.stored ==> CallerBooks(s, x)
    ensures !x.HasRead? ==> CallerBooks(s, x)
  {
  }

  lemma BooksResume(s: State, skew: int, c: CallerId, now: int)
    requires SlotInv(s) && Books(s)
    ensures Books(Step(s, skew, Resume(c, now)))
  {
    var s' := Step(s, skew, Resume(c, now));
    if s' == s {
    } else if s'.started == s.started {
      CallerFrame(s, c, s'.callers[c]);
    } else {
      assert CallerBooks(s, s.callers[c]);
      BooksStart(s, c, s.callers[c].current.value);
    }
  }

  /** A new flight goes by an issued token, and none is under way. */
  lemma BooksStart(s: State, c: CallerId, current: TokenSet)
    requires Books(s) && s.slot.None? && Issued(s, current)
    ensures Books(s.(callers := s.callers[c := Owns(s.started)], flights := s.flights[s.started := Rereading(current)],
                     slot := Some(s.started), started := s.started + 1))
  {
  }

  /** A flight that is about to write has not settled, so its owner is not the one that returns. */
  lemma BooksReturn(s: State, skew: int, c: CallerId)
    requires SlotInv(s) && Books(s)
    ensures Books(Step(s, skew, Return(c)))
  {
    var s' := Step(s, skew, Return(c));
    if s' != s {
      CallerFrame(s, c, s'.callers[c]);
      var t := s.(callers := s.callers[c := s'.callers[c]]);
      assert s' == t.(slot := s'.slot);
      assert s'.slot != s.slot ==> s.slot.value in s.flights && s.flights[s.slot.value].Settled?;
      hide SlotInv, Step;
    }
  }

  lemma BooksOutside(s: State, skew: int, e: Event)
    requires Books(s) && (e.Clear? || e.Login?)
    ensures Books(Step(s, skew, e))
  {
    hide SlotInv;
  }

  /** A flight that has not been answered moves on without being answered. */
  lemma FlightFrame(s: State, f: FlightId, fl: Flight, replayed: bool)
    requires Books(s) && f in s.flights && !s.flights[f].Writing?
    ensures FlightBooks(s, fl) ==> Books(s.(flights := s.flights[f := fl], replayed := replayed))
  {
  }

  /** A flight that re-reads cannot be about to write, so what it reads is usable unless a write was lost. */
  lemma BooksReading(s: State, skew: int, f: FlightId)
    requires SlotInv(s) && Books(s)
    ensures Books(Step(s, skew, FlightReads(f)))
  {
    var s' := Step(s, skew, FlightReads(f));
    if s' != s {
      assert Active(s, f) && FlightBooks(s, s.flights[f]);
      hide SlotInv, Books;
      FlightFrame(s, f, s'.flights[f], s.replayed);
      StoredMayBeRead(s, f);
    }
  }

  lemma StoredMayBeRead(s: State, f: FlightId)
    requires Books(s) && s.slot == Some(f) && f in s.flights && !s.flights[f].Writing?
    ensures Refreshable(s.stored) ==> FreshOrLost(s, s.stored.value)
  {
  }

  lemma BooksDeciding(s: State, skew: int, f: FlightId, now: int)
    requires Books(s)
    ensures Books(Step(s, skew, FlightDecides(f, now)))
  {
    var s' := Step(s, skew, FlightDecides(f, now));
    if s' != s {
      assert FlightBooks(s, s.flights[f]);
      hide Books;
      FlightFrame(s, f, s'.flights[f], s'.replayed);
    }
  }

  lemma BooksAnswered(s: State, skew: int, e: Event)
    requires SlotInv(s) && Books(s)
    requires e.EndpointRotates? || e.EndpointKeeps? || e.EndpointFails? || e.FlightWrites? || e.WriteFails?
    ensures Books(Step(s, skew, e))
  {
    var s' := Step(s, skew, e);
    if s' != s {
      assert Active(s, e.f) && FlightBooks(s, s.flights[e.f]);
      forall f | f in s'.flights
        ensures FlightBooks(s', s'.flights[f])
      {
        assert f != e.f ==> !Active(s, f);
      }
      forall c | c in s'.callers
        ensures CallerBooks(s', s'.callers[c])
      {
        assert CallerBooks(s, s.callers[c]);
      }
    }
    hide SlotInv;
  }

  lemma {:induction false} BooksAlways(stored: Option<TokenSet>, issued: RefreshToken, skew: int, events: seq<Event>)
    requires Honoured(stored, issued)
    ensures Books(Run(Initial(stored, issued), skew, events))
  {
    if events != [] {
      BooksAlways(stored, issued, skew, events[..|events| - 1]);
      SlotInvAlways(stored, issued, skew, events[..|events| - 1]);
      BooksStep(Run(Initial(stored, issued), skew, events[..|events| - 1]), skew, events[|events| - 1]);
    }
  }

  /**
   The step sends a consumed refresh token: the set it goes by needs a refresh, and the token is lost or
   the fallback's.
   */
  predicate Replays(s: State, skew: int, e: Event) {
    && e.FlightDecides? && e.f in s.flights && s.flights[e.f].Reread?
    && var fallback, latest := s.flights[e.f].fallback, s.flights[e.f].latest;
    && NeedsRefresh(if latest.Some? then latest.value else fallback, e.now, skew)
    && if Refreshable(latest) then latest.value.refresh.value in s.lost
       else fallback.refresh.Some? && fallback.refresh.value in s.consumed
  }

  lemma ReplaysIff(s: State, skew: int, e: Event)
    requires Books(s) && s.lost <= s.consumed
    ensures Step(s, skew, e).replayed <==> s.replayed || Replays(s, skew, e)
  {
    if e.FlightDecides? && e.f in s.flights && s.flights[e.f].Reread? {
      assert FlightBooks(s, s.flights[e.f]);
    }
  }

  /** A token is lost only if it was consumed. */
  ghost predicate LostWereConsumed(s: State) {
    && s.lost <= s.consumed
    && forall f :: f in s.flights && s.flights[f].Writing? && s.flights[f].spent.Some? ==>
         s.flights[f].spent.value in s.consumed
  }

  lemma {:induction false} LostAlways(stored: Option<TokenSet>, issued: RefreshToken, skew: int, events: seq<Event>)
    ensures LostWereConsumed(Run(Initial(stored, issued), skew, events))
  {
    if events != [] {
      LostAlways(stored, issued, skew, events[..|events| - 1]);
      LostStep(Run(Initial(stored, issued), skew, events[..|events| - 1]), skew, events[|events| - 1]);
    }
  }

  lemma LostStep(s: State, skew: int, e: Event)
    requires LostWereConsumed(s)
    ensures LostWereConsumed(Step(s, skew, e))
  {
  }

  // ----- what happened since the first read

  /** The `i`-th event of a run is the first read of caller `c`, and what it reads is `current`. */
  ghost predicate ReadAt(s0: State, skew: int, events: seq<Event>, i: nat, c: CallerId,
                         current: Option<TokenSet>) {
    && i < |events| && events[i] == Read(c)
    && var s := Run(s0, skew, events[..i]);
    && c in s.callers && s.callers[c].Reading? && s.stored == current
  }

  lemma ReadAtMore(s0: State, skew: int, events: seq<Event>, n: nat, i: nat, c: CallerId,
                   current: Option<TokenSet>)
    requires n <= |events| && ReadAt(s0, skew, events[..n], i, c, current)
    ensures ReadAt(s0, skew, events, i, c, current)
  {
    hide Run;
    assert events[..n][..i] == events[..i];
  }

  /** What a caller holds it has read. */
  lemma {:induction false} FirstRead(s0: State, skew: int, events: seq<Event>, c: CallerId)
    requires s0.callers == map[]
    requires var s := Run(s0, skew, events); c in s.callers && s.callers[c].HasRead?
    ensures exists i: nat :: ReadAt(s0, skew, events, i, c, Run(s0, skew, events).callers[c].current)
  {
    var n := |events| - 1;
    var s := Run(s0, skew, events[..n]);
    var current := Run(s0, skew, events).callers[c].current;
    if c in s.callers && s.callers[c].HasRead? {
      assert s.callers[c] == Run(s0, skew, events).callers[c];
      hide Step, Run;
      FirstRead(s0, skew, events[..n], c);
      var i: nat :| ReadAt(s0, skew, events[..n], i, c, current);
      ReadAtMore(s0, skew, events, n, i, c, current);
    } else {
      assert ReadAt(s0, skew, events, n, c, current);
    }
  }

  /** A caller waits for its flight, which falls back to the set that the caller read at first. */
  ghost predicate GoesByFirstRead(s0: State, skew: int, events: seq<Event>, f: FlightId, c: CallerId, i: nat) {
    var s := Run(s0, skew, events);
    && f in s.flights && (s.flights[f].Rereading? || s.flights[f].Reread?)
    && c in s.callers && s.callers[c] == Owns(f) && ReadAt(s0, skew, events, i, c, Some(s.flights[f].fallback))
  }

  lemma {:induction false} FlightGoesByFirstRead(stored: Option<TokenSet>, issued: RefreshToken, skew: int,
                                                 events: seq<Event>, f: FlightId)
    requires var s := Run(Initial(stored, issued), skew, events);
      f in s.flights && (s.flights[f].Rereading? || s.flights[f].Reread?)
    ensures exists c: CallerId, i: nat :: GoesByFirstRead(Initial(stored, issued), skew, events, f, c, i)
  {
    var s0, n := Initial(stored, issued), |events| - 1;
    var s, t := Run(s0, skew, events[..n]), Run(s0, skew, events);
    SlotInvAlways(stored, issued, skew, events[..n]);
    assert s0.callers == map[] && t == Step(s, skew, events[n]);
    hide Step, Run, SlotInv, Initial;
    if f in s.flights {
      FlightKeepsOwner(s, skew, events[n], f);
      FlightGoesByFirstRead(stored, issued, skew, events[..n], f);
      var c: CallerId, i: nat :| GoesByFirstRead(s0, skew, events[..n], f, c, i);
      ReadAtMore(s0, skew, events, n, i, c, Some(s.flights[f].fallback));
      assert GoesByFirstRead(s0, skew, events, f, c, i);
    } else {
      var c := FlightBegins(s, skew, events[n], f);
      FirstRead(s0, skew, events[..n], c);
      var i: nat :| ReadAt(s0, skew, events[..n], i, c, Some(t.flights[f].fallback));
      ReadAtMore(s0, skew, events, n, i, c, Some(t.flights[f].fallback));
      assert GoesByFirstRead(s0, skew, events, f, c, i);
    }
  }

  lemma FlightBegins(s: State, skew: int, e: Event, f: FlightId) returns (c: CallerId)
    requires f !in s.flights && f in Step(s, skew, e).flights
    ensures var t := Step(s, skew, e);
      && t.flights[f].Rereading? && c in s.callers && s.callers[c] == HasRead(Some(t.flights[f].fallback))
      && c in t.callers && t.callers[c] == Owns(f)
  {
    c := e.c;
    hide Decide, NeedsRefresh;
  }

  lemma FlightKeepsOwner(s: State, skew: int, e: Event, f: FlightId)
    requires SlotInv(s) && f in s.flights
    requires var t := Step(s, skew, e); f in t.flights && (t.flights[f].Rereading? || t.flights[f].Reread?)
    ensures s.flights[f].Rereading? || s.flights[f].Reread?
    ensures s.flights[f].fallback == Step(s, skew, e).flights[f].fallback
    ensures forall c :: c in s.callers && s.callers[c] == Owns(f) ==>
      c in Step(s, skew, e).callers && Step(s, skew, e).callers[c] == Owns(f)
  {
    assert f < s.started;
    hide SlotInv, NeedsRefresh;
  }

  /**
   The token was consumed, but at the caller's first read it had not been, or its successor was still to
   be written.
   */
  ghost predicate RotatedSinceFirstRead(s0: State, skew: int, events: seq<Event>, f: FlightId, token: RefreshToken) {
    && token in Run(s0, skew, events).consumed
    && exists c: CallerId, i: nat :: GoesByFirstRead(s0, skew, events, f, c, i)
         && var r := Run(s0, skew, events[..i]); token !in r.consumed || BeingReplaced(r, token)
  }

  lemma {:induction false} LostStays(s0: State, skew: int, events: seq<Event>, i: nat)
    requires i <= |events|
    ensures Run(s0, skew, events[..i]).lost <= Run(s0, skew, events).lost
  {
    if i < |events| {
      LostStays(s0, skew, events[..|events| - 1], i);
      assert events[..|events| - 1][..i] == events[..i];
      LostGrows(Run(s0, skew, events[..|events| - 1]), skew, events[|events| - 1]);
      hide Step;
    } else {
      assert events[..i] == events;
    }
  }

  lemma LostGrows(s: State, skew: int, e: Event)
    ensures s.lost <= Step(s, skew, e).lost
  {
  }

  /**
   The token a flight falls back to was consumed exactly if it is lost, or was rotated since its caller's
   first read.
   */
  lemma FallbackConsumedIff(stored: Option<TokenSet>, issued: RefreshToken, skew: int, events: seq<Event>, f: FlightId)
    requires Honoured(stored, issued)
    requires var s := Run(Initial(stored, issued), skew, events);
      f in s.flights && s.flights[f].Reread? && s.flights[f].fallback.refresh.Some?
    ensures var s := Run(Initial(stored, issued), skew, events);
      var token := s.flights[f].fallback.refresh.value;
      token in s.consumed <==> token in s.lost || RotatedSinceFirstRead(Initial(stored, issued), skew, events, f, token)
  {
    var s0 := Initial(stored, issued);
    var s := Run(s0, skew, events);
    var token := s.flights[f].fallback.refresh.value;
    LostAlways(stored, issued, skew, events);
    FlightGoesByFirstRead(stored, issued, skew, events, f);
    hide Run, Initial, BeingReplaced;
    var c: CallerId, i: nat :| GoesByFirstRead(s0, skew, events, f, c, i);
    BooksAlways(stored, issued, skew, events[..i]);
    LostStays(s0, skew, events, i);
  }

  /**
   The `k`-th event of a run sends a consumed refresh token: the set the flight goes by needs a refresh,
   and its token is one whose successor was lost, or the store offers none and the token of the
   caller's first read was rotated since.
   */
  ghost predicate ReplaysAt(s0: State, skew: int, events: seq<Event>, k: nat)
    requires k < |events|
  {
    var s, e := Run(s0, skew, events[..k]), events[k];
    && e.FlightDecides? && e.f in s.flights && s.flights[e.f].Reread?
    && var fallback, latest := s.flights[e.f].fallback, s.flights[e.f].latest;
    && NeedsRefresh(if latest.Some? then latest.value else fallback, e.now, skew)
    && if Refreshable(latest) then latest.value.refresh.value in s.lost
       else && fallback.refresh.Some?
            && var token := fallback.refresh.value;
            token in s.lost || RotatedSinceFirstRead(s0, skew, events[..k], e.f, token)
  }

  lemma ReplaysAtIff(stored: Option<TokenSet>, issued: RefreshToken, skew: int, events: seq<Event>, k: nat)
    requires k < |events| && Honoured(stored, issued)
    ensures ReplaysAt(Initial(stored, issued), skew, events, k) <==>
      Replays(Run(Initial(stored, issued), skew, events[..k]), skew, events[k])
  {
    var s, e := Run(Initial(stored, issued), skew, events[..k]), events[k];
    hide Run, Initial, RotatedSinceFirstRead;
    if e.FlightDecides? && e.f in s.flights && s.flights[e.f].Reread? && s.flights[e.f].fallback.refresh.Some? {
      FallbackConsumedIff(stored, issued, skew, events[..k], e.f);
    }
  }

  lemma ReplaysAtPrefix(s: State, skew: int, events: seq<Event>, n: nat, k: nat)
    requires k < n <= |events|
    ensures ReplaysAt(s, skew, events[..n], k) == ReplaysAt(s, skew, events, k)
  {
    assert events[..n][..k] == events[..k];
    hide Run, RotatedSinceFirstRead;
  }

  /**
   In every run, whatever clears, logins and failed writes it holds, a consumed refresh token is sent
   again exactly at the steps that go by a lost token, or by a first read that was overtaken.
   */
  lemma {:induction false} ReplayedIff(stored: Option<TokenSet>, issued: RefreshToken, skew: int, events: seq<Event>)
    requires Honoured(stored, issued)
    ensures Run(Initial(stored, issued), skew, events).replayed <==>
      exists k :: 0 <= k < |events| && ReplaysAt(Initial(stored, issued), skew, events, k)
  {
    if events != [] {
      var n := |events| - 1;
      var front := events[..n];
      var s := Initial(stored, issued);
      ReplayedIff(stored, issued, skew, front);
      BooksAlways(stored, issued, skew, front);
      LostAlways(stored, issued, skew, front);
      ReplaysIff(Run(s, skew, front), skew, events[n]);
      assert Run(s, skew, events) == Step(Run(s, skew, front), skew, events[n]);
      ReplaysAtIff(stored, issued, skew, events, n);
      hide Replays, ReplaysAt, Books, Step, Initial, Run, LostWereConsumed;
      forall k | 0 <= k < n
        ensures ReplaysAt(s, skew, front, k) == ReplaysAt(s, skew, events, k)
      {
        ReplaysAtPrefix(s, skew, events, n, k);
      }
    }
  }

  // ----- undisturbed runs

  /** Not a `clear`, not a failed write, and an outside login only with a refresh token of its own. */
  predicate Undisturbed(e: Event) {
    !e.Clear? && !e.WriteFails? && (e.Login? ==> e.withRefreshToken)
  }

  /** No write was lost, and a store that a running call found refreshable still is. */
  ghost predicate Steady(s: State) {
    && s.lost == {}
    && (forall f :: f in s.flights && s.flights[f].Rereading? ==> Refreshable(s.stored))
    && (forall f :: f in s.flights && s.flights[f].Reread? ==> Refreshable(s.flights[f].latest))
    && (forall f :: f in s.flights && s.flights[f].Writing? ==> s.flights[f].tokens.refresh.Some?)
    && (forall c :: c in s.callers && s.callers[c].HasRead? && Refreshable(s.callers[c].current) ==>
         Refreshable(s.stored))
  }

  lemma SteadyStep(s: State, skew: int, e: Event)
    requires Steady(s) && Undisturbed(e)
    ensures Steady(Step(s, skew, e))
  {
    if e.Call? || e.Read? || e.Resume? || e.Return? || e.Login? {
      SteadyCaller(s, skew, e);
    } else {
      SteadyFlight(s, skew, e);
    }
  }

  lemma SteadyCaller(s: State, skew: int, e: Event)
    requires Steady(s) && Undisturbed(e) && (e.Call? || e.Read? || e.Resume? || e.Return? || e.Login?)
    ensures Steady(Step(s, skew, e))
  {
    hide Decide, NeedsRefresh;
  }

  lemma SteadyFlight(s: State, skew: int, e: Event)
    requires Steady(s) && Undisturbed(e) && !(e.Call? || e.Read? || e.Resume? || e.Return? || e.Login?)
    ensures Steady(Step(s, skew, e))
  {
    hide ResumeCaller, Awaited, NeedsRefresh;
  }

  lemma {:induction false} SteadyAlways(stored: Option<TokenSet>, issued: RefreshToken, skew: int, events: seq<Event>)
    requires forall i :: 0 <= i < |events| ==> Undisturbed(events[i])
    ensures Steady(Run(Initial(stored, issued), skew, events))
  {
    if events != [] {
      SteadyAlways(stored, issued, skew, events[..|events| - 1]);
      SteadyStep(Run(Initial(stored, issued), skew, events[..|events| - 1]), skew, events[|events| - 1]);
    }
  }

  /** In every undisturbed run, no refresh token that a successful refresh consumed is sent again. */
  lemma NoReplay(stored: Option<TokenSet>, issued: RefreshToken, skew: int, events: seq<Event>)
    requires Honoured(stored, issued) && forall i :: 0 <= i < |events| ==> Undisturbed(events[i])
    ensures !Run(Initial(stored, issued), skew, events).replayed
  {
    ReplayedIff(stored, issued, skew, events);
    forall k | 0 <= k < |events|
      ensures !ReplaysAt(Initial(stored, issued), skew, events, k)
    {
      SteadyAlways(stored, issued, skew, events[..k]);
      ReplaysAtIff(stored, issued, skew, events, k);
      hide Run, Step, ReplaysAt;
    }
  }

  // ----- each of the three disturbances alone can bring a replay about

  lemma RunOn(s: State, skew: int, events: seq<Event>, e: Event)
    ensures Run(s, skew, events + [e]) == Step(Run(s, skew, events), skew, e)
  {
    assert (events + [e])[..|events|] == events;
  }

  lemma RunThree(s: State, skew: int, events: seq<Event>, e1: Event, e2: Event, e3: Event)
    ensures Run(s, skew, events + [e1, e2, e3]) == Step(Step(Step(Run(s, skew, events), skew, e1), skew, e2), skew, e3)
  {
    hide Run, Step;
    RunOn(s, skew, events, e1);
    RunOn(s, skew, events + [e1], e2);
    RunOn(s, skew, events + [e1] + [e2], e3);
    assert events + [e1, e2, e3] == events + [e1] + [e2] + [e3];
  }

  lemma RunNone(s: State, skew: int)
    ensures Run(s, skew, []) == s
  {
  }

  /** A stale token set holding refresh token 0. */
  function Stale(): State {
    Initial(Some(TokenSet(Some(0), 0)), 1)
  }

  /** Caller 0 is held up after its first read while caller 1 refreshes from start to finish. */
  function OvertakenReader(): seq<Event> {
    [Call(0), Read(0), Call(1)] + [Read(1), Resume(1, 0), FlightReads(0)]
    + [FlightDecides(0, 0), EndpointRotates(0, 100), FlightWrites(0)]
  }

  lemma AfterOvertaking()
    ensures var s := Run(Stale(), 0, OvertakenReader());
      && s.slot == Some(0) && s.started == 1 && s.consumed == {0} && !s.replayed && s.callers.Keys == {0, 1}
      && s.callers[0] == HasRead(Some(TokenSet(Some(0), 0))) && s.callers[1] == Owns(0)
      && 0 in s.flights && s.flights[0] == Settled(Tokens(TokenSet(Some(1), 100)))
  {
    hide Run;
    RunNone(Stale(), 0);
    RunThree(Stale(), 0, [], Call(0), Read(0), Call(1));
    assert [] + [Call(0), Read(0), Call(1)] == [Call(0), Read(0), Call(1)];
    RunThree(Stale(), 0, [Call(0), Read(0), Call(1)], Read(1), Resume(1, 0), FlightReads(0));
    RunThree(Stale(), 0, [Call(0), Read(0), Call(1)] + [Read(1), Resume(1, 0), FlightReads(0)],
             FlightDecides(0, 0), EndpointRotates(0, 100), FlightWrites(0));
  }

  /** After a `clear`, or a login without a refresh token, the overtaken caller falls back to what it read first. */
  lemma ClearOrBareLoginLetsReplay(disturbance: Event)
    requires disturbance in {Clear, Login(false, 0)}
    ensures Run(Stale(), 0, OvertakenReader() + [Return(1), disturbance, Resume(0, 0)] + [FlightReads(1)]
                              + [FlightDecides(1, 0)]).replayed
  {
    hide Run;
    AfterOvertaking();
    RunThree(Stale(), 0, OvertakenReader(), Return(1), disturbance, Resume(0, 0));
    RunOn(Stale(), 0, OvertakenReader() + [Return(1), disturbance, Resume(0, 0)], FlightReads(1));
    RunOn(Stale(), 0, OvertakenReader() + [Return(1), disturbance, Resume(0, 0)] + [FlightReads(1)],
          FlightDecides(1, 0));
  }

  function UnwrittenRefresh(): seq<Event> {
    [Call(0), Read(0), Resume(0, 0)] + [FlightReads(0), FlightDecides(0, 0), EndpointRotates(0, 100)]
    + [WriteFails(0), Return(0), Call(1)]
  }

  lemma AfterUnwrittenRefresh()
    ensures var s := Run(Stale(), 0, UnwrittenRefresh());
      && s.slot == None && s.started == 1 && s.consumed == {0} && 1 in s.callers && s.callers[1] == Reading
      && s.stored == Some(TokenSet(Some(0), 0))
  {
    hide Run;
    RunNone(Stale(), 0);
    var first := [Call(0), Read(0), Resume(0, 0)];
    var second := first + [FlightReads(0), FlightDecides(0, 0), EndpointRotates(0, 100)];
    RunThree(Stale(), 0, [], Call(0), Read(0), Resume(0, 0));
    assert [] + first == first;
    RunThree(Stale(), 0, first, FlightReads(0), FlightDecides(0, 0), EndpointRotates(0, 100));
    RunThree(Stale(), 0, second, WriteFails(0), Return(0), Call(1));
  }

  /** When the rotated set cannot be written, the store keeps the consumed token and the next refresh sends it. */
  lemma FailedWriteLetsReplay()
    ensures Run(Stale(), 0, UnwrittenRefresh() + [Read(1), Resume(1, 0), FlightReads(1)]
                              + [FlightDecides(1, 0)]).replayed
  {
    hide Run;
    AfterUnwrittenRefresh();
    RunThree(Stale(), 0, UnwrittenRefresh(), Read(1), Resume(1, 0), FlightReads(1));
    RunOn(Stale(), 0, UnwrittenRefresh() + [Read(1), Resume(1, 0), FlightReads(1)], FlightDecides(1, 0));
  }
}
