/**
 `nexus chat --persistent` with a live approval broker (packages/cli/src/commands.ts): the stdin
 reader, the turn worker and the broker share a prompt queue, a wake callback and the table of
 pending approvals.

 One event is one uninterrupted stretch of JavaScript between two awaits. A run is any sequence
 of events; an event that is not enabled leaves the state as it is.
 */
module Approvals {
  import opened Options

  type ApprovalId = string
  type TurnId = nat

  datatype Cause = Explicit | Timeout | Cancelled | StdinClosed

  /** What the broker emits: a request, or the resolution of one. */
  datatype Emitted =
    | Opened(id: ApprovalId)
    | Resolved(id: ApprovalId, granted: bool, cause: Cause)

  /** A pending approval and the turn whose cancellation it listens to. */
  datatype Entry = Entry(id: ApprovalId, scope: Option<TurnId>)

  datatype Broker = Broker(pending: seq<Entry>, log: seq<Emitted>)

  predicate IsPending(pending: seq<Entry>, id: ApprovalId) {
    exists k :: 0 <= k < |pending| && pending[k].id == id
  }

  predicate DistinctIds(pending: seq<Entry>) {
    forall i, j :: 0 <= i < j < |pending| ==> pending[i].id != pending[j].id
  }

  function Without(pending: seq<Entry>, id: ApprovalId): (rest: seq<Entry>)
    ensures forall e :: e in rest <==> e in pending && e.id != id
    ensures DistinctIds(pending) ==> DistinctIds(rest)
  {
    if pending == [] then []
    else (if pending[0].id == id then [] else [pending[0]]) + Without(pending[1..], id)
  }

  /** The approvals that listen to the cancellation of `scope`, or those that do not. */
  function Listening(pending: seq<Entry>, scope: TurnId, yes: bool): (some: seq<Entry>)
    ensures forall e :: e in some <==> e in pending && (e.scope == Some(scope)) == yes
    ensures DistinctIds(pending) ==> DistinctIds(some)
  {
    if pending == [] then []
    else (if (pending[0].scope == Some(scope)) == yes then [pending[0]] else []) + Listening(pending[1..], scope, yes)
  }

  /** The refusals that settle a list of approvals, in order. */
  function Refusals(gone: seq<Entry>, cause: Cause): (r: seq<Emitted>)
    ensures |r| == |gone| && forall i :: 0 <= i < |gone| ==> r[i] == Resolved(gone[i].id, false, cause)
  {
    seq(|gone|, i requires 0 <= i < |gone| => Resolved(gone[i].id, false, cause))
  }

  /** `request`, from the emission on; `cancelled` tells whether its scope is already cancelled. */
  function Request(b: Broker, id: ApprovalId, scope: Option<TurnId>, cancelled: bool): Broker {
    if cancelled then Broker(b.pending, b.log + [Opened(id), Resolved(id, false, Cancelled)])
    else Broker(b.pending + [Entry(id, scope)], b.log + [Opened(id)])
  }

  /** `finish`: nothing happens to an approval that is already settled. */
  function Finish(b: Broker, id: ApprovalId, granted: bool, cause: Cause): Broker {
    if IsPending(b.pending, id) then Broker(Without(b.pending, id), b.log + [Resolved(id, granted, cause)]) else b
  }

  function DenyAll(b: Broker): Broker {
    Broker([], b.log + Refusals(b.pending, StdinClosed))
  }

  /** The abort event of a turn's scope. */
  function Abort(b: Broker, scope: TurnId): Broker {
    Broker(Listening(b.pending, scope, false), b.log + Refusals(Listening(b.pending, scope, true), Cancelled))
  }

  // ----- every approval is pending from its request to its one resolution

  predicate WasOpened(b: Broker, id: ApprovalId) {
    exists i :: 0 <= i < |b.log| && b.log[i] == Opened(id)
  }

  predicate WasResolved(b: Broker, id: ApprovalId) {
    exists i :: 0 <= i < |b.log| && b.log[i].Resolved? && b.log[i].id == id
  }

  ghost predicate BrokerInv(b: Broker) {
    && DistinctIds(b.pending)
    // what is said about an approval is: one request, then at most one resolution
    && (forall i, j :: 0 <= i < j < |b.log| && b.log[i].id == b.log[j].id ==> b.log[i].Opened? && b.log[j].Resolved?)
    && (forall id :: WasResolved(b, id) ==> WasOpened(b, id))
    // pending is exactly requested and not yet resolved
    && (forall id :: IsPending(b.pending, id) <==> WasOpened(b, id) && !WasResolved(b, id))
  }

  /** Settling some of the pending approvals, each with one resolution, keeps the books right. */
  lemma SettleSome(b: Broker, gone: seq<Entry>, rest: seq<Entry>, news: seq<Emitted>)
    requires BrokerInv(b) && DistinctIds(gone) && DistinctIds(rest)
    requires forall e :: e in b.pending <==> e in gone || e in rest
    requires forall e, f :: e in gone && f in rest ==> e.id != f.id
    requires |news| == |gone| && forall i :: 0 <= i < |gone| ==> news[i].Resolved? && news[i].id == gone[i].id
    ensures BrokerInv(Broker(rest, b.log + news))
  {
    var b' := Broker(rest, b.log + news);
    forall id
      ensures WasOpened(b', id) <==> WasOpened(b, id)
      ensures WasResolved(b', id) <==> WasResolved(b, id) || IsPending(gone, id)
      ensures IsPending(b.pending, id) <==> IsPending(gone, id) || IsPending(rest, id)
    {
      if WasOpened(b, id) {
        var i :| 0 <= i < |b.log| && b.log[i] == Opened(id);
        assert b'.log[i] == Opened(id);
      }
      if IsPending(gone, id) {
        var k :| 0 <= k < |gone| && gone[k].id == id;
        assert b'.log[|b.log| + k].id == id;
        assert gone[k] in b.pending;
      }
      if IsPending(rest, id) {
        var k :| 0 <= k < |rest| && rest[k].id == id;
        assert rest[k] in b.pending;
      }
      if WasResolved(b, id) {
        var i :| 0 <= i < |b.log| && b.log[i].Resolved? && b.log[i].id == id;
        assert b'.log[i].id == id;
      }
    }
    forall i, j | 0 <= i < j < |b'.log| && b'.log[i].id == b'.log[j].id
      ensures b'.log[i].Opened? && b'.log[j].Resolved?
    {
      if j >= |b.log| {
        assert gone[j - |b.log|] in b.pending;
        assert IsPending(b.pending, b'.log[j].id);
      }
    }
  }

  lemma FinishKeeps(b: Broker, id: ApprovalId, granted: bool, cause: Cause)
    requires BrokerInv(b)
    ensures BrokerInv(Finish(b, id, granted, cause))
  {
    if IsPending(b.pending, id) {
      var k :| 0 <= k < |b.pending| && b.pending[k].id == id;
      SettleSome(b, [b.pending[k]], Without(b.pending, id), [Resolved(id, granted, cause)]);
    }
  }

  lemma DenyAllKeeps(b: Broker)
    requires BrokerInv(b)
    ensures BrokerInv(DenyAll(b))
  {
    SettleSome(b, b.pending, [], Refusals(b.pending, StdinClosed));
  }

  lemma AbortKeeps(b: Broker, scope: TurnId)
    requires BrokerInv(b)
    ensures BrokerInv(Abort(b, scope))
  {
    var gone, rest := Listening(b.pending, scope, true), Listening(b.pending, scope, false);
    forall e, f | e in gone && f in rest
      ensures e.id != f.id
    {
      assert e in b.pending && f in b.pending && e != f;
    }
    SettleSome(b, gone, rest, Refusals(gone, Cancelled));
  }

  lemma RequestKeeps(b: Broker, id: ApprovalId, scope: Option<TurnId>, cancelled: bool)
    requires BrokerInv(b) && !WasOpened(b, id)
    ensures BrokerInv(Request(b, id, scope, cancelled))
  {
    var asked := Broker(b.pending + [Entry(id, scope)], b.log + [Opened(id)]);
    assert forall i :: 0 <= i < |b.log| && b.log[i].id == id ==> b.log[i].Resolved?;
    assert !WasResolved(b, id) && !IsPending(b.pending, id);
    forall other
      ensures WasOpened(asked, other) <==> WasOpened(b, other) || other == id
      ensures WasResolved(asked, other) <==> WasResolved(b, other)
      ensures IsPending(asked.pending, other) <==> IsPending(b.pending, other) || other == id
    {
      assert asked.log[|b.log|] == Opened(id) && asked.pending[|b.pending|].id == id;
      if WasOpened(b, other) {
        var i :| 0 <= i < |b.log| && b.log[i] == Opened(other);
        assert asked.log[i] == Opened(other);
      }
      if WasResolved(b, other) {
        var i :| 0 <= i < |b.log| && b.log[i].Resolved? && b.log[i].id == other;
        assert asked.log[i].id == other;
      }
      if IsPending(b.pending, other) {
        var k :| 0 <= k < |b.pending| && b.pending[k].id == other;
        assert asked.pending[k].id == other;
      }
    }
    if cancelled {
      SettleSome(asked, [Entry(id, scope)], b.pending, [Resolved(id, false, Cancelled)]);
      assert b.log + [Opened(id)] + [Resolved(id, false, Cancelled)] ==
        b.log + [Opened(id), Resolved(id, false, Cancelled)];
    }
  }

  // ----- the broker

  /** The table of pending approvals, updated in place; `log` is what has been emitted. */
  class ApprovalBroker {
    var pending: seq<Entry>
    ghost var log: seq<Emitted>

    ghost function State(): Broker
      reads this
    {
      Broker(pending, log)
    }

    constructor ()
      ensures State() == Broker([], []) && BrokerInv(State())
    {
      pending, log := [], [];
    }

    method RequestApproval(id: ApprovalId, scope: Option<TurnId>, isCancelled: bool)
      requires BrokerInv(State()) && !WasOpened(State(), id)
      modifies this
      ensures BrokerInv(State()) && State() == Request(old(State()), id, scope, isCancelled)
    {
      RequestKeeps(State(), id, scope, isCancelled);
      log := log + [Opened(id)];
      if isCancelled {
        log := log + [Resolved(id, false, Cancelled)];
        assert log == old(log) + [Opened(id), Resolved(id, false, Cancelled)];
        return;
      }
      pending := pending + [Entry(id, scope)];
    }

    /** The callback each pending approval is settled through; a second call does nothing. */
    method FinishOne(id: ApprovalId, granted: bool, cause: Cause)
      requires BrokerInv(State())
      modifies this
      ensures BrokerInv(State()) && State() == Finish(old(State()), id, granted, cause)
    {
      FinishKeeps(State(), id, granted, cause);
      if !IsPending(pending, id) {
        return;
      }
      pending := Without(pending, id);
      log := log + [Resolved(id, granted, cause)];
    }

    /** Settles a snapshot of pending approvals, one callback at a time. */
    method FinishAll(snapshot: seq<Entry>, cause: Cause)
      requires BrokerInv(State()) && DistinctIds(snapshot)
      requires forall e :: e in snapshot ==> e in pending
      modifies this
      ensures BrokerInv(State())
      ensures log == old(log) + Refusals(snapshot, cause)
      ensures pending == Except(old(pending), snapshot)
    {
      hide BrokerInv, Except, IsPending, DistinctIds, Without, Refusals;
      ExceptNone(pending);
      NoRefusals(cause);
      assert snapshot[..0] == [];
      for k := 0 to |snapshot|
        invariant BrokerInv(State())
        invariant log == old(log) + Refusals(snapshot[..k], cause)
        invariant pending == Except(old(pending), snapshot[..k])
      {
        ExceptOneMore(old(pending), snapshot, k);
        NotYetSettled(old(pending), snapshot, k);
        OneMoreRefusal(snapshot, k, cause);
        FinishOne(snapshot[k].id, false, cause);
      }
      assert snapshot[..|snapshot|] == snapshot;
    }

    /** End of input: no decision can arrive any more. */
    method DenyAllPending()
      requires BrokerInv(State())
      modifies this
      ensures BrokerInv(State()) && State() == DenyAll(old(State()))
    {
      var snapshot := pending;
      ExceptAll(pending, pending);
      FinishAll(snapshot, StdinClosed);
    }

    /** The listeners of one turn's abort event, in the order they were added. */
    method AbortScope(scope: TurnId)
      requires BrokerInv(State())
      modifies this
      ensures BrokerInv(State()) && State() == Abort(old(State()), scope)
    {
      var listeners := Listening(pending, scope, true);
      ExceptListening(pending, pending, scope);
      FinishAll(listeners, Cancelled);
    }
  }

  /** The pending approvals whose id is not among those of `gone`. */
  function Except(pending: seq<Entry>, gone: seq<Entry>): (rest: seq<Entry>)
    ensures forall e :: e in rest <==> e in pending && !IsPending(gone, e.id)
  {
    if pending == [] then []
    else (if IsPending(gone, pending[0].id) then [] else [pending[0]]) + Except(pending[1..], gone)
  }

  lemma NoRefusals(cause: Cause)
    ensures Refusals([], cause) == []
  {
  }

  lemma OneMoreRefusal(gone: seq<Entry>, k: nat, cause: Cause)
    requires k < |gone|
    ensures Refusals(gone[..k + 1], cause) == Refusals(gone[..k], cause) + [Resolved(gone[k].id, false, cause)]
  {
  }

  lemma {:induction false} ExceptAll(pending: seq<Entry>, all: seq<Entry>)
    requires forall e :: e in pending ==> e in all
    ensures Except(pending, all) == []
  {
    if pending != [] {
      ExceptAll(pending[1..], all);
      assert pending[0] in all;
      var k :| 0 <= k < |all| && all[k] == pending[0];
      assert IsPending(all, pending[0].id);
    }
  }

  lemma {:induction false} ExceptNone(pending: seq<Entry>)
    ensures Except(pending, []) == pending
  {
    if pending != [] {
      ExceptNone(pending[1..]);
    }
  }

  lemma PendingInPrefix(gone: seq<Entry>, k: nat, id: ApprovalId)
    requires k < |gone|
    ensures IsPending(gone[..k + 1], id) <==> IsPending(gone[..k], id) || id == gone[k].id
  {
    assert gone[..k + 1][k] == gone[k];
    if IsPending(gone[..k], id) {
      var j :| 0 <= j < k && gone[..k][j].id == id;
      assert gone[..k + 1][j].id == id;
    }
  }

  lemma {:induction false} ExceptOneMore(pending: seq<Entry>, gone: seq<Entry>, k: nat)
    requires k < |gone|
    ensures Except(pending, gone[..k + 1]) == Without(Except(pending, gone[..k]), gone[k].id)
  {
    if pending != [] {
      var e, before := pending[0], Except(pending[1..], gone[..k]);
      ExceptOneMore(pending[1..], gone, k);
      PendingInPrefix(gone, k, e.id);
      hide IsPending;
      assert ([e] + before)[0] == e && ([e] + before)[1..] == before && [] + before == before;
    }
  }

  lemma NotYetSettled(pending: seq<Entry>, gone: seq<Entry>, k: nat)
    requires k < |gone| && DistinctIds(gone) && gone[k] in pending
    ensures IsPending(Except(pending, gone[..k]), gone[k].id)
  {
    var rest := Except(pending, gone[..k]);
    assert gone[k] in rest;
  }

  lemma {:induction false} ExceptListening(pending: seq<Entry>, all: seq<Entry>, scope: TurnId)
    requires DistinctIds(all) && forall e :: e in pending ==> e in all
    ensures Except(pending, Listening(all, scope, true)) == Listening(pending, scope, false)
  {
    if pending != [] {
      ExceptListening(pending[1..], all, scope);
      var gone := Listening(all, scope, true);
      var e := pending[0];
      assert IsPending(gone, e.id) <==> e.scope == Some(scope) by {
        if IsPending(gone, e.id) {
          var k :| 0 <= k < |gone| && gone[k].id == e.id;
          assert gone[k] in all && e in all;
        }
        if e.scope == Some(scope) {
          assert e in gone;
          var k :| 0 <= k < |gone| && gone[k] == e;
        }
      }
    }
  }
}

module ChatLoop {
  import opened Approvals
  import opened Options

  type Prompt = string

  /** What the reader makes of one trimmed stdin line. */
  datatype Line =
    | Blank
    | Decision(id: ApprovalId, allow: bool)
    | MalformedDecision
    | Switch
    | MalformedSwitch
    | PromptLine(prompt: Prompt)

  datatype Reader = Reading | Switching | Closed

  /** The worker: about to look at the queue, inside a turn, waiting to be woken, or gone. */
  datatype Worker = Ready | InTurn(turn: TurnId) | Parked | Exited

  datatype State = State(
    queue: seq<Prompt>,
    wakeSet: bool,              // `wake` holds the parked worker's resolver
    stdinClosed: bool,
    reader: Reader,
    worker: Worker,
    activeScope: Option<TurnId>,
    cancelled: set<TurnId>,
    broker: Broker,
    // history
    accepted: seq<Prompt>,      // prompts read, in order of arrival
    begun: seq<Prompt>,         // prompts whose turn began, in order
    ended: nat)                 // turns that are over

  const INITIAL := State([], false, false, Reading, Ready, None, {}, Broker([], []), [], [], 0)

  datatype Event =
    | ReadLine(line: Line)
    | SwitchDone
    | InputEnds
    | WorkerRuns
    | TurnEnds
    | ToolAsks(id: ApprovalId)
    | TimesOut(id: ApprovalId)
    | Signal

  /** `wakeWorker`: calls the resolver if there is one and forgets it. */
  function WakeWorker(s: State): State {
    s.(worker := if s.wakeSet then Ready else s.worker, wakeSet := false)
  }

  function Step(s: State, e: Event): State {
    match e
    case ReadLine(line) => if s.reader.Reading? then OnLine(s, line) else s
    case SwitchDone => if s.reader.Switching? then s.(reader := Reading) else s
    case InputEnds =>
      if s.reader.Reading?
      then WakeWorker(s.(reader := Closed, stdinClosed := true, broker := DenyAll(s.broker))) else s
    case WorkerRuns => if s.worker.Ready? then RunWorker(s) else s
    case TurnEnds => if s.worker.InTurn? then s.(worker := Ready, activeScope := None, ended := s.ended + 1) else s
    case ToolAsks(id) =>
      // a request's id is new; its scope is whatever turn is active when it is emitted
      if WasOpened(s.broker, id) then s
      else s.(broker := Request(s.broker, id, s.activeScope,
                                s.activeScope.Some? && s.activeScope.value in s.cancelled))
    case TimesOut(id) => s.(broker := Finish(s.broker, id, false, Timeout))
    case Signal =>
      if s.activeScope.Some?
      then s.(cancelled := s.cancelled + {s.activeScope.value}, broker := Abort(s.broker, s.activeScope.value)) else s
  }

  function OnLine(s: State, line: Line): State {
    match line
    case Decision(id, allow) => s.(broker := Finish(s.broker, id, allow, Explicit))
    case Switch => s.(reader := Switching)
    case PromptLine(prompt) => WakeWorker(s.(queue := s.queue + [prompt], accepted := s.accepted + [prompt]))
    case _ => s
  }

  /** The worker's loop from its head to its next await: begin a turn, leave, or park. */
  function RunWorker(s: State): State {
    if |s.queue| > 0 then
      s.(queue := s.queue[1..], worker := InTurn(|s.begun|), activeScope := Some(|s.begun|),
         begun := s.begun + [s.queue[0]])
    else if s.stdinClosed then s.(worker := Exited)
    else s.(worker := Parked, wakeSet := true)
  }

  function RunFrom(s: State, events: seq<Event>): State
    decreases |events|
  {
    if events == [] then s else RunFrom(Step(s, events[0]), events[1..])
  }

  function Run(events: seq<Event>): State {
    RunFrom(INITIAL, events)
  }

  // ----- what the events alone say

  /** The lines the reader hears: up to the end of input, and none while it waits for a provider switch. */
  function Heard(events: seq<Event>, switching: bool): seq<Line>
    decreases |events|
  {
    if events == [] then []
    else
      var e, rest := events[0], events[1..];
      if e.SwitchDone? then Heard(rest, false)
      else if switching then Heard(rest, true)
      else if e.InputEnds? then []
      else if e.ReadLine? then [e.line] + Heard(rest, e.line.Switch?)
      else Heard(rest, false)
  }

  function PromptsIn(lines: seq<Line>): seq<Prompt>
    decreases |lines|
  {
    if lines == [] then [] else (if lines[0].PromptLine? then [lines[0].prompt] else []) + PromptsIn(lines[1..])
  }

  function Prompts(events: seq<Event>): seq<Prompt> {
    PromptsIn(Heard(events, false))
  }

  function HeardFrom(r: Reader, events: seq<Event>): seq<Line> {
    if r.Closed? then [] else Heard(events, r.Switching?)
  }

  lemma {:induction false} AcceptedFrom(s: State, events: seq<Event>)
    ensures RunFrom(s, events).accepted == s.accepted + PromptsIn(HeardFrom(s.reader, events))
    decreases |events|
  {
    if events != [] {
      AcceptedFrom(Step(s, events[0]), events[1..]);
      HeardNext(s, events);
      hide Heard, Step;
    }
  }

  lemma ReaderStep(s: State, e: Event)
    ensures var t := Step(s, e);
      && (s.reader.Reading? && e.ReadLine? ==>
            && t.reader == (if e.line.Switch? then Switching else Reading)
            && t.accepted == s.accepted + if e.line.PromptLine? then [e.line.prompt] else [])
      && (!(s.reader.Reading? && e.ReadLine?) ==> t.accepted == s.accepted)
      && (s.reader.Reading? && e.InputEnds? ==> t.reader.Closed?)
      && (s.reader.Switching? && e.SwitchDone? ==> t.reader.Reading?)
      && (t.reader != s.reader ==>
            (s.reader.Reading? && (e.ReadLine? || e.InputEnds?)) || (s.reader.Switching? && e.SwitchDone?))
  {
    hide Finish, Request, DenyAll, Abort, WasOpened;
  }

  lemma HeardNext(s: State, events: seq<Event>)
    requires events != []
    ensures var t := Step(s, events[0]);
      s.accepted + PromptsIn(HeardFrom(s.reader, events)) == t.accepted + PromptsIn(HeardFrom(t.reader, events[1..]))
  {
    var e := events[0];
    ReaderStep(s, e);
    hide Step;
    var later := HeardFrom(Step(s, e).reader, events[1..]);
    if s.reader.Reading? && e.ReadLine? {
      assert HeardFrom(s.reader, events) == [e.line] + later;
      assert ([e.line] + later)[1..] == later;
    } else {
      assert HeardFrom(s.reader, events) == later;
    }
  }

  /** Every prompt heard is accepted, whatever the worker is doing, and nothing else is. */
  lemma EveryPromptIsAccepted(events: seq<Event>)
    ensures Run(events).accepted == Prompts(events)
  {
    AcceptedFrom(INITIAL, events);
  }

  // ----- what holds in every run

  ghost predicate Inv(s: State) {
    // prompts: first come, first served, each exactly once, one at a time
    && s.accepted == s.begun + s.queue
    && |s.begun| == s.ended + (if s.worker.InTurn? then 1 else 0)
    && (s.worker.InTurn? ==> s.worker.turn == s.ended && s.activeScope == Some(s.worker.turn))
    && (!s.worker.InTurn? ==> s.activeScope == None)
    // no wakeup is lost
    && (s.wakeSet <==> s.worker.Parked?)
    && (s.worker.Parked? ==> s.queue == [] && !s.stdinClosed)
    && (s.stdinClosed <==> s.reader.Closed?)
    && (s.worker.Exited? ==> s.queue == [] && s.stdinClosed)
    // approvals
    && BrokerInv(s.broker)
    && (forall t :: t in s.cancelled ==> t < |s.begun|)
    && (forall e :: e in s.broker.pending && e.scope.Some? ==>
         e.scope.value < |s.begun| && e.scope.value !in s.cancelled)
  }

  lemma InvStep(s: State, e: Event)
    requires Inv(s)
    ensures Inv(Step(s, e))
  {
    hide BrokerInv, WasOpened;
    match e {
      case ReadLine(Decision(id, allow)) => FinishKeeps(s.broker, id, allow, Explicit);
      case TimesOut(id) => FinishKeeps(s.broker, id, false, Timeout);
      case InputEnds => DenyAllKeeps(s.broker);
      case ToolAsks(id) =>
        if !WasOpened(s.broker, id) {
          RequestKeeps(s.broker, id, s.activeScope, s.activeScope.Some? && s.activeScope.value in s.cancelled);
        }
      case Signal =>
        if s.activeScope.Some? {
          AbortKeeps(s.broker, s.activeScope.value);
        }
      case _ =>
    }
  }

  lemma {:induction false} InvAlong(s: State, events: seq<Event>)
    requires Inv(s)
    ensures Inv(RunFrom(s, events))
    decreases |events|
  {
    if events != [] {
      InvStep(s, events[0]);
      InvAlong(Step(s, events[0]), events[1..]);
    }
  }

  /**
   The prompts heard get their turns in order of arrival, each once, and one turn is over before the
   next begins: those begun and those queued are all of them.
   */
  lemma PromptsRunInOrder(events: seq<Event>)
    ensures var s := Run(events);
      && s.begun + s.queue == Prompts(events)
      && s.ended <= |s.begun| <= s.ended + 1
      && (|s.begun| == s.ended + 1 <==> s.worker.InTurn?)
  {
    InvAlong(INITIAL, events);
    EveryPromptIsAccepted(events);
  }

  /** The worker never sleeps on a queued prompt or on closed input, and whoever has work for it can wake it. */
  lemma NoLostWakeup(events: seq<Event>)
    ensures var s := Run(events);
      s.worker.Parked? ==> s.queue == [] && !s.stdinClosed && s.wakeSet
  {
    InvAlong(INITIAL, events);
  }

  /** When the worker has left, input is closed and every prompt heard has had its turn. */
  lemma LeavesOnlyWhenDone(events: seq<Event>)
    requires Run(events).worker.Exited?
    ensures var s := Run(events); s.stdinClosed && s.begun == Prompts(events) && s.ended == |Prompts(events)|
  {
    InvAlong(INITIAL, events);
    EveryPromptIsAccepted(events);
  }

  /** The event is the worker's next step, or the end of the turn it waits for. */
  predicate Advances(s: State, e: Event) {
    (e.WorkerRuns? && s.worker.Ready?) || (e.TurnEnds? && s.worker.InTurn?)
  }

  /** How many events advance the worker on the way. */
  function Advanced(s: State, events: seq<Event>): nat
    decreases |events|
  {
    if events == [] then 0 else (if Advances(s, events[0]) then 1 else 0) + Advanced(Step(s, events[0]), events[1..])
  }

  /** How many steps the worker has left once input is closed: two a prompt, one to leave, one to finish a turn. */
  function Left(s: State): nat {
    if s.worker.Exited? then 0 else 2 * |s.queue| + 1 + if s.worker.InTurn? then 1 else 0
  }

  lemma LeftStep(s: State, e: Event)
    requires Inv(s) && s.stdinClosed
    ensures Step(s, e).stdinClosed && Step(s, e).accepted == s.accepted
    ensures Left(Step(s, e)) == Left(s) - if Advances(s, e) then 1 else 0
    ensures !s.worker.Exited? ==> Advances(s, if s.worker.InTurn? then TurnEnds else WorkerRuns)
  {
    hide BrokerInv;
  }

  /**
   Once input is closed, whatever happens, the worker has left exactly when it took its `Left` steps,
   never takes more, can always take the next one, and leaves with every accepted prompt run.
   */
  lemma {:induction false} DrainsAfterClose(s: State, events: seq<Event>)
    requires Inv(s) && s.stdinClosed
    ensures Advanced(s, events) <= Left(s)
    ensures var t := RunFrom(s, events);
      && (t.worker.Exited? <==> Advanced(s, events) == Left(s))
      && (t.worker.Exited? ==> t.begun == s.accepted && t.ended == |s.accepted|)
      && (!t.worker.Exited? ==> Advances(t, WorkerRuns) || Advances(t, TurnEnds))
    decreases |events|
  {
    hide BrokerInv;
    if events != [] {
      hide Step;
      InvStep(s, events[0]);
      LeftStep(s, events[0]);
      DrainsAfterClose(Step(s, events[0]), events[1..]);
    }
  }

  /** In every run an approval is requested once and resolved at most once, and is pending exactly in between. */
  lemma ApprovalsResolvedOnce(events: seq<Event>)
    ensures BrokerInv(Run(events).broker)
  {
    InvAlong(INITIAL, events);
  }

  predicate Adds(s: State, s': State, id: ApprovalId, granted: bool, cause: Cause) {
    s'.broker.log == s.broker.log + [Resolved(id, granted, cause)] && !IsPending(s'.broker.pending, id)
  }

  /** A decision line settles the approval it names while it is pending, as decided, and otherwise changes nothing. */
  lemma DecisionSettlesExactlyItsApproval(events: seq<Event>, id: ApprovalId, allow: bool)
    ensures var s := Run(events);
      var s' := Step(s, ReadLine(Decision(id, allow)));
      && (s.reader.Reading? && WasOpened(s.broker, id) && !WasResolved(s.broker, id) ==>
           Adds(s, s', id, allow, Explicit))
      && (!s.reader.Reading? || !WasOpened(s.broker, id) || WasResolved(s.broker, id) ==> s' == s)
  {
    InvAlong(INITIAL, events);
    var s := Run(events);
    assert IsPending(s.broker.pending, id) <==> WasOpened(s.broker, id) && !WasResolved(s.broker, id);
    hide Run, RunFrom, Inv, BrokerInv, WasOpened, WasResolved;
  }

  /** End of input leaves no approval pending, and refuses each of those that were. */
  lemma EndOfInputDeniesAll(events: seq<Event>, id: ApprovalId)
    requires Run(events).reader.Reading?
    ensures var s := Run(events);
      var s' := Step(s, InputEnds);
      && s'.broker.pending == []
      && (IsPending(s.broker.pending, id) ==>
            exists i :: |s.broker.log| <= i < |s'.broker.log| && s'.broker.log[i] == Resolved(id, false, StdinClosed))
  {
    var s := Run(events);
    var s' := Step(s, InputEnds);
    if IsPending(s.broker.pending, id) {
      var k :| 0 <= k < |s.broker.pending| && s.broker.pending[k].id == id;
      assert s'.broker.log[|s.broker.log| + k] == Resolved(id, false, StdinClosed);
    }
  }

  /** A timeout refuses the approval it was set for, if that is still pending. */
  lemma TimeoutRefuses(events: seq<Event>, id: ApprovalId)
    ensures var s := Run(events);
      var s' := Step(s, TimesOut(id));
      if IsPending(s.broker.pending, id) then Adds(s, s', id, false, Timeout) else s' == s
  {
  }

  lemma ScopeIsTheTurn(events: seq<Event>)
    ensures var s := Run(events); s.activeScope == if s.worker.InTurn? then Some(s.worker.turn) else None
  {
    InvAlong(INITIAL, events);
    hide Run, RunFrom, BrokerInv;
  }

  /** A signal cancels the turn under way, refuses exactly the approvals that listen to it, and keeps the others. */
  lemma SignalCancelsTheTurn(events: seq<Event>, t: TurnId)
    requires Run(events).worker == InTurn(t)
    ensures var s := Run(events);
      var s' := Step(s, Signal);
      && s'.cancelled == s.cancelled + {t}
      && (forall e :: e in s'.broker.pending <==> e in s.broker.pending && e.scope != Some(t))
      && s.broker.log <= s'.broker.log
      && (forall e :: e in s.broker.pending && e.scope == Some(t) ==>
            Resolved(e.id, false, Cancelled) in s'.broker.log[|s.broker.log|..])
  {
    ScopeIsTheTurn(events);
    AbortSettles(Run(events).broker, t);
    hide Run, Abort;
  }

  lemma AbortSettles(b: Broker, t: TurnId)
    ensures var b' := Abort(b, t);
      && (forall e :: e in b'.pending <==> e in b.pending && e.scope != Some(t))
      && b.log <= b'.log
      && (forall e :: e in b.pending && e.scope == Some(t) ==> Resolved(e.id, false, Cancelled) in b'.log[|b.log|..])
  {
    var gone := Listening(b.pending, t, true);
    var b' := Abort(b, t);
    forall e | e in b.pending && e.scope == Some(t)
      ensures Resolved(e.id, false, Cancelled) in b'.log[|b.log|..]
    {
      var k :| 0 <= k < |gone| && gone[k] == e;
      assert b'.log[|b.log|..][k] == Resolved(e.id, false, Cancelled);
    }
  }

  /**
   A new request is announced and waits, listening to the turn under way; in a turn that has been
   cancelled it is refused at once.
   */
  lemma RequestIsAnnounced(events: seq<Event>, id: ApprovalId)
    requires !WasOpened(Run(events).broker, id)
    ensures var s := Run(events);
      var s' := Step(s, ToolAsks(id));
      if s.worker.InTurn? && s.worker.turn in s.cancelled then
        && s'.broker.log == s.broker.log + [Opened(id), Resolved(id, false, Cancelled)]
        && s'.broker.pending == s.broker.pending
      else
        && s'.broker.log == s.broker.log + [Opened(id)]
        && s'.broker.pending == s.broker.pending + [Entry(id, if s.worker.InTurn? then Some(s.worker.turn) else None)]
  {
    ScopeIsTheTurn(events);
    hide Run, WasOpened;
  }

  /** What brought a resolution about is among the events, and only a decision to allow grants anything. */
  ghost predicate Caused(lines: seq<Line>, events: seq<Event>, r: Emitted)
    requires r.Resolved?
  {
    match r.cause
    case Explicit => Decision(r.id, r.granted) in lines
    case Timeout => !r.granted && TimesOut(r.id) in events
    case Cancelled => !r.granted && Signal in events
    case StdinClosed => !r.granted && InputEnds in events
  }

  /** What one event adds to the log it causes, or an earlier cancellation does. */
  lemma NewInLog(s: State, e: Event, r: Emitted)
    requires r.Resolved? && r in Step(s, e).broker.log && r !in s.broker.log
    ensures match r.cause
      case Explicit => s.reader.Reading? && e == ReadLine(Decision(r.id, r.granted))
      case Timeout => !r.granted && e == TimesOut(r.id)
      case Cancelled => !r.granted && (e == Signal || s.cancelled != {})
      case StdinClosed => !r.granted && e == InputEnds
  {
    hide WasOpened, IsPending;
  }

  lemma HeardMore(s: State, events: seq<Event>, l: Line)
    requires events != []
    ensures l in HeardFrom(Step(s, events[0]).reader, events[1..]) ==> l in HeardFrom(s.reader, events)
    ensures s.reader.Reading? && events[0] == ReadLine(l) ==> l in HeardFrom(s.reader, events)
    ensures s.cancelled == {} && Step(s, events[0]).cancelled != {} ==> events[0] == Signal
  {
    hide Finish, Request, DenyAll, Abort, WasOpened;
  }

  lemma {:induction false} ResolutionsFrom(s: State, events: seq<Event>, r: Emitted)
    requires r.Resolved? && r in RunFrom(s, events).broker.log && r !in s.broker.log
    ensures Caused(HeardFrom(s.reader, events), events, r) || (r.cause == Cancelled && !r.granted && s.cancelled != {})
    decreases |events|
  {
    var e, rest := events[0], events[1..];
    HeardMore(s, events, Decision(r.id, r.granted));
    hide HeardFrom, Step;
    if r in Step(s, e).broker.log {
      NewInLog(s, e, r);
    } else {
      ResolutionsFrom(Step(s, e), rest, r);
    }
    assert events == [e] + rest;
  }

  /** In every run each resolution has its cause among the events; only a decision that is heard grants anything. */
  lemma ResolutionsAreCaused(events: seq<Event>, r: Emitted)
    requires r.Resolved? && r in Run(events).broker.log
    ensures Caused(Heard(events, false), events, r)
  {
    ResolutionsFrom(INITIAL, events, r);
  }

  /** In every run, no approval waits on a turn that has been cancelled. */
  lemma CancelledTurnsWaitForNothing(events: seq<Event>, e: Entry)
    requires e in Run(events).broker.pending && e.scope.Some?
    ensures e.scope.value !in Run(events).cancelled
  {
    InvAlong(INITIAL, events);
  }
}
