/**
 The chunk queue between an agent run and its consumer (packages/agent/src/queue.ts).

 A call to `next()` returns a promise; here the n-th call is ticket n, and `settled` records which
 promises have been settled and how. The class is proved against a state with three parts: how
 many calls were made, which values were accepted, and whether the queue is open, closed or
 failed. What ticket n gets is then a closed formula, whatever order pushes and calls came in.
 */
module AsyncQueues {
  import opened Options

  datatype Phase<E> = Open | Closed | Failed(error: E)

  datatype Outcome<T, E> = Value(value: T) | End | Failure(error: E)

  datatype Event<T, E> = Push(value: T) | Next | Close | Fail(error: E)

  datatype State<T, E> = State(calls: nat, accepted: seq<T>, phase: Phase<E>)

  function Step<T, E>(s: State<T, E>, e: Event<T, E>): State<T, E> {
    match e
    case Push(v) => if s.phase.Open? then s.(accepted := s.accepted + [v]) else s
    case Next => s.(calls := s.calls + 1)
    case Close => if s.phase.Open? then s.(phase := Closed) else s
    case Fail(error) => if s.phase.Open? then s.(phase := Failed(error)) else s
  }

  /** What the promise of ticket `n` holds: the n-th accepted value, else how the queue ended, else nothing yet. */
  function Answer<T, E>(s: State<T, E>, n: nat): Option<Outcome<T, E>> {
    if n < |s.accepted| then Some(Value(s.accepted[n]))
    else match s.phase
      case Open => None
      case Closed => Some(End)
      case Failed(error) => Some(Failure(error))
  }

  function Run<T, E>(s: State<T, E>, events: seq<Event<T, E>>): State<T, E> {
    if events == [] then s else Step(Run(s, events[..|events| - 1]), events[|events| - 1])
  }

  function Empty<T, E>(): State<T, E> {
    State(0, [], Open)
  }

  // ----- what whole histories guarantee

  /** A settled promise never changes, whatever happens later. */
  lemma {:induction false} AnswersNeverChange<T, E>(s: State<T, E>, events: seq<Event<T, E>>, n: nat)
    requires Answer(s, n).Some?
    ensures Answer(Run(s, events), n) == Answer(s, n)
  {
    if events != [] {
      AnswersNeverChange(s, events[..|events| - 1], n);
    }
  }

  predicate Ends<T, E>(e: Event<T, E>) {
    e.Close? || e.Fail?
  }

  /** The values pushed before the first close or fail. */
  function PushedWhileOpen<T, E>(events: seq<Event<T, E>>): seq<T> {
    if events == [] || Ends(events[0]) then []
    else (if events[0].Push? then [events[0].value] else []) + PushedWhileOpen(events[1..])
  }

  function Calls<T, E>(events: seq<Event<T, E>>): nat {
    if events == [] then 0 else (if events[0].Next? then 1 else 0) + Calls(events[1..])
  }

  /** How the first close or fail leaves the queue. */
  function Ending<T, E>(events: seq<Event<T, E>>): Phase<E> {
    if events == [] then Open
    else match events[0]
      case Close => Closed
      case Fail(error) => Failed(error)
      case _ => Ending(events[1..])
  }

  lemma {:induction false} RunFromFront<T, E>(s: State<T, E>, events: seq<Event<T, E>>)
    requires events != []
    ensures Run(s, events) == Run(Step(s, events[0]), events[1..])
  {
    var front, last := events[..|events| - 1], events[|events| - 1];
    if |events| == 1 {
      assert front == [] && events[1..] == [];
    } else {
      RunFromFront(s, front);
      assert events[1..][..|events| - 2] == front[1..];
    }
  }

  /** Only pushes before the first close or fail are accepted, in order, and only the first ending counts. */
  lemma {:induction false} HistoryDecides<T, E>(s: State<T, E>, events: seq<Event<T, E>>)
    ensures Run(s, events).calls == s.calls + Calls(events)
    ensures s.phase.Open? ==>
      && Run(s, events).accepted == s.accepted + PushedWhileOpen(events)
      && Run(s, events).phase == Ending(events)
    ensures !s.phase.Open? ==> Run(s, events).accepted == s.accepted && Run(s, events).phase == s.phase
    decreases |events|
  {
    if events != [] {
      RunFromFront(s, events);
      HistoryDecides(Step(s, events[0]), events[1..]);
    }
  }

  /** The n-th call gets the n-th value pushed while open; calls beyond those get the ending, once there is one. */
  lemma NthCallGetsNthPush<T, E>(events: seq<Event<T, E>>, n: nat)
    ensures var pushed := PushedWhileOpen(events);
      Answer(Run(Empty(), events), n) ==
        if n < |pushed| then Some(Value(pushed[n]))
        else match Ending(events)
          case Open => None
          case Closed => Some(End)
          case Failed(error) => Some(Failure(error))
  {
    HistoryDecides<T, E>(Empty(), events);
  }

  // ----- the queue

  /** Parked calls are exactly the tickets past the accepted values. */
  lemma WaitersAreTheUnanswered(waiters: seq<nat>, accepted: nat, calls: nat)
    requires |waiters| == (if calls <= accepted then 0 else calls - accepted)
    requires forall i :: 0 <= i < |waiters| ==> waiters[i] == accepted + i
    ensures forall n: nat :: n in waiters <==> accepted <= n < calls
  {
    forall n: nat | accepted <= n < calls
      ensures n in waiters
    {
      assert waiters[n - accepted] == n;
    }
  }

  class AsyncQueue<T, E(0)> {
    var values: seq<T>
    var waiters: seq<nat>
    var closed: bool
    var failure: E
    var failed: bool
    var promises: nat  // how many promises `next()` has handed out; the next one is named by this number

    ghost var state: State<T, E>
    ghost var settled: map<nat, Outcome<T, E>>

    ghost predicate Valid()
      reads this
    {
      // the fields
      && promises == state.calls
      && (state.phase.Open? <==> !closed)
      && (state.phase.Failed? <==> failed)
      && (failed ==> state.phase == Failed(failure))
      && (if state.calls <= |state.accepted|
          then values == state.accepted[state.calls..] && waiters == []
          else values == [] && |waiters| == (if closed then 0 else state.calls - |state.accepted|)
               && forall i :: 0 <= i < |waiters| ==> waiters[i] == |state.accepted| + i)
      // the promises handed out
      && (forall n: nat :: n in settled <==> n < state.calls && Answer(state, n).Some?)
      && (forall n :: n in settled ==> Answer(state, n) == Some(settled[n]))
    }

    constructor ()
      ensures Valid() && state == Empty() && settled == map[]
    {
      values, waiters, closed, failed, promises := [], [], false, false, 0;
      state, settled := Empty(), map[];
    }

    /** Settling a promise: allowed once. */
    ghost method Settle(n: nat, outcome: Outcome<T, E>)
      requires n !in settled
      modifies this`settled
      ensures settled == old(settled)[n := outcome]
    {
      settled := settled[n := outcome];
    }

    method Push(value: T)
      requires Valid()
      modifies this
      ensures Valid() && state == Step(old(state), Event.Push(value))
      ensures forall n :: n in old(settled) ==> n in settled && settled[n] == old(settled)[n]
    {
      if closed {
        return;
      }
      state := Step(state, Event.Push(value));
      if |waiters| > 0 {
        var waiter := waiters[0];
        waiters := waiters[1..];
        Settle(waiter, Value(value));
      } else {
        values := values + [value];
      }
    }

    method Close()
      requires Valid()
      modifies this
      ensures Valid() && state == Step(old(state), Event.Close)
      ensures forall n :: n in old(settled) ==> n in settled && settled[n] == old(settled)[n]
    {
      if closed {
        return;
      }
      WaitersAreTheUnanswered(waiters, |state.accepted|, state.calls);
      closed := true;
      state := Step(state, Event.Close);
      SettleWaiters(End);
    }

    method Fail(err: E)
      requires Valid()
      modifies this
      ensures Valid() && state == Step(old(state), Event.Fail(err))
      ensures forall n :: n in old(settled) ==> n in settled && settled[n] == old(settled)[n]
    {
      if closed {
        return;
      }
      WaitersAreTheUnanswered(waiters, |state.accepted|, state.calls);
      closed, failed, failure := true, true, err;
      state := Step(state, Event.Fail(err));
      SettleWaiters(Failure(err));
    }

    /** The loop that both endings share: every parked call gets the outcome, first come first served. */
    method SettleWaiters(outcome: Outcome<T, E>)
      requires forall i, j :: 0 <= i < j < |waiters| ==> waiters[i] != waiters[j]
      requires forall n :: n in waiters ==> n !in settled
      modifies this`waiters, this`settled
      ensures waiters == []
      ensures forall n :: n in settled <==> n in old(settled) || n in old(waiters)
      ensures forall n :: n in settled ==> settled[n] == if n in old(waiters) then outcome else old(settled)[n]
    {
      ghost var done := 0;
      while |waiters| > 0
        invariant 0 <= done <= |old(waiters)| && waiters == old(waiters)[done..]
        invariant forall n :: n in settled <==> n in old(settled) || n in old(waiters)[..done]
        invariant forall n :: n in settled ==> settled[n] == if n in old(waiters) then outcome else old(settled)[n]
        decreases |waiters|
      {
        var waiter := waiters[0];
        waiters := waiters[1..];
        Settle(waiter, outcome);
        done := done + 1;
      }
    }

    /** `next()`: ticket `n`, and the outcome when the promise comes back settled. */
    method Next() returns (n: nat, outcome: Option<Outcome<T, E>>)
      requires Valid()
      modifies this
      ensures Valid() && state == Step(old(state), Event.Next)
      ensures n == old(state.calls) && outcome == Answer(state, n)
      ensures forall k :: k in old(settled) ==> k in settled && settled[k] == old(settled)[k]
    {
      n := promises;
      promises := promises + 1;
      state := Step(state, Event.Next);
      if |values| > 0 {
        outcome := Some(Value(values[0]));
        values := values[1..];
        Settle(n, outcome.value);
      } else if failed {
        outcome := Some(Failure(failure));
        Settle(n, outcome.value);
      } else if closed {
        outcome := Some(End);
        Settle(n, outcome.value);
      } else {
        outcome := None;
        waiters := waiters + [n];
      }
    }
  }
}
