/**
 The guard that keeps a provider handoff from repeating actions (packages/cli/src/transfer.ts,
 `GuardWindow` and the `actionGuard` closure).

 The guard mutates one window object per session. `Decide` is the same step on values; the
 closed formulas below say what it answers after any history of calls. The fingerprint's hash is
 taken to be injective, so a fingerprint is the text that is hashed.
 */
module ActionGuard {
  import opened CanonicalJson
  import opened Options

  type SessionId = string
  type TurnId = string
  type Fingerprint = string

  datatype Window = Window(
    remainingTurns: int,
    lastTurnId: Option<TurnId>,
    blockedFingerprints: set<Fingerprint>,
    blockedActionIds: set<string>,
    expectedWorkspace: Option<string>,
    workspaceValidated: bool)

  /** One guarded call; `workspace` is the workspace fingerprint the guard would read now. */
  datatype Call = Call(turnId: TurnId, isRead: bool, actionId: string, name: string, input: Json,
                       workspace: Option<string>)

  datatype Decision = Allowed | WorkspaceChanged | Repeats(protectedTurns: int)

  predicate Blocked(d: Decision) {
    !d.Allowed?
  }

  function FingerprintOf(c: Call): Fingerprint {
    Preimage(c.name, c.input)
  }

  predicate IsExpected(w: Window, workspace: Option<string>) {
    workspace.Some? && workspace.value != "" && workspace == w.expectedWorkspace
  }

  predicate ChecksWorkspace(w: Window) {
    w.expectedWorkspace.Some? && w.expectedWorkspace.value != ""
  }

  predicate IsRepeat(w: Window, c: Call) {
    c.actionId in w.blockedActionIds || FingerprintOf(c) in w.blockedFingerprints
  }

  /** The turn bookkeeping of one mutating call. */
  function NoteTurn(w: Window, turnId: TurnId): Window {
    if w.lastTurnId == Some(turnId) then w
    else w.(remainingTurns := if w.lastTurnId.Some? then w.remainingTurns - 1 else w.remainingTurns,
            lastTurnId := Some(turnId))
  }

  /** The window of a session, if it has one, after a call, and the answer to the call. */
  function Decide(w: Option<Window>, c: Call): (Option<Window>, Decision) {
    if w.None? || c.isRead then (w, Allowed)
    else
      var noted := NoteTurn(w.value, c.turnId);
      if noted.remainingTurns <= 0 then (None, Allowed)
      else if !noted.workspaceValidated && ChecksWorkspace(noted) && !IsExpected(noted, c.workspace) then
        (Some(noted), WorkspaceChanged)
      else
        var validated := noted.(workspaceValidated := noted.workspaceValidated || ChecksWorkspace(noted));
        (Some(validated), if IsRepeat(validated, c) then Repeats(validated.remainingTurns) else Allowed)
  }

  function After(w: Option<Window>, calls: seq<Call>): Option<Window> {
    if calls == [] then w else Decide(After(w, calls[..|calls| - 1]), calls[|calls| - 1]).0
  }

  // ----- what the guard answers after any history

  /** The turn of the last mutating call. */
  function LastTurn(calls: seq<Call>): Option<TurnId> {
    if calls == [] then None
    else if calls[|calls| - 1].isRead then LastTurn(calls[..|calls| - 1])
    else Some(calls[|calls| - 1].turnId)
  }

  /** How many times mutating calls moved to another turn, the first one included. */
  function Turns(calls: seq<Call>): nat {
    if calls == [] then 0
    else
      var front, last := calls[..|calls| - 1], calls[|calls| - 1];
      Turns(front) + if last.isRead || LastTurn(front) == Some(last.turnId) then 0 else 1
  }

  /** Some mutating call has found the expected workspace. */
  predicate WorkspaceSeen(w: Window, calls: seq<Call>) {
    exists k :: 0 <= k < |calls| && !calls[k].isRead && calls[k].workspace == w.expectedWorkspace
  }

  /** A window as a handoff opens it. */
  predicate IsFresh(w: Window) {
    w.lastTurnId.None? && !w.workspaceValidated
  }

  /** After any calls, the window is gone exactly when they spanned more mutating turns than it protects. */
  lemma {:induction false} WindowAfter(w: Window, calls: seq<Call>)
    requires IsFresh(w)
    ensures After(Some(w), calls).Some? <==> Turns(calls) == 0 || Turns(calls) <= w.remainingTurns
    ensures After(Some(w), calls).Some? ==>
      After(Some(w), calls).value ==
        w.(remainingTurns := if Turns(calls) == 0 then w.remainingTurns else w.remainingTurns - (Turns(calls) - 1),
           lastTurnId := LastTurn(calls),
           workspaceValidated := ChecksWorkspace(w) && WorkspaceSeen(w, calls))
    ensures Turns(calls) == 0 <==> LastTurn(calls).None?
  {
    if calls != [] {
      var front, last := calls[..|calls| - 1], calls[|calls| - 1];
      WindowAfter(w, front);
      SeenAfterOneMore(w, calls);
    }
  }

  lemma SeenAfterOneMore(w: Window, calls: seq<Call>)
    requires calls != []
    ensures var front, last := calls[..|calls| - 1], calls[|calls| - 1];
      WorkspaceSeen(w, calls) <==> WorkspaceSeen(w, front) || (!last.isRead && last.workspace == w.expectedWorkspace)
  {
    var front := calls[..|calls| - 1];
    if WorkspaceSeen(w, front) {
      var k :| 0 <= k < |front| && !front[k].isRead && front[k].workspace == w.expectedWorkspace;
      assert calls[k] == front[k];
    }
  }

  /** The answer to a call after any history, as one formula over the history. */
  lemma AnswerAfter(w: Window, calls: seq<Call>, c: Call)
    requires IsFresh(w)
    ensures var d := Decide(After(Some(w), calls), c).1;
      var guarded := !c.isRead && Turns(calls + [c]) <= w.remainingTurns;
      var checks := w.expectedWorkspace.Some? && w.expectedWorkspace.value != "";
      && (d == WorkspaceChanged <==> guarded && checks && !WorkspaceSeen(w, calls + [c]))
      && (d.Repeats? <==>
            && guarded && (checks ==> WorkspaceSeen(w, calls + [c]))
            && (c.actionId in w.blockedActionIds || Preimage(c.name, c.input) in w.blockedFingerprints))
      && (d.Repeats? ==> d.protectedTurns == w.remainingTurns - (Turns(calls + [c]) - 1))
  {
    assert (calls + [c])[..|calls|] == calls;
    WindowAfter(w, calls);
    WindowAfter(w, calls + [c]);
    SeenAfterOneMore(w, calls + [c]);
  }

  /** While the window protects a turn, nothing mutates an unexpected workspace and no blocked action runs again. */
  lemma ProtectedTurnsAreSafe(w: Window, calls: seq<Call>, c: Call)
    requires IsFresh(w) && !c.isRead && Turns(calls + [c]) <= w.remainingTurns
    requires Decide(After(Some(w), calls), c).1.Allowed?
    ensures w.expectedWorkspace.Some? && w.expectedWorkspace.value != "" ==>
      var all := calls + [c];
      exists k :: 0 <= k < |all| && !all[k].isRead && all[k].workspace == w.expectedWorkspace
    ensures c.actionId !in w.blockedActionIds
    ensures forall name, input :: Valid(input) && Valid(c.input) && Preimage(name, input) in w.blockedFingerprints ==>
      !(c.name == name && Equal(c.input, input))
  {
    AnswerAfter(w, calls, c);
    forall name, input | Valid(input) && Valid(c.input) && Preimage(name, input) in w.blockedFingerprints
      ensures !(c.name == name && Equal(c.input, input))
    {
      PreimageAgreesExactlyOnSameActions(c.name, c.input, name, input);
    }
  }

  /** With clean inputs the guard takes for repeats exactly the blocked ids and the actions equal to a blocked one. */
  lemma RepeatIff(w: Window, c: Call, blocked: set<(string, Json)>)
    requires Valid(c.input) && Clean(c.input) && forall b :: b in blocked ==> Valid(b.1) && Clean(b.1)
    requires w.blockedFingerprints == set b | b in blocked :: Preimage(b.0, b.1)
    ensures IsRepeat(w, c) <==>
      c.actionId in w.blockedActionIds || exists b :: b in blocked && b.0 == c.name && Equal(c.input, b.1)
  {
    forall b | b in blocked
      ensures Preimage(c.name, c.input) == Preimage(b.0, b.1) <==> c.name == b.0 && Equal(c.input, b.1)
    {
      PreimageAgreesExactlyOnSameActions(c.name, c.input, b.0, b.1);
    }
    hide Preimage, Equal, Valid, Clean;
  }

  /** With a "__proto__" member a blocked action makes the guard refuse a different one. */
  lemma ProtoRefusesAnother(w: Window, c: Call)
    requires w.remainingTurns > 0 && w.lastTurnId.None? && !ChecksWorkspace(w) && !c.isRead && c.input == Obj(End)
    requires Preimage(c.name, Obj(Member(PROTO, Str("x"), End))) in w.blockedFingerprints
    ensures Decide(Some(w), c).1.Repeats?
    ensures !Equal(c.input, Obj(Member(PROTO, Str("x"), End)))
  {
    ProtoCollides();
  }

  function WithoutReads(calls: seq<Call>): seq<Call> {
    if calls == [] then []
    else
      var front, last := WithoutReads(calls[..|calls| - 1]), calls[|calls| - 1];
      if last.isRead then front else front + [last]
  }

  lemma AfterOneMore(w: Option<Window>, calls: seq<Call>, c: Call)
    ensures After(w, calls + [c]) == Decide(After(w, calls), c).0
  {
    hide Decide;
    assert (calls + [c])[..|calls|] == calls;
  }

  lemma ReadStep(w: Option<Window>, c: Call)
    requires c.isRead
    ensures Decide(w, c) == (w, Allowed)
  {
  }

  lemma {:induction false} ReadsLeaveNoTrace(w: Option<Window>, calls: seq<Call>)
    ensures After(w, WithoutReads(calls)) == After(w, calls)
  {
    hide Decide, After;
    if calls == [] {
      assert WithoutReads(calls) == calls;
    } else {
      var front, last := calls[..|calls| - 1], calls[|calls| - 1];
      ReadsLeaveNoTrace(w, front);
      assert calls == front + [last];
      AfterOneMore(w, front, last);
      if last.isRead {
        ReadStep(After(w, front), last);
      } else {
        AfterOneMore(w, WithoutReads(front), last);
      }
    }
  }

  /** Reads are never refused, and leaving all of them out of a history changes no later answer. */
  lemma ReadsAreFree(w: Option<Window>, calls: seq<Call>, c: Call)
    ensures Decide(After(w, WithoutReads(calls)), c) == Decide(After(w, calls), c)
    ensures c.isRead ==> Decide(After(w, calls), c).1 == Allowed
  {
    hide Decide, After;
    ReadsLeaveNoTrace(w, calls);
    if c.isRead {
      ReadStep(After(w, calls), c);
    }
  }

  // ----- the objects

  class GuardWindow {
    var remainingTurns: int
    var lastTurnId: Option<TurnId>
    const blockedFingerprints: set<Fingerprint>
    const blockedActionIds: set<string>
    const expectedWorkspace: Option<string>
    var workspaceValidated: bool

    function View(): Window
      reads this
    {
      Window(remainingTurns, lastTurnId, blockedFingerprints, blockedActionIds, expectedWorkspace, workspaceValidated)
    }

    constructor (preventRetryWindow: int, fingerprints: set<Fingerprint>, actionIds: set<string>,
                 expected: Option<string>)
      ensures IsFresh(View())
      ensures View() == Window(preventRetryWindow, None, fingerprints, actionIds, expected, false)
    {
      remainingTurns, lastTurnId, workspaceValidated := preventRetryWindow, None, false;
      blockedFingerprints, blockedActionIds, expectedWorkspace := fingerprints, actionIds, expected;
    }
  }

  class Guard {
    var windows: map<SessionId, GuardWindow>

    /** No two sessions share a window object. */
    predicate Separate()
      reads this
    {
      forall s, t :: s in windows && t in windows && s != t ==> windows[s] != windows[t]
    }

    function View(s: SessionId): Option<Window>
      reads this, windows.Values
    {
      if s in windows then Some(windows[s].View()) else None
    }

    /** A handoff replaces whatever window the session had. */
    method Open(s: SessionId, w: GuardWindow)
      requires Separate() && forall t :: t in windows ==> windows[t] != w
      modifies this
      ensures Separate() && View(s) == Some(w.View())
      ensures forall t :: t != s ==> View(t) == old(View(t))
    {
      windows := windows[s := w];
    }

    method Check(s: SessionId, c: Call) returns (d: Decision)
      requires Separate()
      modifies this, windows.Values
      ensures Separate()
      ensures (View(s), d) == Decide(old(View(s)), c)
      ensures forall t :: t != s ==> View(t) == old(View(t))
    {
      if s !in windows || c.isRead {
        return Allowed;
      }
      var window := windows[s];
      if window.lastTurnId != Some(c.turnId) {
        if window.lastTurnId.Some? {
          window.remainingTurns := window.remainingTurns - 1;
        }
        window.lastTurnId := Some(c.turnId);
      }
      if window.remainingTurns <= 0 {
        windows := windows - {s};
        return Allowed;
      }
      if !window.workspaceValidated && window.expectedWorkspace.Some? && window.expectedWorkspace.value != "" {
        var current := c.workspace;
        if current.None? || current.value == "" || current.value != window.expectedWorkspace.value {
          return WorkspaceChanged;
        }
        window.workspaceValidated := true;
      }
      var fingerprint := FingerprintOf(c);
      if c.actionId in window.blockedActionIds || fingerprint in window.blockedFingerprints {
        return Repeats(window.remainingTurns);
      }
      d := Allowed;
    }
  }
}
