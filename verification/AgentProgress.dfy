/**
 What an agent run does to its plan under the built-in policies (packages/agent/src/policies.ts,
 packages/agent/src/runner.ts): criteria that are satisfied stay so, and a met goal leaves every
 criterion and the objective done.
 */
module AgentProgress {
  import opened Options
  import opened Strings
  import opened Verdicts
  import opened AgentPlan
  import opened TaskStores
  import opened AgentPolicies
  import opened AgentLoop
  import opened AgentBounds
  import opened AgentHonesty

  ghost predicate DefaultPlans(o: Settings) {
    o.policies.plan == DefaultPlan()
  }

  // ----- satisfied criteria

  /** Folding letter case never rewrites a text when a line is added after it. */
  ghost predicate LineWise(norm: Norm) {
    forall text: string, line: string :: norm(text) <= norm(text + ("\n" + line))
  }

  lemma ContainsInLonger(s: string, t: string, word: string)
    requires s <= t && Contains(s, word)
    ensures Contains(t, word)
  {
    var i :| 0 <= i <= |s| && At(s, i, word);
    assert s[i..i + |word|] == t[i..i + |word|];
    assert At(t, i, word);
  }

  lemma SatisfiedStays(norm: Norm, evidence: string, line: string, criterion: string)
    requires LineWise(norm)
    ensures Satisfied(norm, evidence, criterion) ==> Satisfied(norm, evidence + ("\n" + line), criterion)
  {
    if Satisfied(norm, evidence, criterion) {
      ContainsInLonger(norm(evidence), norm(evidence + ("\n" + line)), norm(criterion));
    }
  }

  lemma SatisfiedAfterStep(norm: Norm, evidence: string, a: Answer, criterion: string)
    requires LineWise(norm)
    ensures Satisfied(norm, evidence, criterion) ==> Satisfied(norm, Gathered(evidence, a), criterion)
  {
    SatisfiedStays(norm, evidence, TextOf(a) + ToolText(a.toolResults, |a.toolResults|), criterion);
    assert "\n" + (TextOf(a) + ToolText(a.toolResults, |a.toolResults|)) ==
      "\n" + TextOf(a) + ToolText(a.toolResults, |a.toolResults|);
  }

  // ----- the status that a list of edits leaves a task with

  function StatusAfter(ds: seq<Directive>, n: nat, id: TaskId, st: Status): Status
    requires n <= |ds|
  {
    if n == 0 then st
    else if ds[n - 1].Update? && ds[n - 1].id == id && ds[n - 1].status.Some? then ds[n - 1].status.value
    else StatusAfter(ds, n - 1, id, st)
  }

  lemma {:induction false} StatusIs(ts: Plan, ds: seq<Directive>, n: nat, id: TaskId)
    requires n <= |ds| && id in ts
    ensures var us := ApplyFirst(ts, ds, n);
      id in us && us[id].status == StatusAfter(ds, n, id, ts[id].status)
  {
    if n > 0 {
      StatusIs(ts, ds, n - 1, id);
    }
  }

  lemma {:induction false} StatusOfPrefix(ds: seq<Directive>, more: seq<Directive>, n: nat, id: TaskId, st: Status)
    requires n <= |ds|
    ensures StatusAfter(ds + more, n, id, st) == StatusAfter(ds, n, id, st)
  {
    if n > 0 {
      StatusOfPrefix(ds, more, n - 1, id, st);
    }
  }

  lemma {:induction false} StatusAppend(ds: seq<Directive>, more: seq<Directive>, n: nat, id: TaskId, st: Status)
    requires n <= |more|
    ensures StatusAfter(ds + more, |ds| + n, id, st) == StatusAfter(more, n, id, StatusAfter(ds, |ds|, id, st))
  {
    if n > 0 {
      StatusAppend(ds, more, n - 1, id, st);
    } else {
      StatusOfPrefix(ds, more, |ds|, id, st);
    }
  }

  lemma {:induction false} StatusOfMarks(norm: Norm, input: EvaluateInput, n: nat, i: nat, st: Status)
    requires n <= |input.goal.criteria| && i < |input.goal.criteria|
    ensures var ds := MarksFirst(norm, input, n);
      StatusAfter(ds, |ds|, Criterion(input.run, i), st)
        == if i < n && Satisfied(norm, input.evidence, input.goal.criteria[i]) then Done else st
  {
    hide Satisfied;
    if n > 0 {
      StatusOfMarks(norm, input, n - 1, i, st);
      var mark := Mark(norm, input, n - 1);
      StatusAppend(MarksFirst(norm, input, n - 1), mark, |mark|, Criterion(input.run, i), st);
    }
  }

  lemma StatusOfRepairs(norm: Norm, input: EvaluateInput, i: nat, st: Status)
    ensures var ds := Repairs(norm, input);
      var unmet := AgentPolicies.Unmet(norm, input);
      StatusAfter(ds, |ds|, Criterion(input.run, i), st) == if unmet != [] && unmet[0] == i then Blocked else st
  {
    hide AgentPolicies.Unmet, Detail;
    var ds := Repairs(norm, input);
    var id := Criterion(input.run, i);
    if |ds| == 2 {
      assert ds[1].Add?;
      assert StatusAfter(ds, 2, id, st) == StatusAfter(ds, 1, id, st);
    }
    assert ds != [] ==> StatusAfter(ds, 1, id, st) == if ds[0].Update? && ds[0].id == id then Blocked else st;
  }

  lemma {:induction false} StatusWithoutRecovery(ds: seq<Directive>, id: TaskId, st: Status)
    ensures var kept := WithoutRecovery(ds);
      StatusAfter(kept, |kept|, id, st) == StatusAfter(ds, |ds|, id, st)
  {
    if ds != [] {
      var front, last := ds[..|ds| - 1], ds[|ds| - 1];
      StatusWithoutRecovery(front, id, st);
      assert front + [last] == ds;
      StatusOfLast(front, last, id, st);
      StatusOfLast(WithoutRecovery(front), last, id, st);
      assert WithoutRecovery(front) + [] == WithoutRecovery(front);
      hide IsRecovery, StatusAfter;
      assert WithoutRecovery(ds) == WithoutRecovery(front) + if IsRecovery(last) then [] else [last];
      hide WithoutRecovery;
    }
  }

  lemma StatusOfLast(front: seq<Directive>, last: Directive, id: TaskId, st: Status)
    ensures StatusAfter(front + [last], |front + [last]|, id, st)
      == StatusAfter([last], 1, id, StatusAfter(front, |front|, id, st))
    ensures IsRecovery(last) ==>
      StatusAfter(front + [last], |front + [last]|, id, st) == StatusAfter(front, |front|, id, st)
  {
    StatusAppend(front, [last], 1, id, st);
  }

  lemma OpenIsNotSatisfied(norm: Norm, input: EvaluateInput)
    ensures var unmet := AgentPolicies.Unmet(norm, input);
      unmet != [] ==>
        unmet[0] < |input.goal.criteria| && !Satisfied(norm, input.evidence, input.goal.criteria[unmet[0]])
  {
    hide Satisfied;
    UnmetFirstIs(norm, input, |input.goal.criteria|);
    var unmet := AgentPolicies.Unmet(norm, input);
    if unmet != [] {
      assert unmet[0] in unmet;
    }
  }

  /** Done when satisfied, otherwise as it was or blocked. */
  predicate JudgedStatus(satisfied: bool, st: Status, after: Status) {
    if satisfied then after == Done else after == st || after == Blocked
  }

  lemma StatusOfJudgement(norm: Norm, input: EvaluateInput, i: nat, st: Status)
    requires i < |input.goal.criteria|
    ensures var marks, all := Marks(norm, input), Marks(norm, input) + Repairs(norm, input);
      var id, satisfied := Criterion(input.run, i), Satisfied(norm, input.evidence, input.goal.criteria[i]);
      && JudgedStatus(satisfied, st, StatusAfter(marks, |marks|, id, st))
      && JudgedStatus(satisfied, st, StatusAfter(all, |all|, id, st))
      && JudgedStatus(satisfied, st, StatusAfter(WithoutRecovery(all), |WithoutRecovery(all)|, id, st))
  {
    var id := Criterion(input.run, i);
    var marks, repairs := Marks(norm, input), Repairs(norm, input);
    assert marks == MarksFirst(norm, input, |input.goal.criteria|);
    hide Satisfied, Marks, MarksFirst, Repairs, WithoutRecovery, AgentPolicies.Unmet, StatusAfter;
    StatusOfMarks(norm, input, |input.goal.criteria|, i, st);
    StatusAppend(marks, repairs, |repairs|, id, st);
    StatusOfRepairs(norm, input, i, StatusAfter(marks, |marks|, id, st));
    OpenIsNotSatisfied(norm, input);
    StatusWithoutRecovery(marks + repairs, id, st);
  }

  /** What a step's edits do to a criterion's task. */
  lemma StatusOfEdits(agent: Agent, o: Settings, s: State, a: Answer, m: Option<int>, i: nat, st: Status)
    requires BuiltIn(agent, o, m) && i < |o.goal.criteria|
    ensures var ds := Settled(o, s, a).planEdits;
      var after := StatusAfter(ds, |ds|, Criterion(o.run, i), st);
      if CancelledBy(a) then after == st
      else JudgedStatus(Satisfied(agent.norm, Gathered(s.evidence, a), o.goal.criteria[i]), st, after)
  {
    StatusOfJudgement(agent.norm, Input(o, s, a), i, st);
    EditsOf(agent, o, s, a, m);
    NoEditsNoChange(Criterion(o.run, i), st);
    hide Settled, BuiltIn, Satisfied, Gathered, CancelledBy, Marks, Repairs, WithoutRecovery, StatusAfter, Failed,
         JudgedStatus;
  }

  lemma NoEditsNoChange(id: TaskId, st: Status)
    ensures StatusAfter([], 0, id, st) == st
  {
  }

  /** The edits of the built-in evaluations. */
  lemma EditsOf(agent: Agent, o: Settings, s: State, a: Answer, m: Option<int>)
    requires BuiltIn(agent, o, m)
    ensures var ds := Settled(o, s, a).planEdits;
      var marks, repairs := Marks(agent.norm, Input(o, s, a)), Repairs(agent.norm, Input(o, s, a));
      if CancelledBy(a) then ds == []
      else if !Failed(a.winner, a.partial, a.toolResults) then ds == marks
      else ds == if m.Some? && HandsOver(Input(o, s, a)) then WithoutRecovery(marks + repairs) else marks + repairs
  {
    hide Failed, MissingTool, Marks, Repairs, AgentPolicies.Unmet, WithoutRecovery, HandedGoal, Gathered;
  }

  // ----- whose tasks a run edits

  predicate OwnEdit(run: RunId, d: Directive) {
    match d.id
    case Root(r) => r == run
    case Criterion(r, _) => r == run
    case Recovery(_, _) => d.Add?
    case Other(_) => false
  }

  predicate Own(run: RunId, ds: seq<Directive>) {
    forall d :: d in ds ==> OwnEdit(run, d)
  }

  /** A task of another run, or a recovery task that exists already. */
  predicate OutOfReach(run: RunId, ts: Plan, id: TaskId) {
    match id
    case Root(r) => r != run
    case Criterion(r, _) => r != run
    case Recovery(_, _) => id in ts
    case Other(_) => true
  }

  lemma {:induction false} OwnEditsSpare(run: RunId, ts: Plan, ds: seq<Directive>, n: nat, id: TaskId)
    requires n <= |ds| && Own(run, ds) && OutOfReach(run, ts, id)
    ensures SameAt(ts, ApplyFirst(ts, ds, n), id)
  {
    if n > 0 {
      OwnEditsSpare(run, ts, ds, n - 1, id);
      assert OwnEdit(run, ds[n - 1]);
    }
  }

  lemma {:induction false} MarksAreOwn(norm: Norm, input: EvaluateInput, n: nat)
    requires n <= |input.goal.criteria|
    ensures Own(input.run, MarksFirst(norm, input, n))
  {
    hide Satisfied;
    if n > 0 {
      MarksAreOwn(norm, input, n - 1);
    }
  }

  lemma EditsAreOwn(agent: Agent, o: Settings, s: State, a: Answer, m: Option<int>)
    requires BuiltIn(agent, o, m)
    ensures Own(o.run, Settled(o, s, a).planEdits)
  {
    EditsOf(agent, o, s, a, m);
    MarksAreOwn(agent.norm, Input(o, s, a), |o.goal.criteria|);
    assert Own(o.run, Repairs(agent.norm, Input(o, s, a)));
    hide Settled, BuiltIn, Satisfied, Gathered, CancelledBy, MarksFirst, Repairs, Failed;
  }

  lemma PlanIsOwn(o: Settings, s: State)
    requires DefaultPlans(o)
    ensures Own(o.run, Planned(o, s)) && (s.steps != [] ==> Planned(o, s) == [])
  {
  }

  lemma ReflectSpares(agent: Agent, o: Settings, s: State, a: Answer, m: Option<int>, id: TaskId)
    requires BuiltIn(agent, o, m) && DefaultPlans(o) && OutOfReach(o.run, s.tasks, id)
    ensures SameAt(s.tasks, TasksReflected(o, s, a), id)
  {
    PlanIsOwn(o, s);
    EditsAreOwn(agent, o, s, a, m);
    hide Settled, BuiltIn, Planned, RootAfter, Own;
    OwnEditsSpare(o.run, s.tasks, Planned(o, s), |Planned(o, s)|, id);
    var planned := TasksPlanned(o, s);
    var edits := Settled(o, s, a).planEdits;
    OwnEditsSpare(o.run, planned, edits, |edits|, id);
  }

  /** A run without delegation leaves other runs' tasks alone; any built-in run leaves earlier recovery tasks alone. */
  lemma {:induction false} LoopSpares(agent: Agent, o: Settings, s: State, k: nat, w: World, m: Option<int>, id: TaskId)
    requires BuiltIn(agent, o, m) && DefaultPlans(o) && OutOfReach(o.run, s.tasks, id) && (m.None? || id.Recovery?)
    ensures SameAt(s.tasks, Loop(agent, o, s, k, w).0.tasks, id)
    decreases w, 1
  {
    LoopCases(agent, o, s, k, w);
    hide Loop;
    if k > 0 && w.Turn? {
      IterateSpares(agent, o, s, w, m, id);
      hide Iterate, BuiltIn, DefaultPlans;
      var (t, stop) := Iterate(agent, o, s, w);
      if stop.None? {
        LoopSpares(agent, o, t, k - 1, w.rest, m, id);
      }
    }
  }

  lemma {:induction false} IterateSpares(agent: Agent, o: Settings, s: State, w: World, m: Option<int>, id: TaskId)
    requires w.Turn? && BuiltIn(agent, o, m) && DefaultPlans(o)
    requires OutOfReach(o.run, s.tasks, id) && (m.None? || id.Recovery?)
    ensures SameAt(s.tasks, Iterate(agent, o, s, w).0.tasks, id)
    decreases w, 0
  {
    var r := Settled(o, s, w.answer);
    var t := Reflect(o, s, w.answer);
    ReflectSpares(agent, o, s, w.answer, m, id);
    BuiltInAnswers(agent, o, s, w.answer, m, Record(w.answer, "", r, 0));
    if r.delegate.Some? {
      SubRunSpares(agent, o, |s.steps|, r.delegate.value, t.tasks, w.child, id);
    }
    hide Settled, Assessment, TasksReflected, RootAfter, Gathered, Run, Turns, LastText, Decide, BuiltIn, Handed,
         CountsAsRetry;
  }

  lemma {:induction false} SubRunSpares(agent: Agent, o: Settings, step: nat, d: Delegation, ts: Plan, w: World,
                                        id: TaskId)
    requires OutOfReach(o.run + [step], ts, id)
    ensures SameAt(ts, Run(agent, SubSettings(o, step, d, agent.norm, agent.verify), ts, w).0, id)
    decreases w, 2
  {
    var sub := SubSettings(o, step, d, agent.norm, agent.verify);
    assert BuiltIn(agent, sub, None) && DefaultPlans(sub);
    LoopSpares(agent, sub, Start(ts), Budget(sub), w, None, id);
    hide Loop;
  }

  // ----- criteria over a whole run

  /** The run's own tasks exist, and a criterion marked done occurs in the evidence. */
  predicate Tracked(agent: Agent, o: Settings, s: State) {
    && s.steps != [] && s.rootCreated && Root(o.run) in s.tasks
    && forall i :: 0 <= i < |o.goal.criteria| ==> Tracks(agent, o, s.tasks, s.evidence, i)
  }

  predicate Tracks(agent: Agent, o: Settings, ts: Plan, evidence: string, i: nat)
    requires i < |o.goal.criteria|
  {
    && Criterion(o.run, i) in ts
    && (ts[Criterion(o.run, i)].status == Done ==> Satisfied(agent.norm, evidence, o.goal.criteria[i]))
  }

  /** No task carries the run's identifier yet. */
  predicate Fresh(o: Settings, ts: Plan) {
    forall id :: id in ts ==> (id.Root? ==> id.run != o.run) && (id.Criterion? ==> id.run != o.run)
  }

  /** A run that has not begun, in a store without its tasks, or one under way. */
  predicate OnTrack(agent: Agent, o: Settings, s: State) {
    Tracked(agent, o, s) || (s.steps == [] && Fresh(o, s.tasks))
  }

  predicate IsDone(ts: Plan, id: TaskId) {
    id in ts && ts[id].status == Done
  }

  /** A criterion done in `ts` is done in `us`. */
  predicate StayDone(o: Settings, ts: Plan, us: Plan) {
    forall i :: 0 <= i < |o.goal.criteria| && IsDone(ts, Criterion(o.run, i)) ==> IsDone(us, Criterion(o.run, i))
  }

  lemma {:induction false} DraftedFirst(o: Settings, ts: Plan, n: nat)
    requires Fresh(o, ts) && n <= |o.goal.criteria|
    ensures var us := ApplyFirst(ts, Draft(o.goal, o.run), n + 1);
      && Root(o.run) in us && us[Root(o.run)].title == o.goal.objective && us[Root(o.run)].parentId == None
      && us[Root(o.run)].status == InProgress
      && (forall i :: 0 <= i < n ==>
            && Criterion(o.run, i) in us && us[Criterion(o.run, i)].title == o.goal.criteria[i]
            && us[Criterion(o.run, i)].parentId == Some(Root(o.run)) && us[Criterion(o.run, i)].status == Todo)
      && (forall i :: n <= i < |o.goal.criteria| ==> Criterion(o.run, i) !in us)
  {
    if n == 0 {
      assert ApplyFirst(ts, Draft(o.goal, o.run), 0) == ts;
    } else {
      DraftedFirst(o, ts, n - 1);
      assert Draft(o.goal, o.run)[n] == CriterionTask(o.goal, o.run, n - 1);
    }
  }

  /** After planning, the run's tasks exist, and none is done that was not before. */
  lemma PlannedTasks(agent: Agent, o: Settings, s: State)
    requires DefaultPlans(o) && OnTrack(agent, o, s)
    ensures var ts := TasksPlanned(o, s);
      && Root(o.run) in ts && RootAfter(o, s)
      && (forall i :: 0 <= i < |o.goal.criteria| ==> Tracks(agent, o, ts, s.evidence, i))
      && StayDone(o, s.tasks, ts)
  {
    hide Satisfied;
    if s.steps == [] {
      DraftedFirst(o, s.tasks, |o.goal.criteria|);
      assert Planned(o, s) == Draft(o.goal, o.run);
    } else {
      NothingToApply(s.tasks);
      assert Planned(o, s) == [];
    }
  }

  /** The step is judged, and finds the criterion satisfied. */
  predicate IsMarked(agent: Agent, o: Settings, s: State, a: Answer, i: nat)
    requires i < |o.goal.criteria|
  {
    !CancelledBy(a) && Satisfied(agent.norm, Gathered(s.evidence, a), o.goal.criteria[i])
  }

  /**
   One step on one criterion's task: done stays done, done means satisfied, and satisfied is marked
   unless cancelled.
   */
  lemma CriterionAfterStep(agent: Agent, o: Settings, s: State, a: Answer, m: Option<int>, i: nat)
    requires BuiltIn(agent, o, m) && LineWise(agent.norm) && i < |o.goal.criteria|
    requires Tracks(agent, o, TasksPlanned(o, s), s.evidence, i)
    ensures var ts := TasksReflected(o, s, a);
      && Tracks(agent, o, ts, Gathered(s.evidence, a), i)
      && (IsDone(TasksPlanned(o, s), Criterion(o.run, i)) ==> IsDone(ts, Criterion(o.run, i)))
      && (IsMarked(agent, o, s, a, i) ==> IsDone(ts, Criterion(o.run, i)))
  {
    var id := Criterion(o.run, i);
    var planned := TasksPlanned(o, s);
    var edits := Settled(o, s, a).planEdits;
    SatisfiedAfterStep(agent.norm, s.evidence, a, o.goal.criteria[i]);
    StatusOfEdits(agent, o, s, a, m, i, planned[id].status);
    StatusIs(planned, edits, |edits|, id);
    hide Settled, BuiltIn, Satisfied, Gathered, CancelledBy, RootAfter, TasksPlanned, LineWise, StatusAfter, ApplyFirst;
  }

  lemma RootAfterStep(o: Settings, s: State, a: Answer)
    requires Root(o.run) in TasksPlanned(o, s) && RootAfter(o, s)
    ensures Root(o.run) in TasksReflected(o, s, a)
    ensures Settled(o, s, a).goalMet ==> IsDone(TasksReflected(o, s, a), Root(o.run))
  {
    var edits := Settled(o, s, a).planEdits;
    Stays(TasksPlanned(o, s), edits, |edits|, Root(o.run));
    hide Settled, RootAfter, TasksPlanned, ApplyFirst;
  }

  /** One step of a tracked run. */
  lemma ReflectTracks(agent: Agent, o: Settings, s: State, a: Answer, m: Option<int>)
    requires BuiltIn(agent, o, m) && DefaultPlans(o) && LineWise(agent.norm)
    requires OnTrack(agent, o, s)
    ensures var t := Reflect(o, s, a);
      && Tracked(agent, o, t)
      && StayDone(o, s.tasks, t.tasks)
      && (Settled(o, s, a).goalMet ==> AllDone(o, t.tasks))
  {
    PlannedTasks(agent, o, s);
    RootAfterStep(o, s, a);
    forall i | 0 <= i < |o.goal.criteria|
      ensures Tracks(agent, o, TasksReflected(o, s, a), Gathered(s.evidence, a), i)
      ensures IsDone(TasksPlanned(o, s), Criterion(o.run, i)) ==> IsDone(TasksReflected(o, s, a), Criterion(o.run, i))
      ensures IsMarked(agent, o, s, a, i) ==> IsDone(TasksReflected(o, s, a), Criterion(o.run, i))
    {
      CriterionAfterStep(agent, o, s, a, m, i);
    }
    var rec := Record(a, Gathered(s.evidence, a), Settled(o, s, a), 0);
    BuiltInMeets(agent, o, s, a, m, rec);
    hide Settled, BuiltIn, Satisfied, Gathered, CancelledBy, RootAfter, TasksPlanned, TasksReflected, LineWise,
         DefaultPlans, Assessment, Turns, LastText, Failed;
  }

  /** The objective and every criterion are done. */
  predicate AllDone(o: Settings, ts: Plan) {
    IsDone(ts, Root(o.run)) && forall i :: 0 <= i < |o.goal.criteria| ==> IsDone(ts, Criterion(o.run, i))
  }

  lemma IterateTracks(agent: Agent, o: Settings, s: State, w: World, m: Option<int>)
    requires w.Turn? && BuiltIn(agent, o, m) && DefaultPlans(o) && LineWise(agent.norm)
    requires OnTrack(agent, o, s)
    ensures var (t, stop) := Iterate(agent, o, s, w);
      && Tracked(agent, o, t)
      && StayDone(o, s.tasks, t.tasks)
      && (stop == Some(GoalMet) ==> AllDone(o, t.tasks))
  {
    var r := Settled(o, s, w.answer);
    var t := Reflect(o, s, w.answer);
    ReflectTracks(agent, o, s, w.answer, m);
    BuiltInAnswers(agent, o, s, w.answer, m, Record(w.answer, "", r, 0));
    BuiltInMeets(agent, o, s, w.answer, m, Record(w.answer, Gathered(s.evidence, w.answer), r, 0));
    if r.delegate.Some? {
      JoinTracks(agent, o, s, t, r.delegate.value, w.child);
    }
    hide Settled, Reflect, Run, BuiltIn, Handed, CountsAsRetry, Tracked, AllDone, LineWise, DefaultPlans, Fresh,
         MetStep;
    TrackedWhatever(agent, o);
  }

  /** The retry count plays no part in what is tracked. */
  lemma TrackedWhatever(agent: Agent, o: Settings)
    ensures forall s: State, n: nat :: Tracked(agent, o, s) ==> Tracked(agent, o, s.(retries := n))
  {
  }

  /** A sub-agent's run and its text leave the parent's criteria as they were. */
  lemma JoinTracks(agent: Agent, o: Settings, s: State, t: State, d: Delegation, w: World)
    requires Tracked(agent, o, t) && LineWise(agent.norm)
    ensures var (ts, sub) := Run(agent, SubSettings(o, |s.steps|, d, agent.norm, agent.verify), t.tasks, w);
      && Tracked(agent, o, Joined(t, ts, sub))
      && StayDone(o, t.tasks, ts)
  {
    var (ts, sub) := Run(agent, SubSettings(o, |s.steps|, d, agent.norm, agent.verify), t.tasks, w);
    SubRunSpares(agent, o, |s.steps|, d, t.tasks, w, Root(o.run));
    hide Run, Satisfied, LineWise;
    forall i | 0 <= i < |o.goal.criteria|
      ensures SameAt(t.tasks, ts, Criterion(o.run, i)) && Tracks(agent, o, ts, t.evidence + ("\n" + sub.finalText), i)
    {
      SubRunSpares(agent, o, |s.steps|, d, t.tasks, w, Criterion(o.run, i));
      assert Tracks(agent, o, t.tasks, t.evidence, i);
      SatisfiedStays(agent.norm, t.evidence, sub.finalText, o.goal.criteria[i]);
    }
  }

  /**
   From any point of a run on: a criterion marked done stays done to the end, one marked done
   occurs in the evidence, and a met goal leaves the objective and every criterion done.
   */
  lemma {:induction false} CriteriaOnlyProgress(agent: Agent, o: Settings, s: State, k: nat, w: World, m: Option<int>)
    requires BuiltIn(agent, o, m) && DefaultPlans(o) && LineWise(agent.norm)
    requires OnTrack(agent, o, s)
    ensures var (t, stop) := Loop(agent, o, s, k, w);
      && OnTrack(agent, o, t)
      && StayDone(o, s.tasks, t.tasks)
      && (stop == GoalMet ==> AllDone(o, t.tasks))
    decreases w
  {
    hide BuiltIn, DefaultPlans, LineWise, Tracked, Fresh, AllDone;
    LoopCases(agent, o, s, k, w);
    hide Loop;
    if k > 0 && w.Turn? {
      IterateTracks(agent, o, s, w, m);
      hide Iterate, IsDone;
      var (t, stop) := Iterate(agent, o, s, w);
      if stop.None? {
        hide StayDone;
        CriteriaOnlyProgress(agent, o, t, k - 1, w.rest, m);
        Moved(agent, o, s, t, Loop(agent, o, t, k - 1, w.rest).0);
      }
    }
  }

  lemma Moved(agent: Agent, o: Settings, s: State, t: State, u: State)
    requires Tracked(agent, o, t) && StayDone(o, s.tasks, t.tasks) && StayDone(o, t.tasks, u.tasks)
    ensures StayDone(o, s.tasks, u.tasks)
  {
  }

  /** A goal reported met leaves the objective and every criterion done in the plan. */
  lemma MetGoalIsAllDone(agent: Agent, o: Settings, tasks: Plan, w: World, m: Option<int>)
    requires BuiltIn(agent, o, m) && DefaultPlans(o) && LineWise(agent.norm) && Fresh(o, tasks)
    ensures var (ts, r) := Run(agent, o, tasks, w);
      r.goalMet ==> AllDone(o, ts)
  {
    CriteriaOnlyProgress(agent, o, Start(tasks), Budget(o), w, m);
    hide Loop, BuiltIn, DefaultPlans, LineWise, AllDone;
  }

  // ----- tasks under the objective

  predicate OwnId(o: Settings, id: TaskId) {
    match id
    case Root(r) => r == o.run
    case Criterion(r, i) => r == o.run && i < |o.goal.criteria|
    case Recovery(role, _) => role == o.role
    case Other(_) => false
  }

  predicate AtTopOrUnder(run: RunId, parent: Option<TaskId>) {
    parent.None? || parent == Some(Root(run))
  }

  predicate GrowsAt(o: Settings, ts: Plan, us: Plan, id: TaskId) {
    && (id in ts ==> id in us && us[id].parentId == ts[id].parentId)
    && (id in us && id !in ts ==> OwnId(o, id) && AtTopOrUnder(o.run, us[id].parentId))
  }

  /** `us` is `ts` with tasks of this run added, at the top or under its objective; no task has moved. */
  ghost predicate Grows(o: Settings, ts: Plan, us: Plan) {
    forall id :: GrowsAt(o, ts, us, id)
  }

  predicate AddsOwn(o: Settings, d: Directive) {
    d.Add? ==> OwnId(o, d.id) && AtTopOrUnder(o.run, d.parent)
  }

  lemma GrowsOn(o: Settings, ts: Plan, us: Plan, vs: Plan)
    requires Grows(o, ts, us) && Grows(o, us, vs)
    ensures Grows(o, ts, vs)
  {
    hide OwnId;
    forall id
      ensures GrowsAt(o, ts, vs, id)
    {
      assert GrowsAt(o, ts, us, id) && GrowsAt(o, us, vs, id);
    }
  }

  lemma GrowsByOne(o: Settings, ts: Plan, d: Directive)
    requires AddsOwn(o, d)
    ensures Grows(o, ts, ApplyOne(ts, d))
  {
    hide OwnId;
  }

  lemma {:induction false} GrowsByEdits(o: Settings, ts: Plan, ds: seq<Directive>, n: nat)
    requires n <= |ds| && forall d :: d in ds ==> AddsOwn(o, d)
    ensures Grows(o, ts, ApplyFirst(ts, ds, n))
  {
    if n > 0 {
      GrowsByEdits(o, ts, ds, n - 1);
      var us := ApplyFirst(ts, ds, n - 1);
      GrowsByOne(o, us, ds[n - 1]);
      GrowsOn(o, ts, us, ApplyOne(us, ds[n - 1]));
      hide Grows, AddsOwn;
    }
  }

  lemma EditsAddOwn(agent: Agent, o: Settings, s: State, a: Answer, m: Option<int>)
    requires BuiltIn(agent, o, m)
    ensures forall d :: d in Settled(o, s, a).planEdits ==> AddsOwn(o, d)
  {
    var input := Input(o, s, a);
    EditsOf(agent, o, s, a, m);
    MarksAreUpdates(agent.norm, input, |o.goal.criteria|);
    RepairsAddOwn(agent.norm, o, input);
    hide Settled, BuiltIn, MarksFirst, Repairs, Failed, Gathered, OwnId, AtTopOrUnder;
  }

  lemma RepairsAddOwn(norm: Norm, o: Settings, input: EvaluateInput)
    requires input.role == o.role && input.run == o.run
    ensures forall d :: d in Repairs(norm, input) ==> AddsOwn(o, d)
  {
    hide AgentPolicies.Unmet, Detail;
  }

  lemma PlanAddsOwn(o: Settings, s: State)
    requires DefaultPlans(o)
    ensures forall d :: d in Planned(o, s) ==> AddsOwn(o, d) && !d.id.Recovery?
  {
  }

  lemma ReflectGrows(agent: Agent, o: Settings, s: State, a: Answer, m: Option<int>)
    requires BuiltIn(agent, o, m) && DefaultPlans(o)
    ensures Grows(o, s.tasks, TasksReflected(o, s, a))
  {
    PlanAddsOwn(o, s);
    EditsAddOwn(agent, o, s, a, m);
    hide Settled, BuiltIn, Planned, RootAfter, OwnId, AddsOwn, Grows;
    var planned, edits := TasksPlanned(o, s), Settled(o, s, a).planEdits;
    GrowsByEdits(o, s.tasks, Planned(o, s), |Planned(o, s)|);
    GrowsByEdits(o, planned, edits, |edits|);
    GrowsOn(o, s.tasks, planned, Apply(planned, edits));
    RootCloses(o, Apply(planned, edits), Settled(o, s, a).goalMet && RootAfter(o, s));
    GrowsOn(o, s.tasks, Apply(planned, edits), TasksReflected(o, s, a));
  }

  lemma RootCloses(o: Settings, ts: Plan, close: bool)
    ensures Grows(o, ts, CloseRoot(ts, o.run, close))
  {
  }

  /** A run without delegation adds tasks of its own only. */
  lemma {:induction false} LoopGrows(agent: Agent, o: Settings, s: State, k: nat, w: World)
    requires BuiltIn(agent, o, None) && DefaultPlans(o)
    ensures Grows(o, s.tasks, Loop(agent, o, s, k, w).0.tasks)
    decreases w
  {
    LoopCases(agent, o, s, k, w);
    hide Loop;
    if k > 0 && w.Turn? {
      ReflectGrows(agent, o, s, w.answer, None);
      TasksAlone(agent, o, s, w);
      hide Iterate, BuiltIn, DefaultPlans;
      var (t, stop) := Iterate(agent, o, s, w);
      if stop.None? {
        LoopGrows(agent, o, t, k - 1, w.rest);
        GrowsOn(o, s.tasks, t.tasks, Loop(agent, o, t, k - 1, w.rest).0.tasks);
      }
    }
  }

  lemma TasksAlone(agent: Agent, o: Settings, s: State, w: World)
    requires w.Turn? && BuiltIn(agent, o, None)
    ensures Iterate(agent, o, s, w).0.tasks == TasksReflected(o, s, w.answer)
  {
    BuiltInAnswers(agent, o, s, w.answer, None, Record(w.answer, "", Settled(o, s, w.answer), 0));
    hide Settled, Iterate, TasksReflected, Run, BuiltIn;
    TasksAfterStep(agent, o, s, w);
  }

  lemma SubRunGrows(agent: Agent, o: Settings, step: nat, d: Delegation, ts: Plan, w: World)
    ensures var sub := SubSettings(o, step, d, agent.norm, agent.verify);
      Grows(sub, ts, Run(agent, sub, ts, w).0)
  {
    var sub := SubSettings(o, step, d, agent.norm, agent.verify);
    assert BuiltIn(agent, sub, None) && DefaultPlans(sub);
    LoopGrows(agent, sub, Start(ts), Budget(sub), w);
    hide Loop, Grows;
  }

  // ----- recovery tasks

  /** An unfinished recovery task under the run's objective. */
  predicate IsOpen(ts: Plan, id: TaskId, run: RunId) {
    id in ts && ts[id].status == Todo && ts[id].parentId == Some(Root(run))
  }

  /** The step counts against the retry budget, which is not spent. */
  predicate IsRetried(o: Settings, m: Option<int>, s: State, rec: Record) {
    CountsAsRetry(o, m, rec) && s.retries < o.maxRetries
  }

  lemma {:induction false} NotAdded(ts: Plan, ds: seq<Directive>, n: nat, id: TaskId)
    requires n <= |ds| && id !in ts && forall d :: d in ds && d.id == id ==> d.Update?
    ensures id !in ApplyFirst(ts, ds, n)
  {
    if n > 0 {
      NotAdded(ts, ds, n - 1, id);
      assert ds[n - 1] in ds;
    }
  }

  /** The only recovery task a step adds is its own, if it will be retried: last, and under the run's objective. */
  lemma RecoveryEdits(agent: Agent, o: Settings, s: State, a: Answer, m: Option<int>, rec: Record)
    requires BuiltIn(agent, o, m) && rec.answer == a
    ensures var ds := Settled(o, s, a).planEdits;
      && (forall d :: d in ds && d.id.Recovery? ==> d.id == Recovery(o.role, |s.steps|) && IsRetried(o, m, s, rec))
      && (IsRetried(o, m, s, rec) ==> EndsInRecovery(ds, Recovery(o.role, |s.steps|), o.run))
  {
    var input := Input(o, s, a);
    EditsOf(agent, o, s, a, m);
    MarksAreUpdates(agent.norm, input, |o.goal.criteria|);
    RepairsEnd(agent.norm, input);
    hide Settled, BuiltIn, MarksFirst, Repairs, Failed, Gathered, MissingTool, CancelledBy;
  }

  predicate EndsInRecovery(ds: seq<Directive>, id: TaskId, run: RunId) {
    && ds != []
    && ds[|ds| - 1].Add? && ds[|ds| - 1].id == id
    && ds[|ds| - 1].parent == Some(Root(run)) && ds[|ds| - 1].status == None
    && forall i :: 0 <= i < |ds| - 1 ==> ds[i].Update?
  }

  lemma {:induction false} MarksAreUpdates(norm: Norm, input: EvaluateInput, n: nat)
    requires n <= |input.goal.criteria|
    ensures forall d :: d in MarksFirst(norm, input, n) ==> d.Update? && d.id.Criterion?
  {
    hide Satisfied;
    if n > 0 {
      MarksAreUpdates(norm, input, n - 1);
    }
  }

  lemma RepairsEnd(norm: Norm, input: EvaluateInput)
    ensures forall d :: d in Repairs(norm, input) && d.id.Recovery? ==>
      d.id == Recovery(input.role, input.step) && input.retriesUsed < input.maxRetries && IsRecovery(d)
    ensures input.retriesUsed < input.maxRetries ==>
      EndsInRecovery(Repairs(norm, input), Recovery(input.role, input.step), input.run)
  {
    hide AgentPolicies.Unmet, Detail;
  }

  lemma LastAdds(ts: Plan, ds: seq<Directive>, id: TaskId, run: RunId)
    requires EndsInRecovery(ds, id, run) && id !in ts && Root(run) in ts
    ensures IsOpen(Apply(ts, ds), id, run)
  {
    var front := ds[..|ds| - 1];
    assert ds == front + [ds[|ds| - 1]];
    ApplyFirstOfMore(ts, front, [ds[|ds| - 1]], |front|);
    NotAdded(ts, front, |front|, id);
    Stays(ts, front, |front|, Root(run));
  }

  /** What a step does to the recovery tasks of its role: one that will be retried opens its own, no other is added. */
  lemma RecoveryAfterStep(agent: Agent, o: Settings, s: State, a: Answer, m: Option<int>, rec: Record, j: nat)
    requires BuiltIn(agent, o, m) && DefaultPlans(o) && rec.answer == a && Root(o.run) in TasksPlanned(o, s)
    requires Recovery(o.role, j) !in s.tasks
    ensures j == |s.steps| && IsRetried(o, m, s, rec) ==> IsOpen(TasksReflected(o, s, a), Recovery(o.role, j), o.run)
    ensures !(j == |s.steps| && IsRetried(o, m, s, rec)) ==> Recovery(o.role, j) !in TasksReflected(o, s, a)
  {
    var planned, edits := TasksPlanned(o, s), Settled(o, s, a).planEdits;
    PlanAddsOwn(o, s);
    NotAdded(s.tasks, Planned(o, s), |Planned(o, s)|, Recovery(o.role, j));
    RecoveryEdits(agent, o, s, a, m, rec);
    if j == |s.steps| && IsRetried(o, m, s, rec) {
      LastAdds(planned, edits, Recovery(o.role, j), o.run);
    } else {
      NotAdded(planned, edits, |edits|, Recovery(o.role, j));
    }
    hide Settled, BuiltIn, TasksPlanned, Planned, Apply, IsRetried;
  }

  /** Among the first `n` steps, the step was retried and left a recovery task that was not there at the start. */
  predicate LeftTask(o: Settings, m: Option<int>, start: Plan, steps: seq<Record>, n: nat, j: nat)
    requires n <= |steps|
  {
    j < n && CountsAsRetry(o, m, steps[j]) && Recovery(o.role, j) !in start
  }

  predicate KidAt(o: Settings, m: Option<int>, start: Plan, ts: Plan, steps: seq<Record>, n: nat, id: TaskId)
    requires n <= |steps|
  {
    && (id in start ==> id in ts)
    && (id in ts && ts[id].parentId == Some(Root(o.run)) ==>
          OwnId(o, id) && (id.Recovery? ==> LeftTask(o, m, start, steps, n, id.step)))
    && (id.Recovery? && id.role == o.role ==>
          if LeftTask(o, m, start, steps, n, id.step) then IsOpen(ts, id, o.run) else id in ts ==> id in start)
  }

  /**
   Under the objective are criteria and the recovery tasks of the retried steps, all of these open;
   recovery tasks of the role are these and those that were there at the start.
   */
  ghost predicate Kids(o: Settings, m: Option<int>, start: Plan, ts: Plan, steps: seq<Record>, n: nat)
    requires n <= |steps|
  {
    forall id :: KidAt(o, m, start, ts, steps, n, id)
  }

  lemma KidsAfterReflect(agent: Agent, o: Settings, s: State, a: Answer, m: Option<int>, start: Plan, rec: Record)
    requires BuiltIn(agent, o, m) && DefaultPlans(o) && OnTrack(agent, o, s) && rec.answer == a
    requires Kids(o, m, start, s.tasks, s.steps, |s.steps|)
    ensures Kids(o, m, start, TasksReflected(o, s, a), s.steps + [rec],
                 if IsRetried(o, m, s, rec) then |s.steps| + 1 else |s.steps|)
  {
    var n := if IsRetried(o, m, s, rec) then |s.steps| + 1 else |s.steps|;
    var us := TasksReflected(o, s, a);
    PlannedTasks(agent, o, s);
    ReflectGrows(agent, o, s, a, m);
    hide TasksReflected, TasksPlanned, BuiltIn, DefaultPlans, CountsAsRetry, RootAfter, OnTrack;
    forall id
      ensures KidAt(o, m, start, us, s.steps + [rec], n, id)
    {
      KidAfterReflect(agent, o, s, a, m, start, rec, id);
    }
  }

  lemma KidAfterReflect(agent: Agent, o: Settings, s: State, a: Answer, m: Option<int>, start: Plan, rec: Record,
                        id: TaskId)
    requires BuiltIn(agent, o, m) && DefaultPlans(o) && rec.answer == a && Root(o.run) in TasksPlanned(o, s)
    requires KidAt(o, m, start, s.tasks, s.steps, |s.steps|, id) && Grows(o, s.tasks, TasksReflected(o, s, a))
    ensures KidAt(o, m, start, TasksReflected(o, s, a), s.steps + [rec],
                  if IsRetried(o, m, s, rec) then |s.steps| + 1 else |s.steps|, id)
  {
    hide TasksReflected, TasksPlanned, BuiltIn, DefaultPlans, CountsAsRetry, RootAfter;
    assert GrowsAt(o, s.tasks, TasksReflected(o, s, a), id);
    if id.Recovery? && id.role == o.role && id !in s.tasks {
      RecoveryAfterStep(agent, o, s, a, m, rec, id.step);
    } else if id.Recovery? && id in s.tasks {
      assert OutOfReach(o.run, s.tasks, id);
      ReflectSpares(agent, o, s, a, m, id);
    }
    hide Grows;
  }

  /** A step that does not count as a retry leaves nothing. */
  lemma KidsOfMore(o: Settings, m: Option<int>, start: Plan, ts: Plan, steps: seq<Record>, rec: Record)
    requires Kids(o, m, start, ts, steps + [rec], |steps|) && !CountsAsRetry(o, m, rec)
    ensures Kids(o, m, start, ts, steps + [rec], |steps| + 1)
  {
    hide CountsAsRetry, OwnId, IsOpen;
    var more, n := steps + [rec], |steps| + 1;
    forall id
      ensures KidAt(o, m, start, ts, more, n, id)
    {
      assert KidAt(o, m, start, ts, more, |steps|, id);
      assert more[|steps|] == rec;
    }
    assert Kids(o, m, start, ts, more, n);
  }

  /** A sub-agent's tasks are under its own objective, and none is a recovery task of the parent's role. */
  lemma KidsAfterSubRun(agent: Agent, o: Settings, m: Option<int>, start: Plan, ts: Plan, steps: seq<Record>, n: nat,
                        step: nat, d: Delegation, w: World)
    requires n <= |steps| && Kids(o, m, start, ts, steps, n) && d.role != o.role
    ensures Kids(o, m, start, Run(agent, SubSettings(o, step, d, agent.norm, agent.verify), ts, w).0, steps, n)
  {
    var sub := SubSettings(o, step, d, agent.norm, agent.verify);
    var us := Run(agent, sub, ts, w).0;
    SubRunGrows(agent, o, step, d, ts, w);
    forall id
      ensures KidAt(o, m, start, us, steps, n, id)
    {
      assert KidAt(o, m, start, ts, steps, n, id) && GrowsAt(sub, ts, us, id);
      if id.Recovery? && id in ts {
        SubRunSpares(agent, o, step, d, ts, w, id);
      }
      hide Run, LeftTask;
    }
  }

  /** A step leaves the plan as it reflected it, or as its sub-agent left that. */
  lemma TasksAfterStep(agent: Agent, o: Settings, s: State, w: World)
    requires w.Turn?
    ensures var ts, d := TasksReflected(o, s, w.answer), Settled(o, s, w.answer).delegate;
      Iterate(agent, o, s, w).0.tasks == if d.None? then ts
        else Run(agent, SubSettings(o, |s.steps|, d.value, agent.norm, agent.verify), ts, w.child).0
  {
    hide Settled, Assessment, TasksReflected, RootAfter, Gathered, Run, Turns, LastText, Decide;
  }

  lemma IterateKids(agent: Agent, o: Settings, s: State, w: World, m: Option<int>, start: Plan)
    requires w.Turn? && BuiltIn(agent, o, m) && DefaultPlans(o) && OnTrack(agent, o, s)
    requires Kids(o, m, start, s.tasks, s.steps, |s.steps|)
    ensures var (t, stop) := Iterate(agent, o, s, w);
      |t.steps| == |s.steps| + 1
        && Kids(o, m, start, t.tasks, t.steps, if stop == Some(IsBlocked) then |s.steps| else |t.steps|)
  {
    hide Iterate, Kids, BuiltIn, Settled, Run, TasksReflected, Assessment, Gathered, OnTrack, CountsAsRetry;
    var (t, stop) := Iterate(agent, o, s, w);
    IterateRetries(agent, o, s, w, m);
    var rec := t.steps[|s.steps|];
    KidsAfterReflect(agent, o, s, w.answer, m, start, rec);
    TasksAfterStep(agent, o, s, w);
    var n := if IsRetried(o, m, s, rec) then |s.steps| + 1 else |s.steps|;
    var d := Settled(o, s, w.answer).delegate;
    if d.Some? {
      DelegatesToCoordinator(agent, o, s, w.answer, m);
      KidsAfterSubRun(agent, o, m, start, TasksReflected(o, s, w.answer), t.steps, n, |s.steps|, d.value, w.child);
    }
    if !CountsAsRetry(o, m, rec) {
      KidsOfMore(o, m, start, t.tasks, s.steps, rec);
    }
  }

  lemma DelegatesToCoordinator(agent: Agent, o: Settings, s: State, a: Answer, m: Option<int>)
    requires BuiltIn(agent, o, m)
    ensures var r := Settled(o, s, a); r.delegate.Some? ==> r.delegate.value.role != o.role
  {
    hide Failed, MissingTool, Marks, Repairs, AgentPolicies.Unmet, WithoutRecovery, HandedGoal, Gathered;
  }

  lemma {:induction false} LoopKids(agent: Agent, o: Settings, s: State, k: nat, w: World, m: Option<int>, start: Plan)
    requires BuiltIn(agent, o, m) && DefaultPlans(o) && LineWise(agent.norm) && OnTrack(agent, o, s)
    requires Kids(o, m, start, s.tasks, s.steps, |s.steps|)
    ensures var (t, stop) := Loop(agent, o, s, k, w);
      && (stop == IsBlocked ==> t.steps != [])
      && Kids(o, m, start, t.tasks, t.steps, if stop == IsBlocked then |t.steps| - 1 else |t.steps|)
    decreases w
  {
    hide BuiltIn, DefaultPlans, LineWise, Tracked, Fresh, Kids, StayDone, AllDone;
    LoopCases(agent, o, s, k, w);
    hide Loop;
    if k > 0 && w.Turn? {
      IterateTracks(agent, o, s, w, m);
      IterateKids(agent, o, s, w, m, start);
      hide Iterate;
      var (t, stop) := Iterate(agent, o, s, w);
      if stop.None? {
        LoopKids(agent, o, t, k - 1, w.rest, m, start);
      }
    }
  }

  /** The step counted against the retry budget and was not the one that found it spent. */
  predicate WasRetried(o: Settings, m: Option<int>, r: Result, j: nat) {
    j < |r.steps| && CountsAsRetry(o, m, r.steps[j]) && !(r.stop == IsBlocked && j == |r.steps| - 1)
  }

  /** No task is under the objective yet. */
  predicate Childless(o: Settings, ts: Plan) {
    forall id :: id in ts ==> ts[id].parentId != Some(Root(o.run))
  }

  /** Every task under the objective is done. */
  predicate AllUnderDone(ts: Plan, run: RunId) {
    forall id :: id in ts && ts[id].parentId == Some(Root(run)) ==> ts[id].status == Done
  }

  /**
   The recovery task of every retried step, unless one of that name was there before, is still open
   when the run ends, however it ends and whether or not it delegates: no built-in directive closes one.
   */
  lemma RetriesLeaveOpenTasks(agent: Agent, o: Settings, tasks: Plan, w: World, m: Option<int>, j: nat)
    requires BuiltIn(agent, o, m) && DefaultPlans(o) && LineWise(agent.norm) && Fresh(o, tasks) && Childless(o, tasks)
    ensures var (ts, r) := Run(agent, o, tasks, w);
      WasRetried(o, m, r, j) && Recovery(o.role, j) !in tasks ==> IsOpen(ts, Recovery(o.role, j), o.run)
  {
    RunKids(agent, o, tasks, w, m);
    var (ts, r) := Run(agent, o, tasks, w);
    hide Run, BuiltIn, CountsAsRetry, OwnId;
    var retried := if r.stop == IsBlocked then |r.steps| - 1 else |r.steps|;
    assert KidAt(o, m, tasks, ts, r.steps, retried, Recovery(o.role, j));
  }

  lemma RunKids(agent: Agent, o: Settings, tasks: Plan, w: World, m: Option<int>)
    requires BuiltIn(agent, o, m) && DefaultPlans(o) && LineWise(agent.norm) && Fresh(o, tasks) && Childless(o, tasks)
    ensures var (ts, r) := Run(agent, o, tasks, w);
      && (r.stop == IsBlocked ==> r.steps != [])
      && Kids(o, m, tasks, ts, r.steps, if r.stop == IsBlocked then |r.steps| - 1 else |r.steps|)
  {
    KidsAtStart(o, m, tasks);
    hide Loop, Kids, BuiltIn, DefaultPlans, LineWise, Childless;
    LoopKids(agent, o, Start(tasks), Budget(o), w, m, tasks);
  }

  lemma KidsAtStart(o: Settings, m: Option<int>, tasks: Plan)
    requires Childless(o, tasks)
    ensures Kids(o, m, tasks, tasks, [], 0)
  {
  }

  /**
   A met goal leaves every task under its objective done exactly when every step that was retried
   found a recovery task of its name already there, so with none there exactly when none was retried.
   */
  lemma MetGoalIsFinishedIff(agent: Agent, o: Settings, tasks: Plan, w: World, m: Option<int>)
    requires BuiltIn(agent, o, m) && DefaultPlans(o) && LineWise(agent.norm) && Fresh(o, tasks) && Childless(o, tasks)
    ensures var (ts, r) := Run(agent, o, tasks, w);
      r.goalMet ==>
        (AllUnderDone(ts, o.run) <==>
           forall j :: 0 <= j < |r.steps| && CountsAsRetry(o, m, r.steps[j]) ==> Recovery(o.role, j) in tasks)
  {
    RunKids(agent, o, tasks, w, m);
    MetGoalIsAllDone(agent, o, tasks, w, m);
    var (ts, r) := Run(agent, o, tasks, w);
    assert r.goalMet <==> r.stop == GoalMet;
    hide Run, BuiltIn, CountsAsRetry;
    if r.goalMet {
      forall j | 0 <= j < |r.steps| && CountsAsRetry(o, m, r.steps[j]) && Recovery(o.role, j) !in tasks
        ensures IsOpen(ts, Recovery(o.role, j), o.run)
      {
        assert KidAt(o, m, tasks, ts, r.steps, |r.steps|, Recovery(o.role, j));
      }
      forall id | id in ts && ts[id].parentId == Some(Root(o.run))
        ensures ts[id].status == Done || (id.Recovery? && LeftTask(o, m, tasks, r.steps, |r.steps|, id.step))
      {
        assert KidAt(o, m, tasks, ts, r.steps, |r.steps|, id);
      }
    }
  }

  // ----- a run that fails once, retries and meets its goal

  const AS_IS: Agent := Agent((text: string) => text, None)

  function OneRetry(): Settings {
    Settings([], "coder", Goal("say x", ["x"]), 2, 1, 1, Policies(DefaultPlan(), DefaultEvaluate(AS_IS.norm), None))
  }

  const FAILS := Answer(None, false, [], false, [])
  const SAYS_X := Answer(Some(Winner(Finished, "x", false, None, NO_USAGE)), false, [], false, [])

  lemma FirstFails(agent: Agent, o: Settings, tasks: Plan, w: World)
    requires w.Turn? && BuiltIn(agent, o, None) && o.maxRetries > 0 && w.answer == FAILS
    ensures var (t, stop) := Iterate(agent, o, Start(tasks), w);
      stop.None? && |t.steps| == 1 && CountsAsRetry(o, None, t.steps[0])
  {
    var s := Start(tasks);
    IterateRetries(agent, o, s, w, None);
    var rec := Iterate(agent, o, s, w).0.steps[0];
    BuiltInAnswers(agent, o, s, FAILS, None, rec);
    assert FailedStep(rec);
    assert Assessment(o, s, FAILS).verdict == Verdict.Unmet;
    hide Settled, Assessment, TasksReflected, RootAfter, Gathered, Run, Turns, LastText, BuiltIn, FailedStep,
         CancelledBy;
  }

  lemma FailsThenMeets(agent: Agent, o: Settings, w0: World)
    requires BuiltIn(agent, o, None) && o.maxRetries > 0 && o.maxSteps == 2
    requires w0.Turn? && w0.answer == FAILS && w0.rest.Turn? && w0.rest.answer == SAYS_X
    requires forall rec: Record :: rec.answer == SAYS_X && (exists e :: rec.evidence == Gathered(e, SAYS_X)) ==>
      MetStep(agent, o, rec)
    ensures var r := Run(agent, o, map[], w0).1;
      r.goalMet && |r.steps| == 2 && CountsAsRetry(o, None, r.steps[0])
  {
    hide Iterate, Loop, BuiltIn, CountsAsRetry, MetStep, Gathered;
    var s, w1 := Start(map[]), w0.rest;
    FirstFails(agent, o, map[], w0);
    var t := Iterate(agent, o, s, w0).0;
    IterateMeets(agent, o, t, w1, None);
    IterateAppends(agent, o, t, w1);
    var u := Iterate(agent, o, t, w1).0;
    assert u.steps[0] == u.steps[..1][0];
    LoopCases(agent, o, s, 2, w0);
    LoopCases(agent, o, t, 1, w1);
  }

  lemma FailsThenSaysX()
    ensures var r := Run(AS_IS, OneRetry(), map[], Turn(FAILS, Over, Turn(SAYS_X, Over, Over))).1;
      r.goalMet && |r.steps| == 2 && CountsAsRetry(OneRetry(), None, r.steps[0])
  {
    hide Run, CountsAsRetry, Gathered, Satisfied;
    forall rec: Record | rec.answer == SAYS_X && exists e :: rec.evidence == Gathered(e, SAYS_X)
      ensures MetStep(AS_IS, OneRetry(), rec)
    {
      var e :| rec.evidence == Gathered(e, SAYS_X);
      XIsFound(e);
    }
    assert BuiltIn(AS_IS, OneRetry(), None);
    FailsThenMeets(AS_IS, OneRetry(), Turn(FAILS, Over, Turn(SAYS_X, Over, Over)));
  }

  lemma XIsFound(evidence: string)
    ensures Satisfied(AS_IS.norm, Gathered(evidence, SAYS_X), "x")
  {
    var all := Gathered(evidence, SAYS_X);
    assert all == evidence + ("\n" + "x" + "");
    assert At(all, |evidence| + 1, "x");
  }

  /** That run meets its goal and leaves its objective unfinished. */
  lemma RetriedGoalLeavesTaskOpen()
    ensures var (ts, r) := Run(AS_IS, OneRetry(), map[], Turn(FAILS, Over, Turn(SAYS_X, Over, Over)));
      r.goalMet && !AllUnderDone(ts, OneRetry().run)
  {
    var o := OneRetry();
    assert BuiltIn(AS_IS, o, None) && DefaultPlans(o) && LineWise(AS_IS.norm);
    FailsThenSaysX();
    MetGoalIsFinishedIff(AS_IS, o, map[], Turn(FAILS, Over, Turn(SAYS_X, Over, Over)), None);
    hide Run, AllUnderDone, CountsAsRetry;
  }

  /**
   A recovery task is named by role and step alone: one left by an earlier run is kept, under that run's
   objective.
   */
  lemma EarlierRecoveryIsKept(agent: Agent, o: Settings, tasks: Plan, w: World, m: Option<int>, step: nat)
    requires BuiltIn(agent, o, m) && DefaultPlans(o) && Recovery(o.role, step) in tasks
    ensures SameAt(tasks, Run(agent, o, tasks, w).0, Recovery(o.role, step))
  {
    LoopSpares(agent, o, Start(tasks), Budget(o), w, m, Recovery(o.role, step));
    hide Loop, BuiltIn;
  }
}
