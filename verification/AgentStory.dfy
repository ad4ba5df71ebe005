/**
 What the result of an agent run tells, in terms of the answers its steps got
 (packages/agent/src/runner.ts, packages/agent/src/policies.ts): why it stopped, what its evidence
 holds, when a step was clean.
 */
module AgentStory {
  import opened Options
  import opened Strings
  import opened Verdicts
  import opened AgentPlan
  import opened AgentPolicies
  import opened AgentLoop
  import opened AgentBounds
  import opened AgentHonesty
  import opened AgentProgress
  import opened TaskStores

  // ----- clean steps

  /** The provider run finished, was not cut short, and no tool failed. */
  predicate IsClean(a: Answer) {
    && a.winner.Some? && a.winner.value.status == Finished && !a.winner.value.cutShort && !a.partial
    && forall i :: 0 <= i < |a.toolResults| ==> !a.toolResults[i].isError
  }

  predicate IsCancelledStep(a: Answer) {
    (a.winner.Some? && a.winner.value.status == Cancelled) || a.aborted
  }

  lemma FailedMeansUnclean(r: Record)
    ensures CancelledBy(r.answer) <==> IsCancelledStep(r.answer)
    ensures FailedStep(r) <==> !IsCancelledStep(r.answer) && !IsClean(r.answer)
  {
  }

  /** With the built-in evaluations a run reported met ends in a clean step that was not cancelled. */
  lemma MetMeansCleanEnd(agent: Agent, o: Settings, tasks: Plan, w: World, m: Option<int>)
    requires BuiltIn(agent, o, m)
    ensures var r := Run(agent, o, tasks, w).1;
      r.goalMet ==>
        && r.steps != []
        && var last := r.steps[|r.steps| - 1];
        && IsClean(last.answer) && !IsCancelledStep(last.answer)
        && forall i :: 0 <= i < |o.goal.criteria| ==>
             Contains(agent.norm(last.evidence), agent.norm(o.goal.criteria[i]))
  {
    MetExactlyOnEvidence(agent, o, tasks, w, m);
    var r := Run(agent, o, tasks, w).1;
    hide Run, BuiltIn;
    if r.goalMet {
      FailedMeansUnclean(r.steps[|r.steps| - 1]);
      hide FailedStep, CancelledBy, Contains;
    }
  }

  /** The first evaluation turn finished, was not cut short, and gives the verdict met and never not met. */
  predicate SaysMet(a: Answer) {
    && a.replies != [] && a.replies[0].Some?
    && a.replies[0].value.status == Finished && !a.replies[0].value.cutShort
    && Gives(a.replies[0].value.text, MET) && !Gives(a.replies[0].value.text, NOT_MET)
  }

  /**
   Without criteria and with the default verification: met exactly if the last step was clean, left
   evidence, and is said to be met.
   */
  lemma VerifiedRunIsMetIff(agent: Agent, o: Settings, tasks: Plan, w: World, m: Option<int>)
    requires BuiltIn(agent, o, m) && o.goal.criteria == [] && o.policies.verify == Some(DefaultVerify())
    ensures var r := Run(agent, o, tasks, w).1;
      r.goalMet <==>
        && r.steps != []
        && var last := r.steps[|r.steps| - 1];
        && IsClean(last.answer) && !IsCancelledStep(last.answer) && SaysMet(last.answer)
        && exists i :: 0 <= i < |last.evidence| && !Blank(last.evidence[i])
  {
    MetExactlyOnAVerdict(agent, o, tasks, w, m);
    var r := Run(agent, o, tasks, w).1;
    hide Run, BuiltIn, Gives;
    if r.steps != [] {
      FailedMeansUnclean(r.steps[|r.steps| - 1]);
      hide FailedStep, CancelledBy, IsClean, IsCancelledStep;
    }
  }

  /** A tool result that says which tool the role does not have. */
  predicate NamesMissingTool(t: ToolResult) {
    && t.isError
    && exists p :: 0 <= p && p + |NO_SUCH_TOOL| < |t.text| && At(t.text, p, NO_SUCH_TOOL)
                   && !Blank(t.text[p + |NO_SUCH_TOOL|])
  }

  lemma {:induction false} MissingInIff(text: string, i: nat)
    ensures MissingIn(text, i).Some? <==>
      exists p :: i <= p && p + |NO_SUCH_TOOL| < |text| && At(text, p, NO_SUCH_TOOL) && !Blank(text[p + |NO_SUCH_TOOL|])
    decreases |text| - i
  {
    hide Blank;
    if i < |text| {
      MissingInIff(text, i + 1);
      assert At(text, i, NO_SUCH_TOOL) && WordFrom(text, i + |NO_SUCH_TOOL|) != "" <==>
        i + |NO_SUCH_TOOL| < |text| && At(text, i, NO_SUCH_TOOL) && !Blank(text[i + |NO_SUCH_TOOL|]);
    }
  }

  lemma {:induction false} MissingToolIff(tools: seq<ToolResult>, i: nat)
    ensures MissingTool(tools, i).Some? <==> exists k :: i <= k < |tools| && NamesMissingTool(tools[k])
    decreases |tools| - i
  {
    if i < |tools| {
      MissingInIff(tools[i].text, 0);
      MissingToolIff(tools, i + 1);
      hide MissingIn, NamesMissingTool;
    }
  }

  /**
   A step counts against the retry budget exactly when it was not cancelled and not clean, unless the
   role may hand over, is not the coordinator, and a tool was reported missing.
   */
  lemma CountsAsRetryIff(o: Settings, m: Option<int>, r: Record)
    ensures CountsAsRetry(o, m, r) <==>
      && !IsCancelledStep(r.answer) && !IsClean(r.answer)
      && !(m.Some? && o.role != "coordinator"
           && exists k :: 0 <= k < |r.answer.toolResults| && NamesMissingTool(r.answer.toolResults[k]))
  {
    FailedMeansUnclean(r);
    MissingToolIff(r.answer.toolResults, 0);
    hide FailedStep, MissingTool, NamesMissingTool, IsClean, IsCancelledStep;
  }

  // ----- evidence

  lemma {:induction false} ToolTextShows(tools: seq<ToolResult>, n: nat, i: nat)
    requires i < n <= |tools|
    ensures Contains(ToolText(tools, n), "\n" + tools[i].text)
  {
    hide Contains;
    var line := "\n" + tools[n - 1].text;
    if i == n - 1 {
      ContainsItself(line);
      ContainsWithin(ToolText(tools, n - 1), line, "", line);
      assert ToolText(tools, n - 1) + line + "" == ToolText(tools, n);
    } else {
      ToolTextShows(tools, n - 1, i);
      ContainsWithin("", ToolText(tools, n - 1), line, "\n" + tools[i].text);
      assert "" + ToolText(tools, n - 1) + line == ToolText(tools, n);
    }
  }

  lemma ContainsItself(s: string)
    ensures Contains(s, s)
  {
    assert s[0..|s|] == s;
    ContainsAt(s, 0, s);
  }

  /** What the step said and what its tools answered is in its evidence, each after a line break. */
  ghost predicate ShowsItsAnswer(r: Record) {
    && (r.answer.winner.Some? ==> Contains(r.evidence, "\n" + r.answer.winner.value.text))
    && forall i :: 0 <= i < |r.answer.toolResults| ==> Contains(r.evidence, "\n" + r.answer.toolResults[i].text)
  }

  lemma GatheredShows(evidence: string, r: Record)
    requires r.evidence == Gathered(evidence, r.answer)
    ensures ShowsItsAnswer(r)
  {
    hide Contains;
    var tools := r.answer.toolResults;
    var said, answered := "\n" + TextOf(r.answer), ToolText(tools, |tools|);
    ContainsItself(said);
    ContainsWithin(evidence, said, answered, said);
    assert evidence + said + answered == r.evidence;
    forall i | 0 <= i < |tools|
      ensures Contains(r.evidence, "\n" + tools[i].text)
    {
      ToolTextShows(tools, |tools|, i);
      ContainsWithin(evidence + said, answered, "", "\n" + tools[i].text);
      assert evidence + said + answered + "" == r.evidence;
    }
  }

  lemma IterateShows(agent: Agent, o: Settings, s: State, w: World)
    requires w.Turn?
    ensures var t := Iterate(agent, o, s, w).0;
      |t.steps| == |s.steps| + 1 && t.steps[..|s.steps|] == s.steps && ShowsItsAnswer(t.steps[|s.steps|])
  {
    IterateAppends(agent, o, s, w);
    hide Iterate, ShowsItsAnswer, Gathered, Settled, Assessment;
    GatheredShows(s.evidence, Iterate(agent, o, s, w).0.steps[|s.steps|]);
  }

  lemma {:induction false} LoopShows(agent: Agent, o: Settings, s: State, k: nat, w: World)
    ensures var t := Loop(agent, o, s, k, w).0;
      s.steps <= t.steps && forall i :: |s.steps| <= i < |t.steps| ==> ShowsItsAnswer(t.steps[i])
    decreases w
  {
    hide Loop, Iterate, ShowsItsAnswer;
    LoopCases(agent, o, s, k, w);
    if k > 0 && w.Turn? {
      IterateShows(agent, o, s, w);
      var (t, stop) := Iterate(agent, o, s, w);
      if stop.None? {
        LoopShows(agent, o, t, k - 1, w.rest);
        var u := Loop(agent, o, t, k - 1, w.rest).0;
        assert u.steps[|s.steps|] == t.steps[|s.steps|];
      }
    }
  }

  /**
   For every policy, in every run: each step is judged on evidence that holds what it said and what its
   tools answered.
   */
  lemma EvidenceShowsEveryAnswer(agent: Agent, o: Settings, tasks: Plan, w: World, j: nat)
    requires j < |Run(agent, o, tasks, w).1.steps|
    ensures ShowsItsAnswer(Run(agent, o, tasks, w).1.steps[j])
  {
    LoopShows(agent, o, Start(tasks), Budget(o), w);
    hide Loop, ShowsItsAnswer;
  }

  // ----- why a run stops

  predicate SaysIndeterminate(r: Record) {
    r.reflection.verdict == Some(Indeterminate)
  }

  /** How many steps at the end were all indeterminate. */
  function Streak(steps: seq<Record>): nat {
    if steps == [] || !SaysIndeterminate(steps[|steps| - 1]) then 0 else 1 + Streak(steps[..|steps| - 1])
  }

  /** Why the run ends after these steps, if it does. */
  function Reason(steps: seq<Record>, maxUnverified: int): Option<StopReason> {
    if steps == [] then None
    else
      var last := steps[|steps| - 1];
      if last.reflection.stop.Some? then last.reflection.stop
      else if IsCancelledStep(last.answer) then Some(IsCancelled)
      else if last.reflection.goalMet then Some(GoalMet)
      else if SaysIndeterminate(last) && Streak(steps) >= maxUnverified then Some(Unverified)
      else None
  }

  /** The state's tallies are those of its steps. */
  predicate Tallied(s: State) {
    s.streak == Streak(s.steps)
    && s.verdict == (if s.steps == [] || s.steps[|s.steps| - 1].reflection.verdict.None? then Indeterminate
                     else s.steps[|s.steps| - 1].reflection.verdict.value)
    && s.finalText == LastSaid(s.steps)
  }

  /** The last text that was not blank. */
  function LastSaid(steps: seq<Record>): string {
    if steps == [] then ""
    else
      var winner := steps[|steps| - 1].answer.winner;
      if winner.Some? && exists i :: 0 <= i < |winner.value.text| && !Blank(winner.value.text[i]) then winner.value.text
      else LastSaid(steps[..|steps| - 1])
  }

  lemma IterateTallies(agent: Agent, o: Settings, s: State, w: World)
    requires w.Turn? && Tallied(s)
    ensures var (t, stop) := Iterate(agent, o, s, w);
      Tallied(t) && |t.steps| == |s.steps| + 1 && t.steps[..|s.steps|] == s.steps
        && stop == Reason(t.steps, o.maxUnverified)
  {
    IterateAppends(agent, o, s, w);
    hide TasksReflected, RootAfter, Gathered, Run, Turns;
    var t := Iterate(agent, o, s, w).0;
    assert t.steps[..|t.steps| - 1] == s.steps;
    assert Settled(o, s, w.answer).verdict == Some(Assessment(o, s, w.answer).verdict);
    hide Settled, Assessment;
  }

  ghost predicate StopsAtFirstReason(o: Settings, steps: seq<Record>, from: nat, k: nat, stop: StopReason) {
    && from <= |steps| <= from + k
    && (forall n :: from < n < |steps| ==> Reason(steps[..n], o.maxUnverified).None?)
    && (|steps| > from && Reason(steps, o.maxUnverified).Some? ==> Some(stop) == Reason(steps, o.maxUnverified))
    && (|steps| == from || Reason(steps, o.maxUnverified).None? ==>
          stop == if |steps| == from + k then MaxSteps else IsCancelled)
  }

  lemma {:induction false} LoopStops(agent: Agent, o: Settings, s: State, k: nat, w: World)
    requires Tallied(s)
    ensures var (t, stop) := Loop(agent, o, s, k, w);
      s.steps <= t.steps && Tallied(t) && StopsAtFirstReason(o, t.steps, |s.steps|, k, stop)
    decreases w
  {
    hide Loop, Iterate, Reason, Tallied;
    LoopCases(agent, o, s, k, w);
    if k > 0 && w.Turn? {
      IterateTallies(agent, o, s, w);
      var (t, stop) := Iterate(agent, o, s, w);
      if stop.None? {
        LoopStops(agent, o, t, k - 1, w.rest);
        var (u, final) := Loop(agent, o, t, k - 1, w.rest);
        assert u.steps[..|t.steps|] == t.steps && (|u.steps| == |t.steps| ==> u.steps == t.steps);
      }
    }
  }

  /**
   For every policy: a run stops at the first step that gives a reason, for that reason; without one it
   uses up its steps or is cancelled before its next. Its verdict is that of its last step, except that
   nothing but a met goal reads as met, and its final text is the last one that was not blank.
   */
  lemma RunStopsAtFirstReason(agent: Agent, o: Settings, tasks: Plan, w: World)
    ensures var r := Run(agent, o, tasks, w).1;
      && StopsAtFirstReason(o, r.steps, 0, Budget(o), r.stop)
      && r.finalText == LastSaid(r.steps)
      && r.verdict == if r.stop == GoalMet then Met
                      else if r.steps == [] || r.steps[|r.steps| - 1].reflection.verdict.None? then Indeterminate
                      else if r.steps[|r.steps| - 1].reflection.verdict == Some(Met) then Indeterminate
                      else r.steps[|r.steps| - 1].reflection.verdict.value
  {
    assert Tallied(Start(tasks));
    LoopStops(agent, o, Start(tasks), Budget(o), w);
    hide Loop, StopsAtFirstReason, Sum;
  }

  // ----- the plan

  /** A directive to add makes the task it describes, unless there is one; no other task changes. */
  lemma AddMakesTheTask(ts: Plan, d: Directive)
    requires d.Add?
    ensures var us := ApplyOne(ts, d);
      && (d.id in ts ==> us == ts)
      && (d.id !in ts ==>
            && us.Keys == ts.Keys + {d.id} && us[d.id].id == d.id && us[d.id].title == d.title
            && us[d.id].notes == d.notes && us[d.id].deps == []
            && us[d.id].status == (if d.status.Some? then d.status.value else Todo)
            && us[d.id].parentId == (if d.parent.Some? && d.parent.value in ts then d.parent else None)
            && forall id :: id in ts ==> us[id] == ts[id])
  {
  }

  /** A directive to update replaces what it names in the task, if there is one; no other task changes. */
  lemma UpdatePatchesTheTask(ts: Plan, d: Directive)
    requires d.Update?
    ensures var us := ApplyOne(ts, d);
      && us.Keys == ts.Keys && (forall id :: id in ts && id != d.id ==> us[id] == ts[id])
      && (d.id in ts ==>
            && us[d.id].id == ts[d.id].id && us[d.id].parentId == ts[d.id].parentId && us[d.id].deps == ts[d.id].deps
            && us[d.id].status == (if d.status.Some? then d.status.value else ts[d.id].status)
            && us[d.id].title == (if d.newTitle.Some? then d.newTitle.value else ts[d.id].title)
            && us[d.id].notes == (if d.newNotes.Some? then d.newNotes.value else ts[d.id].notes))
  {
  }

  predicate IsOpenCriterion(norm: Norm, input: EvaluateInput, i: nat)
    requires i < |input.goal.criteria|
  {
    !Contains(norm(input.evidence), norm(input.goal.criteria[i]))
  }

  lemma {:induction false} FirstUnmetIs(norm: Norm, input: EvaluateInput, n: nat)
    requires n <= |input.goal.criteria|
    ensures var unmet := UnmetFirst(norm, input, n);
      && (unmet == [] ==> forall j :: 0 <= j < n ==> !IsOpenCriterion(norm, input, j))
      && (unmet != [] ==>
            && unmet[0] < n && IsOpenCriterion(norm, input, unmet[0])
            && forall j :: 0 <= j < unmet[0] ==> !IsOpenCriterion(norm, input, j))
  {
    if n > 0 {
      FirstUnmetIs(norm, input, n - 1);
      assert Satisfied(norm, input.evidence, input.goal.criteria[n - 1]) <==> !IsOpenCriterion(norm, input, n - 1);
      hide Satisfied, IsOpenCriterion;
    }
  }

  lemma OpenOrSatisfied(norm: Norm, input: EvaluateInput, i: nat)
    requires i < |input.goal.criteria|
    ensures var n := |input.goal.criteria|;
      Marks(norm, input) == MarksFirst(norm, input, n) && AgentPolicies.Unmet(norm, input) == UnmetFirst(norm, input, n)
    ensures Satisfied(norm, input.evidence, input.goal.criteria[i]) <==> !IsOpenCriterion(norm, input, i)
  {
  }

  /** A failed step marks the satisfied criteria done, blocks the first of the others, and leaves the rest. */
  lemma FirstOpenIsBlocked(norm: Norm, input: EvaluateInput, i: nat, st: Status)
    requires i < |input.goal.criteria|
    ensures var marks, all := Marks(norm, input), Marks(norm, input) + Repairs(norm, input);
      var id := Criterion(input.run, i);
      && StatusAfter(marks, |marks|, id, st) == (if IsOpenCriterion(norm, input, i) then st else Done)
      && StatusAfter(all, |all|, id, st) == if !IsOpenCriterion(norm, input, i) then Done
           else if exists j :: 0 <= j < i && IsOpenCriterion(norm, input, j) then st else Blocked
  {
    hide Satisfied, Marks, Repairs, StatusAfter, IsOpenCriterion, AgentPolicies.Unmet, UnmetFirst, MarksFirst;
    var n, id := |input.goal.criteria|, Criterion(input.run, i);
    var marks, repairs := Marks(norm, input), Repairs(norm, input);
    OpenOrSatisfied(norm, input, i);
    StatusOfMarks(norm, input, n, i, st);
    StatusOfRepairs(norm, input, i, StatusAfter(marks, |marks|, id, st));
    StatusAppend(marks, repairs, |repairs|, id, st);
    FirstUnmetIs(norm, input, n);
  }

  predicate IsFirstError(tools: seq<ToolResult>, k: nat)
    requires k < |tools|
  {
    tools[k].isError && forall l :: 0 <= l < k ==> !tools[l].isError
  }

  /** A retry adds one recovery task under the objective, whose notes are the first tool error, if there was one. */
  lemma RecoveryTaskTells(norm: Norm, input: EvaluateInput)
    ensures var ds := Repairs(norm, input);
      && ((exists d :: d in ds && d.Add?) <==> input.retriesUsed < input.maxRetries)
      && forall d :: d in ds && d.Add? ==>
           && d.id == Recovery(input.role, input.step) && d.parent == Some(Root(input.run)) && d.status == None
           && forall k :: 0 <= k < |input.toolResults| && IsFirstError(input.toolResults, k) ==>
                d.notes == Some(input.toolResults[k].text)
  {
    hide AgentPolicies.Unmet;
    FirstErrorIs(input.toolResults, 0);
    var ds := Repairs(norm, input);
    if input.retriesUsed < input.maxRetries {
      assert ds[|ds| - 1].Add?;
    }
  }

  lemma {:induction false} FirstErrorIs(tools: seq<ToolResult>, i: nat)
    requires i <= |tools| && forall l :: 0 <= l < i ==> !tools[l].isError
    ensures forall k :: i <= k < |tools| && IsFirstError(tools, k) ==> FirstError(tools, i) == tools[k].text
    decreases |tools| - i
  {
    if i < |tools| && !tools[i].isError {
      FirstErrorIs(tools, i + 1);
    }
  }

  // ----- sub-agents

  /** The coordinator is asked for the same objective, with the missing tool named, and the same criteria. */
  lemma CoordinatorGetsTheGoal(agent: Agent, o: Settings, s: State, a: Answer, m: Option<int>)
    requires BuiltIn(agent, o, m) && Settled(o, s, a).delegate.Some?
    ensures var d := Settled(o, s, a).delegate.value;
      d.role == "coordinator" && d.goal.criteria == o.goal.criteria && o.goal.objective <= d.goal.objective
  {
    hide Failed, MissingTool, Marks, Repairs, AgentPolicies.Unmet, WithoutRecovery, Gathered;
  }

  function Delegations(steps: seq<Record>, n: nat): nat
    requires n <= |steps|
  {
    if n == 0 then 0 else Delegations(steps, n - 1) + if steps[n - 1].reflection.delegate.Some? then 1 else 0
  }

  lemma {:induction false} DelegationsOfPrefix(steps: seq<Record>, more: seq<Record>, n: nat)
    requires n <= |steps|
    ensures Delegations(steps + more, n) == Delegations(steps, n) <= n
  {
    if n > 0 {
      DelegationsOfPrefix(steps, more, n - 1);
    }
  }

  /** How many of the first `n` steps were neither clean nor cancelled. */
  function Unclean(steps: seq<Record>, n: nat): nat
    requires n <= |steps|
  {
    if n == 0 then 0
    else Unclean(steps, n - 1) + if IsClean(steps[n - 1].answer) || IsCancelledStep(steps[n - 1].answer) then 0 else 1
  }

  lemma {:induction false} UncleanAreRetries(o: Settings, steps: seq<Record>, n: nat)
    requires n <= |steps|
    ensures Retries(o, None, steps, n) == Unclean(steps, n)
  {
    if n > 0 {
      UncleanAreRetries(o, steps, n - 1);
      CountsAsRetryIff(o, None, steps[n - 1]);
      hide CountsAsRetry, IsClean, IsCancelledStep;
    }
  }

  /**
   The sub-agent worked as it was asked: in the role, on the goal and within the steps it was given. It
   reports that goal met only on a clean last step and on evidence for it, and gives up at its third
   unclean step.
   */
  ghost predicate DoesAsAsked(agent: Agent, d: Delegation, sub: Result) {
    && sub.role == d.role && sub.objective == d.goal.objective
    && |sub.steps| <= (if d.maxSteps > 0 then d.maxSteps else 0)
    && Unclean(sub.steps, |sub.steps|) <= 3 && (sub.stop == IsBlocked <==> Unclean(sub.steps, |sub.steps|) == 3)
    && sub.subAgents == []
    && (sub.goalMet ==>
          && sub.steps != []
          && var last := sub.steps[|sub.steps| - 1];
          && IsClean(last.answer) && !IsCancelledStep(last.answer)
          && (forall i :: 0 <= i < |d.goal.criteria| ==>
                Contains(agent.norm(last.evidence), agent.norm(d.goal.criteria[i])))
          && (d.goal.criteria == [] ==>
                agent.verify.Some? && agent.verify.value(d.goal, last.evidence, last.answer.replies).verdict == Met))
  }

  lemma SubRunDoesAsAsked(agent: Agent, o: Settings, step: nat, d: Delegation, tasks: Plan, w: World)
    ensures DoesAsAsked(agent, d, Run(agent, SubSettings(o, step, d, agent.norm, agent.verify), tasks, w).1)
  {
    var p := SubSettings(o, step, d, agent.norm, agent.verify);
    var r := Run(agent, p, tasks, w).1;
    assert BuiltIn(agent, p, None);
    MetMeansCleanEnd(agent, p, tasks, w, None);
    MetExactlyOnEvidence(agent, p, tasks, w, None);
    BlockedExactlyWhenRetriesRunOut(agent, p, tasks, w, None);
    UncleanAreRetries(p, r.steps, |r.steps|);
    LoopWithoutSubAgents(agent, p, Start(tasks), Budget(p), w);
    hide Loop, BuiltIn, Unclean, Retries, IsClean, IsCancelledStep, Sum, Contains;
  }

  /** The step's sub-agent did as asked, and its final text follows the evidence of the step. */
  ghost predicate ShowsSubAgent(agent: Agent, steps: seq<Record>, subs: seq<Result>, evidence: string, j: nat)
    requires j < |steps|
  {
    steps[j].reflection.delegate.Some? ==>
      && Delegations(steps, j) < |subs|
      && DoesAsAsked(agent, steps[j].reflection.delegate.value, subs[Delegations(steps, j)])
      && steps[j].evidence + ("\n" + subs[Delegations(steps, j)].finalText)
           <= if j + 1 < |steps| then steps[j + 1].evidence else evidence
  }

  ghost predicate SubAgentsTold(agent: Agent, s: State) {
    && |s.subAgents| == Delegations(s.steps, |s.steps|)
    && forall j :: 0 <= j < |s.steps| ==> ShowsSubAgent(agent, s.steps, s.subAgents, s.evidence, j)
  }

  /** One more step's record, and its sub-agent's result if it had one. */
  lemma TellsOneMore(agent: Agent, s: State, t: State, rec: Record)
    requires SubAgentsTold(agent, s) && t.steps == s.steps + [rec] && s.evidence <= rec.evidence
    requires if rec.reflection.delegate.None? then t.subAgents == s.subAgents && t.evidence == rec.evidence
             else exists sub ::
               && t.subAgents == s.subAgents + [sub] && t.evidence == rec.evidence + ("\n" + sub.finalText)
               && DoesAsAsked(agent, rec.reflection.delegate.value, sub)
    ensures SubAgentsTold(agent, t)
  {
    var n := |s.steps|;
    DelegationsOfPrefix(s.steps, [rec], n);
    assert t.steps[n] == rec;
    forall j | 0 <= j < |t.steps|
      ensures ShowsSubAgent(agent, t.steps, t.subAgents, t.evidence, j)
    {
      if j < n {
        DelegationsOfPrefix(s.steps, [rec], j);
        assert ShowsSubAgent(agent, s.steps, s.subAgents, s.evidence, j) && t.steps[j] == s.steps[j];
        assert j + 1 < n ==> t.steps[j + 1] == s.steps[j + 1];
      }
    }
  }

  lemma IterateTells(agent: Agent, o: Settings, s: State, w: World)
    requires w.Turn? && SubAgentsTold(agent, s)
    ensures SubAgentsTold(agent, Iterate(agent, o, s, w).0)
  {
    IterateAppends(agent, o, s, w);
    IterateEvidence(agent, o, s, w);
    var t := Iterate(agent, o, s, w).0;
    var rec := t.steps[|s.steps|];
    assert t.steps == s.steps + [rec];
    assert rec.reflection == Settled(o, s, w.answer);
    if rec.reflection.delegate.Some? {
      var d := rec.reflection.delegate.value;
      var tasks := Reflect(o, s, w.answer).tasks;
      SubRunDoesAsAsked(agent, o, |s.steps|, d, tasks, w.child);
      var sub := Run(agent, SubSettings(o, |s.steps|, d, agent.norm, agent.verify), tasks, w.child).1;
      assert t.subAgents == s.subAgents + [sub] && t.evidence == rec.evidence + ("\n" + sub.finalText);
    }
    hide SubAgentsTold, DoesAsAsked, Settled, Assessment, TasksReflected, RootAfter, Gathered, Run, Turns, LastText,
         Decide;
    TellsOneMore(agent, s, t, rec);
  }

  lemma {:induction false} LoopTells(agent: Agent, o: Settings, s: State, k: nat, w: World)
    requires SubAgentsTold(agent, s)
    ensures SubAgentsTold(agent, Loop(agent, o, s, k, w).0)
    decreases w
  {
    hide Loop, Iterate, SubAgentsTold;
    LoopCases(agent, o, s, k, w);
    if k > 0 && w.Turn? {
      IterateTells(agent, o, s, w);
      var (t, stop) := Iterate(agent, o, s, w);
      if stop.None? {
        LoopTells(agent, o, t, k - 1, w.rest);
      }
    }
  }

  /** For every policy: each delegating step has a sub-agent of its own, and the next step's evidence holds its text. */
  lemma SubAgentsEnterTheEvidence(agent: Agent, o: Settings, tasks: Plan, w: World, j: nat)
    requires var r := Run(agent, o, tasks, w).1;
      j + 1 < |r.steps| && r.steps[j].reflection.delegate.Some?
    ensures var r := Run(agent, o, tasks, w).1;
      && |r.subAgents| == Delegations(r.steps, |r.steps|) && Delegations(r.steps, j) < |r.subAgents|
      && r.steps[j].evidence + ("\n" + r.subAgents[Delegations(r.steps, j)].finalText) <= r.steps[j + 1].evidence
  {
    assert SubAgentsTold(agent, Start(tasks));
    LoopTells(agent, o, Start(tasks), Budget(o), w);
    hide Loop;
    var s := Loop(agent, o, Start(tasks), Budget(o), w).0;
    assert ShowsSubAgent(agent, s.steps, s.subAgents, s.evidence, j);
  }

  /** For every policy: the sub-agent of each delegating step did what that step asked for. */
  lemma SubAgentsDoAsAsked(agent: Agent, o: Settings, tasks: Plan, w: World, j: nat)
    requires var r := Run(agent, o, tasks, w).1;
      j < |r.steps| && r.steps[j].reflection.delegate.Some?
    ensures var r := Run(agent, o, tasks, w).1;
      && Delegations(r.steps, j) < |r.subAgents|
      && DoesAsAsked(agent, r.steps[j].reflection.delegate.value, r.subAgents[Delegations(r.steps, j)])
  {
    assert SubAgentsTold(agent, Start(tasks));
    LoopTells(agent, o, Start(tasks), Budget(o), w);
    hide Loop, DoesAsAsked;
    var s := Loop(agent, o, Start(tasks), Budget(o), w).0;
    assert ShowsSubAgent(agent, s.steps, s.subAgents, s.evidence, j);
  }

  // ----- the first plan

  /** The first plan has a task for the objective, under way, and below it an open one for each criterion. */
  lemma FirstPlanMirrorsTheGoal(o: Settings, s: State, i: nat)
    requires DefaultPlans(o) && s.steps == [] && Fresh(o, s.tasks) && i < |o.goal.criteria|
    ensures var ts := TasksPlanned(o, s);
      && Root(o.run) in ts && ts[Root(o.run)].title == o.goal.objective && ts[Root(o.run)].parentId == None
      && ts[Root(o.run)].status == InProgress
      && Criterion(o.run, i) in ts && ts[Criterion(o.run, i)].title == o.goal.criteria[i]
      && ts[Criterion(o.run, i)].parentId == Some(Root(o.run)) && ts[Criterion(o.run, i)].status == Todo
  {
    DraftedFirst(o, s.tasks, |o.goal.criteria|);
    assert Planned(o, s) == Draft(o.goal, o.run);
  }
}
