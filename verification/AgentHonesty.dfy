/**
 What a reported success rests on (packages/agent/src/runner.ts, packages/agent/src/policies.ts).
 */
module AgentHonesty {
  import opened Options
  import opened Verdicts
  import opened AgentPlan
  import opened AgentPolicies
  import opened AgentLoop
  import opened AgentBounds

  // ----- the built-in policies

  /**
   The evidence for a met goal: the step neither failed nor was cancelled, and every declared
   criterion occurs in the evidence or, with none declared, the verification said met.
   */
  predicate MetStep(agent: Agent, o: Settings, r: Record) {
    && !CancelledBy(r.answer)
    && !FailedStep(r)
    && if o.goal.criteria != [] then AllSatisfied(agent.norm, r.evidence, o.goal.criteria)
       else o.policies.verify.Some? && o.policies.verify.value(o.goal, r.evidence, r.answer.replies).verdict == Met
  }

  lemma BuiltInMeets(agent: Agent, o: Settings, s: State, a: Answer, m: Option<int>, rec: Record)
    requires BuiltIn(agent, o, m) && rec.answer == a && rec.evidence == Gathered(s.evidence, a)
    ensures var r := Settled(o, s, a);
      && (r.goalMet <==> MetStep(agent, o, rec))
      && (r.goalMet ==> r.stop.None? && !CancelledBy(a))
      && r.stop != Some(GoalMet)
      && r.goalMet == (r.verdict == Some(Met))
  {
    NoneOpenIff(agent.norm, Input(o, s, a));
    hide Failed, MissingTool, Marks, Repairs, AgentPolicies.Unmet, WithoutRecovery, HandedGoal, Gathered, AllSatisfied;
  }

  lemma IterateMeets(agent: Agent, o: Settings, s: State, w: World, m: Option<int>)
    requires w.Turn? && BuiltIn(agent, o, m)
    ensures var (t, stop) := Iterate(agent, o, s, w);
      && |t.steps| == |s.steps| + 1 && t.steps[..|s.steps|] == s.steps
      && (stop == Some(GoalMet) <==> MetStep(agent, o, t.steps[|s.steps|]))
  {
    IterateAppends(agent, o, s, w);
    BuiltInMeets(agent, o, s, w.answer, m, Iterate(agent, o, s, w).0.steps[|s.steps|]);
    hide MetStep, Settled, Assessment, TasksReflected, RootAfter, Gathered, Run, Turns, LastText, BuiltIn;
  }

  /** The run stops with its goal met at the first step that meets it, and for no other reason. */
  ghost predicate StopsWhenMet(agent: Agent, o: Settings, steps: seq<Record>, from: nat, stop: StopReason) {
    && (forall i :: from <= i < |steps| - 1 ==> !MetStep(agent, o, steps[i]))
    && (stop == GoalMet <==> from < |steps| && MetStep(agent, o, steps[|steps| - 1]))
  }

  lemma {:induction false} LoopMeets(agent: Agent, o: Settings, s: State, k: nat, w: World, m: Option<int>)
    requires BuiltIn(agent, o, m)
    ensures var (t, stop) := Loop(agent, o, s, k, w);
      s.steps <= t.steps && StopsWhenMet(agent, o, t.steps, |s.steps|, stop)
    decreases w
  {
    hide Iterate, MetStep, BuiltIn;
    LoopCases(agent, o, s, k, w);
    hide Loop;
    if k > 0 && w.Turn? {
      IterateMeets(agent, o, s, w, m);
      var (t, stop) := Iterate(agent, o, s, w);
      if stop.None? {
        LoopMeets(agent, o, t, k - 1, w.rest, m);
        var (u, final) := Loop(agent, o, t, k - 1, w.rest);
        assert u.steps[|s.steps|] == t.steps[|s.steps|];
      }
    }
  }

  /** Under the built-in policies a goal is reported met exactly when the last step meets it; no earlier step does. */
  lemma MetExactlyOnEvidence(agent: Agent, o: Settings, tasks: Plan, w: World, m: Option<int>)
    requires BuiltIn(agent, o, m)
    ensures var r := Run(agent, o, tasks, w).1;
      && (r.goalMet <==> r.stop == GoalMet)
      && StopsWhenMet(agent, o, r.steps, 0, r.stop)
  {
    hide Loop, StopsWhenMet, BuiltIn;
    LoopMeets(agent, o, Start(tasks), Budget(o), w, m);
  }

  /**
   A step that neither failed nor was cancelled, has evidence, and whose verification turn says met and
   never not met.
   */
  predicate PassedStep(r: Record) {
    && !CancelledBy(r.answer) && !FailedStep(r)
    && !AllBlank(r.evidence) && FirstReply(r.answer.replies).Some?
    && Gives(FirstReply(r.answer.replies).value, MET) && !Gives(FirstReply(r.answer.replies).value, NOT_MET)
  }

  /**
   Without criteria and with the default verification a run is reported met exactly when its last step
   passes; no earlier one does.
   */
  lemma MetExactlyOnAVerdict(agent: Agent, o: Settings, tasks: Plan, w: World, m: Option<int>)
    requires BuiltIn(agent, o, m) && o.goal.criteria == [] && o.policies.verify == Some(DefaultVerify())
    ensures var r := Run(agent, o, tasks, w).1;
      && (r.goalMet <==> r.steps != [] && PassedStep(r.steps[|r.steps| - 1]))
      && forall i :: 0 <= i < |r.steps| - 1 ==> !PassedStep(r.steps[i])
  {
    MetExactlyOnEvidence(agent, o, tasks, w, m);
    hide BuiltIn, Run;
    forall r: Record
      ensures MetStep(agent, o, r) <==> PassedStep(r)
    {
      VerifiedOnlyOnAVerdict(o.goal, r.evidence, r.answer.replies);
      hide Gives, AllBlank, DefaultVerify;
    }
    hide MetStep, PassedStep;
  }

  /** Without criteria and without verification nothing is ever reported met. */
  lemma NothingMetUnchecked(agent: Agent, o: Settings, tasks: Plan, w: World, m: Option<int>)
    requires BuiltIn(agent, o, m) && o.goal.criteria == [] && o.policies.verify.None?
    ensures !Run(agent, o, tasks, w).1.goalMet
  {
    MetExactlyOnEvidence(agent, o, tasks, w, m);
    hide Run;
  }

  // ----- every policy

  /** Whatever the policies: the goal flag, the verdict "met" and the stop reason say the same, in every result. */
  lemma SuccessSignalsAgree(agent: Agent, o: Settings, tasks: Plan, w: World)
    ensures var r := Run(agent, o, tasks, w).1;
      (r.goalMet <==> r.stop == GoalMet) && (r.goalMet <==> r.verdict == Met)
  {
    hide Loop, Sum;
  }

  /**
   After a step is judged, its flag agrees with its verdict exactly when the step was verified or
   the policy's own answer agreed with itself.
   */
  lemma FlagFollowsVerdictIff(o: Settings, s: State, a: Answer)
    ensures var r := Settled(o, s, a);
      var answer := o.policies.evaluate(Input(o, s, a));
      (r.goalMet == (r.verdict == Some(Met))) <==>
        (IsVerified(o, s, a) || answer.verdict.None? || answer.goalMet == (answer.verdict == Some(Met)))
  {
    hide Gathered;
  }

  /** A policy that says "unmet" while raising its flag: the run reports the goal met. */
  lemma FlagOverridesVerdict(agent: Agent, o: Settings, tasks: Plan, w: World)
    requires o.policies.evaluate ==
      ((input: EvaluateInput) => Reflection(true, Some(Verdict.Unmet), false, false, false, [], None, None))
    requires w.Turn? && o.maxSteps > 0 && !CancelledBy(w.answer)
    ensures var r := Run(agent, o, tasks, w).1;
      r.goalMet && r.verdict == Met && r.steps != [] && r.steps[0].reflection.verdict == Some(Verdict.Unmet)
  {
    var s := Start(tasks);
    var (t, stop) := Iterate(agent, o, s, w);
    IterateAppends(agent, o, s, w);
    assert stop == Some(GoalMet);
    hide Iterate;
  }

  /** The policy's answers agree with themselves and force no success. */
  ghost predicate Consistent(o: Settings) {
    forall input :: var r := o.policies.evaluate(input);
      (r.verdict.Some? ==> r.goalMet == (r.verdict == Some(Met))) && r.stop != Some(GoalMet)
  }

  /** The last step was not cancelled and its verdict was met. */
  predicate EndsMet(steps: seq<Record>) {
    && steps != []
    && steps[|steps| - 1].reflection.verdict == Some(Met)
    && !CancelledBy(steps[|steps| - 1].answer)
  }

  /** Whoever judges, if the answers agree with themselves a success carries a last verdict of met. */
  lemma {:induction false} ConsistentLoop(agent: Agent, o: Settings, s: State, k: nat, w: World)
    requires Consistent(o)
    ensures var (t, stop) := Loop(agent, o, s, k, w);
      stop == GoalMet ==> |t.steps| > |s.steps| && EndsMet(t.steps)
    decreases w
  {
    LoopCases(agent, o, s, k, w);
    hide Loop;
    if k > 0 && w.Turn? {
      IterateAppends(agent, o, s, w);
      IterateConsistent(agent, o, s, w);
      hide Iterate, Consistent;
      var (t, stop) := Iterate(agent, o, s, w);
      if stop.None? {
        ConsistentLoop(agent, o, t, k - 1, w.rest);
      }
    }
  }

  lemma IterateConsistent(agent: Agent, o: Settings, s: State, w: World)
    requires w.Turn? && Consistent(o)
    ensures var (t, stop) := Iterate(agent, o, s, w);
      stop == Some(GoalMet) ==>
        t.verdict == Met && Settled(o, s, w.answer).verdict == Some(Met) && !CancelledBy(w.answer)
  {
    FlagFollowsVerdictIff(o, s, w.answer);
    assert Settled(o, s, w.answer).stop == o.policies.evaluate(Input(o, s, w.answer)).stop;
    assert Assessment(o, s, w.answer).verdict == Settled(o, s, w.answer).verdict.value;
    hide Settled, Assessment, TasksReflected, RootAfter, Gathered, Run, Turns, LastText;
  }

  lemma SuccessCarriesItsVerdict(agent: Agent, o: Settings, tasks: Plan, w: World)
    requires Consistent(o)
    ensures var r := Run(agent, o, tasks, w).1;
      r.goalMet ==> EndsMet(r.steps)
  {
    ConsistentLoop(agent, o, Start(tasks), Budget(o), w);
    hide Loop, Consistent, EndsMet;
  }

  // ----- evidence

  /**
   The evidence of each step from `from` on begins with `low` and with that of every step before it, and
   `high` with it.
   */
  predicate Ascending(steps: seq<Record>, from: nat, low: string, high: string) {
    && (forall i :: from <= i < |steps| ==> low <= steps[i].evidence <= high)
    && (forall i, j :: from <= i <= j < |steps| ==> steps[i].evidence <= steps[j].evidence)
  }

  lemma AscendingFromNext(steps: seq<Record>, from: nat, low: string, middle: string, high: string)
    requires from < |steps| && Ascending(steps, from + 1, middle, high)
    requires low <= steps[from].evidence <= middle <= high
    ensures Ascending(steps, from, low, high)
  {
  }

  lemma {:induction false} LoopEvidence(agent: Agent, o: Settings, s: State, k: nat, w: World)
    ensures var t := Loop(agent, o, s, k, w).0;
      s.evidence <= t.evidence && s.steps <= t.steps && Ascending(t.steps, |s.steps|, s.evidence, t.evidence)
    decreases w
  {
    LoopCases(agent, o, s, k, w);
    hide Loop;
    if k > 0 && w.Turn? {
      IterateAppends(agent, o, s, w);
      IterateEvidence(agent, o, s, w);
      var (t, stop) := Iterate(agent, o, s, w);
      hide Iterate, Gathered, Ascending;
      var u := if stop.Some? then t else Loop(agent, o, t, k - 1, w.rest).0;
      if stop.None? {
        LoopEvidence(agent, o, t, k - 1, w.rest);
      } else {
        NothingAscends(t.steps, t.evidence);
      }
      assert u.steps[|s.steps|] == t.steps[|s.steps|];
      AscendingFromNext(u.steps, |s.steps|, s.evidence, t.evidence, u.evidence);
    } else {
      NothingAscends(s.steps, s.evidence);
    }
  }

  lemma NothingAscends(steps: seq<Record>, evidence: string)
    ensures Ascending(steps, |steps|, evidence, evidence)
  {
  }

  /** Evidence is only ever appended to, whatever the policies. */
  lemma EvidenceOnlyGrows(agent: Agent, o: Settings, tasks: Plan, w: World)
    ensures var r := Run(agent, o, tasks, w).1;
      forall i, j :: 0 <= i <= j < |r.steps| ==> r.steps[i].evidence <= r.steps[j].evidence
  {
    LoopEvidence(agent, o, Start(tasks), Budget(o), w);
    hide Loop;
  }

  lemma IterateEvidence(agent: Agent, o: Settings, s: State, w: World)
    requires w.Turn?
    ensures s.evidence <= Gathered(s.evidence, w.answer) <= Iterate(agent, o, s, w).0.evidence
  {
    hide Settled, Assessment, TasksReflected, RootAfter, Run, Turns, LastText, Decide;
  }
}
