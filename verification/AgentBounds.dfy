/**
 How much work an agent run can do (packages/agent/src/runner.ts, packages/agent/src/policies.ts):
 steps, retries, sub-agents, and what all of it is charged.
 */
module AgentBounds {
  import opened Options
  import opened Verdicts
  import opened AgentPlan
  import opened AgentPolicies
  import opened AgentLoop

  function NonNegative(n: int): nat {
    if n > 0 then n else 0
  }

  /** The built-in evaluation, or with `m` the one that hands steps to a coordinator of `m` steps. */
  ghost predicate BuiltIn(agent: Agent, o: Settings, m: Option<int>) {
    o.policies.evaluate == if m.Some? then DelegatingEvaluate(agent.norm, m.value) else DefaultEvaluate(agent.norm)
  }

  predicate FailedStep(r: Record) {
    !CancelledBy(r.answer) && Failed(r.answer.winner, r.answer.partial, r.answer.toolResults)
  }

  /** The step was one to hand over: it failed for want of a tool, and this role is not the coordinator. */
  predicate Handed(o: Settings, m: Option<int>, r: Record) {
    m.Some? && FailedStep(r) && o.role != COORDINATOR && MissingTool(r.answer.toolResults, 0).Some?
  }

  /** The step counts against the retry budget. */
  predicate CountsAsRetry(o: Settings, m: Option<int>, r: Record) {
    FailedStep(r) && !Handed(o, m, r)
  }

  function Retries(o: Settings, m: Option<int>, steps: seq<Record>, n: nat): nat
    requires n <= |steps|
  {
    if n == 0 then 0 else Retries(o, m, steps, n - 1) + if CountsAsRetry(o, m, steps[n - 1]) then 1 else 0
  }

  lemma {:induction false} RetriesOfPrefix(o: Settings, m: Option<int>, steps: seq<Record>, more: seq<Record>, n: nat)
    requires n <= |steps|
    ensures Retries(o, m, steps + more, n) == Retries(o, m, steps, n)
  {
    if n > 0 {
      RetriesOfPrefix(o, m, steps, more, n - 1);
    }
  }

  // ----- what one step does to the retry count

  /** What the built-in evaluations answer, by how the step went. */
  lemma BuiltInAnswers(agent: Agent, o: Settings, s: State, a: Answer, m: Option<int>, rec: Record)
    requires BuiltIn(agent, o, m) && rec.answer == a
    ensures var r := Settled(o, s, a);
      && (CancelledBy(a) ==> r.stop == Some(IsCancelled) && r.delegate.None? && !r.needsReplan)
      && (CountsAsRetry(o, m, rec) ==>
            && r.delegate.None? && !r.goalMet && r.needsReplan == (s.retries < o.maxRetries)
            && r.stop == (if s.retries < o.maxRetries then None else Some(IsBlocked))
            && r.verdict == Some(Verdict.Unmet))
      && (Handed(o, m, rec) ==> !r.goalMet && !r.needsReplan && r.stop.None? && r.verdict == Some(Verdict.Unmet))
      && (Handed(o, m, rec) <==> r.delegate.Some?)
      && (r.delegate.Some? ==> r.delegate.value.maxSteps == m.value)
      && (!CancelledBy(a) && !FailedStep(rec) ==> !r.needsReplan && r.stop.None?)
  {
    hide Failed, MissingTool, Marks, Repairs, AgentPolicies.Unmet, WithoutRecovery, HandedGoal, Gathered;
  }

  lemma IterateAppends(agent: Agent, o: Settings, s: State, w: World)
    requires w.Turn?
    ensures var t := Iterate(agent, o, s, w).0;
      && |t.steps| == |s.steps| + 1 && t.steps[..|s.steps|] == s.steps
      && t.steps[|s.steps|] ==
           Record(w.answer, Gathered(s.evidence, w.answer), Settled(o, s, w.answer), Assessment(o, s, w.answer).turns)
  {
    hide Settled, Assessment, TasksReflected, RootAfter, Gathered, Run, Decide, Turns, LastText;
  }

  lemma RetriesOfMore(o: Settings, m: Option<int>, steps: seq<Record>, rec: Record)
    ensures Retries(o, m, steps + [rec], |steps| + 1) ==
      Retries(o, m, steps, |steps|) + if CountsAsRetry(o, m, rec) then 1 else 0
  {
    hide CountsAsRetry;
    RetriesOfPrefix(o, m, steps, [rec], |steps|);
  }

  lemma IterateRetries(agent: Agent, o: Settings, s: State, w: World, m: Option<int>)
    requires w.Turn? && BuiltIn(agent, o, m)
    ensures var (t, stop) := Iterate(agent, o, s, w);
      var rec :=
        Record(w.answer, Gathered(s.evidence, w.answer), Settled(o, s, w.answer), Assessment(o, s, w.answer).turns);
      && t.steps == s.steps + [rec]
      && (stop == Some(IsBlocked) <==> CountsAsRetry(o, m, rec) && s.retries >= o.maxRetries)
      && (stop.None? ==> t.retries == s.retries + if CountsAsRetry(o, m, rec) then 1 else 0)
  {
    var rec :=
      Record(w.answer, Gathered(s.evidence, w.answer), Settled(o, s, w.answer), Assessment(o, s, w.answer).turns);
    BuiltInAnswers(agent, o, s, w.answer, m, rec);
    hide Settled, Assessment, TasksReflected, RootAfter, Gathered, Run, Turns, LastText, Failed, MissingTool, BuiltIn,
         CancelledBy;
  }

  lemma {:induction false} LoopRetries(agent: Agent, o: Settings, s: State, k: nat, w: World, m: Option<int>)
    requires BuiltIn(agent, o, m)
    requires s.retries == Retries(o, m, s.steps, |s.steps|) && s.retries <= NonNegative(o.maxRetries)
    ensures var (t, stop) := Loop(agent, o, s, k, w);
      && Retries(o, m, t.steps, |t.steps|) <= NonNegative(o.maxRetries) + 1
      && (stop == IsBlocked <==> Retries(o, m, t.steps, |t.steps|) > NonNegative(o.maxRetries))
      && t.retries <= NonNegative(o.maxRetries)
    decreases w
  {
    hide Loop, Iterate, CountsAsRetry, BuiltIn, Retries, Settled, Assessment, Gathered;
    LoopCases(agent, o, s, k, w);
    if k > 0 && w.Turn? {
      var (t, stop) := Iterate(agent, o, s, w);
      IterateRetries(agent, o, s, w, m);
      KeptWhenStopped(agent, o, s, w);
      RetriesOfMore(o, m, s.steps, t.steps[|s.steps|]);
      if stop.None? {
        LoopRetries(agent, o, t, k - 1, w.rest, m);
      }
    }
  }

  lemma KeptWhenStopped(agent: Agent, o: Settings, s: State, w: World)
    requires w.Turn?
    ensures var (t, stop) := Iterate(agent, o, s, w);
      stop.Some? ==> t.retries == s.retries
  {
    hide Settled, Assessment, TasksReflected, RootAfter, Gathered, Run, Turns, LastText, Decide;
  }

  /**
   With the built-in evaluations a run fails at most one step more than its retry budget, and it
   stops blocked exactly when it fails that one step more. Steps handed over do not count.
   */
  lemma BlockedExactlyWhenRetriesRunOut(agent: Agent, o: Settings, tasks: Plan, w: World, m: Option<int>)
    requires BuiltIn(agent, o, m)
    ensures var r := Run(agent, o, tasks, w).1;
      && Retries(o, m, r.steps, |r.steps|) <= NonNegative(o.maxRetries) + 1
      && (r.stop == IsBlocked <==> Retries(o, m, r.steps, |r.steps|) == NonNegative(o.maxRetries) + 1)
  {
    LoopRetries(agent, o, Start(tasks), Budget(o), w, m);
    hide Loop, BuiltIn, Retries;
  }

  /** The retries a run counts never exceed its budget. */
  lemma RetriesStayWithinBudget(agent: Agent, o: Settings, tasks: Plan, w: World, m: Option<int>)
    requires BuiltIn(agent, o, m)
    ensures Loop(agent, o, Start(tasks), Budget(o), w).0.retries <= NonNegative(o.maxRetries)
  {
    LoopRetries(agent, o, Start(tasks), Budget(o), w, m);
    hide Loop, BuiltIn;
  }

  // ----- steps and sub-agents

  predicate Flat(subs: seq<Result>) {
    forall i :: 0 <= i < |subs| ==> subs[i].subAgents == []
  }

  predicate AtMost(subs: seq<Result>, steps: nat) {
    forall i :: 0 <= i < |subs| ==> |subs[i].steps| <= steps
  }

  /** Built-in evaluation without delegation runs no sub-agents. */
  lemma {:induction false} LoopWithoutSubAgents(agent: Agent, o: Settings, s: State, k: nat, w: World)
    requires BuiltIn(agent, o, None) && s.subAgents == []
    ensures var t := Loop(agent, o, s, k, w).0; t.subAgents == [] && |t.steps| <= |s.steps| + k
    decreases w
  {
    hide Loop, Iterate, BuiltIn, Settled, Assessment, Gathered;
    LoopCases(agent, o, s, k, w);
    if k > 0 && w.Turn? {
      IterateAlone(agent, o, s, w);
      IterateAppends(agent, o, s, w);
      var (t, stop) := Iterate(agent, o, s, w);
      if stop.None? {
        LoopWithoutSubAgents(agent, o, t, k - 1, w.rest);
      }
    }
  }

  lemma IterateAlone(agent: Agent, o: Settings, s: State, w: World)
    requires w.Turn? && BuiltIn(agent, o, None)
    ensures Iterate(agent, o, s, w).0.subAgents == s.subAgents
  {
    BuiltInAnswers(agent, o, s, w.answer, None, Record(w.answer, "", Settled(o, s, w.answer), 0));
    hide Settled, Assessment, TasksReflected, RootAfter, Gathered, Run, Turns, LastText, Decide, BuiltIn, Failed,
         MissingTool;
  }

  lemma SubRunIsFlat(agent: Agent, o: Settings, step: nat, d: Delegation, tasks: Plan, w: World)
    ensures var r := Run(agent, SubSettings(o, step, d, agent.norm, agent.verify), tasks, w).1;
      r.subAgents == [] && |r.steps| <= NonNegative(d.maxSteps)
  {
    var sub := SubSettings(o, step, d, agent.norm, agent.verify);
    assert BuiltIn(agent, sub, None);
    LoopWithoutSubAgents(agent, sub, Start(tasks), Budget(sub), w);
    hide Loop;
  }

  /** At most one sub-agent a step, none of which delegates. */
  lemma IterateSubAgents(agent: Agent, o: Settings, s: State, w: World)
    requires w.Turn?
    ensures var t := Iterate(agent, o, s, w).0;
      && (Flat(s.subAgents) ==> Flat(t.subAgents))
      && |t.subAgents| <= |s.subAgents| + 1 && s.subAgents <= t.subAgents
  {
    var r := Settled(o, s, w.answer);
    if r.delegate.Some? {
      SubRunIsFlat(agent, o, |s.steps|, r.delegate.value, Reflect(o, s, w.answer).tasks, w.child);
    }
    hide Settled, Assessment, TasksReflected, RootAfter, Gathered, Run, Turns, LastText, Decide;
  }

  lemma {:induction false} LoopSubAgents(agent: Agent, o: Settings, s: State, k: nat, w: World)
    requires Flat(s.subAgents) && |s.subAgents| <= |s.steps|
    ensures var t := Loop(agent, o, s, k, w).0;
      Flat(t.subAgents) && |t.subAgents| <= |t.steps| && |t.steps| <= |s.steps| + k
    decreases w
  {
    LoopCases(agent, o, s, k, w);
    hide Loop;
    if k > 0 && w.Turn? {
      var (t, stop) := Iterate(agent, o, s, w);
      IterateSubAgents(agent, o, s, w);
      IterateAppends(agent, o, s, w);
      hide Iterate, Flat;
      if stop.None? {
        LoopSubAgents(agent, o, t, k - 1, w.rest);
      }
    }
  }

  /** Whatever a run's own policies, its sub-agents never delegate: they run with the built-in evaluation. */
  lemma DelegationIsOneDeep(agent: Agent, o: Settings, tasks: Plan, w: World)
    ensures var r := Run(agent, o, tasks, w).1;
      && Flat(r.subAgents)
      && |r.subAgents| <= |r.steps| <= NonNegative(o.maxSteps)
  {
    LoopSubAgents(agent, o, Start(tasks), Budget(o), w);
    var s := Loop(agent, o, Start(tasks), Budget(o), w).0;
    hide Loop;
    assert |s.steps| <= Budget(o) == NonNegative(o.maxSteps);
    assert Flat(s.subAgents);
  }

  function TotalSteps(r: Result): nat {
    |r.steps| + StepsOf(r.subAgents, |r.subAgents|)
  }

  function StepsOf(subs: seq<Result>, n: nat): nat
    requires n <= |subs|
    decreases subs, n
  {
    if n == 0 then 0 else StepsOf(subs, n - 1) + TotalSteps(subs[n - 1])
  }

  lemma {:induction false} StepsOfFlat(subs: seq<Result>, n: nat, m: nat)
    requires n <= |subs| && Flat(subs) && AtMost(subs, m)
    ensures StepsOf(subs, n) <= n * m
  {
    if n > 0 {
      StepsOfFlat(subs, n - 1, m);
      var last := subs[n - 1];
      assert StepsOf(last.subAgents, |last.subAgents|) == 0;
      assert TotalSteps(last) == |last.steps| <= m;
      assert n * m == (n - 1) * m + m;
    }
  }

  lemma IterateSubSteps(agent: Agent, o: Settings, s: State, w: World, m: int)
    requires w.Turn? && BuiltIn(agent, o, Some(m)) && AtMost(s.subAgents, NonNegative(m))
    ensures AtMost(Iterate(agent, o, s, w).0.subAgents, NonNegative(m))
  {
    var r := Settled(o, s, w.answer);
    BuiltInAnswers(agent, o, s, w.answer, Some(m), Record(w.answer, "", r, 0));
    if r.delegate.Some? {
      SubRunIsFlat(agent, o, |s.steps|, r.delegate.value, Reflect(o, s, w.answer).tasks, w.child);
    }
    hide Settled, Assessment, TasksReflected, RootAfter, Gathered, Run, Turns, LastText, Decide, BuiltIn, Handed,
         CountsAsRetry;
  }

  lemma {:induction false} LoopSubSteps(agent: Agent, o: Settings, s: State, k: nat, w: World, m: int)
    requires BuiltIn(agent, o, Some(m)) && AtMost(s.subAgents, NonNegative(m))
    ensures AtMost(Loop(agent, o, s, k, w).0.subAgents, NonNegative(m))
    decreases w
  {
    LoopCases(agent, o, s, k, w);
    hide Loop;
    if k > 0 && w.Turn? {
      var (t, stop) := Iterate(agent, o, s, w);
      IterateSubSteps(agent, o, s, w, m);
      hide Iterate, AtMost, BuiltIn;
      if stop.None? {
        LoopSubSteps(agent, o, t, k - 1, w.rest, m);
      }
    }
  }

  /** A run that may hand steps to a coordinator of `m` steps takes at most `maxSteps * (1 + m)` steps in all. */
  lemma TotalWorkIsBounded(agent: Agent, o: Settings, tasks: Plan, w: World, m: int)
    requires BuiltIn(agent, o, Some(m))
    ensures TotalSteps(Run(agent, o, tasks, w).1) <= NonNegative(o.maxSteps) * (1 + NonNegative(m))
  {
    var r := Run(agent, o, tasks, w).1;
    DelegationIsOneDeep(agent, o, tasks, w);
    LoopSubSteps(agent, o, Start(tasks), Budget(o), w, m);
    StepsOfFlat(r.subAgents, |r.subAgents|, NonNegative(m));
    hide Loop, Flat, AtMost, BuiltIn;
    Bounded(|r.steps|, |r.subAgents|, NonNegative(o.maxSteps), NonNegative(m));
  }

  lemma Bounded(steps: nat, subs: nat, budget: nat, m: nat)
    requires subs <= steps <= budget
    ensures steps + subs * m <= budget * (1 + m)
  {
    assert subs * m <= budget * m by {
      assert (budget - subs) * m >= 0;
    }
    assert budget * (1 + m) == budget + budget * m;
  }

  // ----- usage

  /** What a run cost: its steps, its evaluation turns, and its sub-agents in the same way. */
  function Spent(r: Result): Usage {
    Plus(StepsSpent(r.steps, |r.steps|), SubAgentsSpent(r.subAgents, |r.subAgents|))
  }

  /** The usage of the first `n` evaluation turns, as far as they settled. */
  function RepliesSpent(replies: seq<Option<Winner>>, n: nat): Usage {
    if n == 0 then NO_USAGE
    else
      Plus(RepliesSpent(replies, n - 1),
           if n <= |replies| && replies[n - 1].Some? then replies[n - 1].value.usage else NO_USAGE)
  }

  function StepSpent(r: Record): Usage {
    Plus(if r.answer.winner.Some? then r.answer.winner.value.usage else NO_USAGE,
         RepliesSpent(r.answer.replies, r.turns))
  }

  lemma {:induction false} TurnsAreReplies(replies: seq<Option<Winner>>, n: nat)
    ensures var turns := Turns(replies, n); Sum(turns, |turns|) == RepliesSpent(replies, n)
  {
    hide Plus;
    if n > 0 {
      TurnsAreReplies(replies, n - 1);
      var settled := n <= |replies| && replies[n - 1].Some?;
      var turns := Turns(replies, n - 1);
      assert Turns(replies, n) == if settled then turns + [replies[n - 1].value.usage] else turns;
      PlusLaws(RepliesSpent(replies, n - 1), NO_USAGE, NO_USAGE);
      hide Sum, Turns;
      if settled {
        SumOfMore(turns, replies[n - 1].value.usage);
      }
    }
  }

  /** Every component of a sum grows by that of what is added; a cost counts once it is known. */
  lemma SumAddsComponents(us: seq<Usage>, u: Usage)
    ensures var before, after := Sum(us, |us|), Sum(us + [u], |us| + 1);
      && after.input == before.input + u.input && after.output == before.output + u.output
      && after.cacheRead == before.cacheRead + u.cacheRead && after.cacheWrite == before.cacheWrite + u.cacheWrite
      && after.reasoning == before.reasoning + u.reasoning
      && (before.cost.None? ==> after.cost == u.cost) && (u.cost.None? ==> after.cost == before.cost)
      && (before.cost.Some? && u.cost.Some? ==> after.cost == Some(before.cost.value + u.cost.value))
  {
    SumOfPrefix(us, [u], |us|);
  }

  function StepsSpent(steps: seq<Record>, n: nat): Usage
    requires n <= |steps|
  {
    if n == 0 then NO_USAGE else Plus(StepsSpent(steps, n - 1), StepSpent(steps[n - 1]))
  }

  function SubAgentsSpent(subs: seq<Result>, n: nat): Usage
    requires n <= |subs|
    decreases subs, n
  {
    if n == 0 then NO_USAGE else Plus(SubAgentsSpent(subs, n - 1), Spent(subs[n - 1]))
  }

  lemma PlusLaws(u: Usage, v: Usage, w: Usage)
    ensures Plus(u, v) == Plus(v, u) && Plus(Plus(u, v), w) == Plus(u, Plus(v, w)) && Plus(u, NO_USAGE) == u
  {
  }

  lemma {:induction false} SumAppend(us: seq<Usage>, vs: seq<Usage>, n: nat)
    requires n <= |vs|
    ensures Sum(us + vs, |us| + n) == Plus(Sum(us, |us|), Sum(vs, n))
  {
    hide Plus;
    if n > 0 {
      SumAppend(us, vs, n - 1);
      PlusLaws(Sum(us, |us|), Sum(vs, n - 1), vs[n - 1]);
    } else {
      SumOfPrefix(us, vs, |us|);
      PlusLaws(Sum(us, |us|), NO_USAGE, NO_USAGE);
    }
  }

  lemma {:induction false} SumOfPrefix(us: seq<Usage>, more: seq<Usage>, n: nat)
    requires n <= |us|
    ensures Sum(us + more, n) == Sum(us, n)
  {
    if n > 0 {
      SumOfPrefix(us, more, n - 1);
    }
  }

  lemma {:induction false} StepsSpentOfPrefix(steps: seq<Record>, more: seq<Record>, n: nat)
    requires n <= |steps|
    ensures StepsSpent(steps + more, n) == StepsSpent(steps, n)
  {
    if n > 0 {
      StepsSpentOfPrefix(steps, more, n - 1);
    }
  }

  lemma {:induction false} SubAgentsSpentOfPrefix(subs: seq<Result>, more: seq<Result>, n: nat)
    requires n <= |subs|
    ensures SubAgentsSpent(subs + more, n) == SubAgentsSpent(subs, n)
  {
    if n > 0 {
      SubAgentsSpentOfPrefix(subs, more, n - 1);
    }
  }

  /** The usages kept so far are those of the steps and sub-agents kept so far. */
  predicate Charged(s: State) {
    Sum(s.usages, |s.usages|) == Plus(StepsSpent(s.steps, |s.steps|), SubAgentsSpent(s.subAgents, |s.subAgents|))
  }

  lemma ReflectCharges(o: Settings, s: State, a: Answer)
    requires Charged(s)
    ensures Charged(Reflect(o, s, a))
  {
    hide Settled, Assessment, TasksReflected, RootAfter, Gathered, Turns, LastText, Plus, UsageOf;
    var t := Reflect(o, s, a);
    var turns := Turns(a.replies, Assessment(o, s, a).turns);
    var rec := t.steps[|s.steps|];
    StepsSpentOfPrefix(s.steps, [rec], |s.steps|);
    SumOfMore(s.usages, UsageOf(a));
    SumAppend(s.usages + [UsageOf(a)], turns, |turns|);
    var before, steps, subs :=
      Sum(s.usages, |s.usages|), StepsSpent(s.steps, |s.steps|), SubAgentsSpent(s.subAgents, |s.subAgents|);
    TurnsAreReplies(a.replies, Assessment(o, s, a).turns);
    UsageOfIs(a);
    Shuffle(steps, subs, UsageOf(a), Sum(turns, |turns|));
  }

  lemma UsageOfIs(a: Answer)
    ensures UsageOf(a) == if a.winner.Some? then a.winner.value.usage else NO_USAGE
  {
  }

  lemma SumOfOne(u: Usage)
    ensures Sum([u], 1) == u
  {
    PlusLaws(u, NO_USAGE, NO_USAGE);
    PlusLaws(NO_USAGE, u, NO_USAGE);
    hide Plus;
  }

  lemma Shuffle(steps: Usage, subs: Usage, u: Usage, v: Usage)
    ensures Plus(Plus(Plus(steps, subs), u), v) == Plus(Plus(steps, Plus(u, v)), subs)
  {
  }

  lemma SumOfMore(us: seq<Usage>, u: Usage)
    ensures Sum(us + [u], |us + [u]|) == Plus(Sum(us, |us|), u)
  {
    hide Plus;
    SumAppend(us, [u], 1);
    SumOfOne(u);
  }

  lemma SubAgentsSpentOfMore(subs: seq<Result>, sub: Result)
    ensures SubAgentsSpent(subs + [sub], |subs + [sub]|) == Plus(SubAgentsSpent(subs, |subs|), Spent(sub))
  {
    hide Plus, Spent;
    SubAgentsSpentOfPrefix(subs, [sub], |subs|);
  }

  lemma JoinCharges(s: State, tasks: Plan, sub: Result)
    requires Charged(s) && sub.usage == Spent(sub)
    ensures Charged(Joined(s, tasks, sub))
  {
    hide Plus, Spent, StepsSpent, SubAgentsSpent, Sum;
    SumOfMore(s.usages, sub.usage);
    SubAgentsSpentOfMore(s.subAgents, sub);
    PlusLaws(StepsSpent(s.steps, |s.steps|), SubAgentsSpent(s.subAgents, |s.subAgents|), Spent(sub));
  }

  lemma {:induction false} IterateCharges(agent: Agent, o: Settings, s: State, w: World)
    requires w.Turn? && Charged(s)
    ensures Charged(Iterate(agent, o, s, w).0)
    decreases w, 0
  {
    var r := Settled(o, s, w.answer);
    var t := Reflect(o, s, w.answer);
    ReflectCharges(o, s, w.answer);
    if r.delegate.Some? {
      var sub := SubSettings(o, |s.steps|, r.delegate.value, agent.norm, agent.verify);
      UsageIsWhatWasSpent(agent, sub, t.tasks, w.child);
      var (tasks, result) := Run(agent, sub, t.tasks, w.child);
      JoinCharges(t, tasks, result);
    }
    hide Settled, Reflect, Run, Decide, Sum, Spent, StepsSpent, SubAgentsSpent, Plus;
  }

  lemma {:induction false} LoopCharges(agent: Agent, o: Settings, s: State, k: nat, w: World)
    requires Charged(s)
    ensures Charged(Loop(agent, o, s, k, w).0)
    decreases w, 1
  {
    hide Loop, Iterate, Charged;
    LoopCases(agent, o, s, k, w);
    if k > 0 && w.Turn? {
      IterateCharges(agent, o, s, w);
      var (t, stop) := Iterate(agent, o, s, w);
      if stop.None? {
        LoopCharges(agent, o, t, k - 1, w.rest);
      }
    }
  }

  /**
   For every policy: a run's usage is that of its steps, its evaluation turns and its sub-agents, all the
   way down.
   */
  lemma {:induction false} UsageIsWhatWasSpent(agent: Agent, o: Settings, tasks: Plan, w: World)
    ensures var r := Run(agent, o, tasks, w).1; r.usage == Spent(r)
    decreases w, 2
  {
    hide Loop, Charged, BuildResult, Spent;
    StartCharges(tasks);
    LoopCharges(agent, o, Start(tasks), Budget(o), w);
    var (s, stop) := Loop(agent, o, Start(tasks), Budget(o), w);
    ResultCharges(o, s, stop);
  }

  lemma StartCharges(tasks: Plan)
    ensures Charged(Start(tasks))
  {
    PlusLaws(NO_USAGE, NO_USAGE, NO_USAGE);
    hide Plus;
  }

  lemma ResultCharges(o: Settings, s: State, stop: StopReason)
    requires Charged(s)
    ensures var r := BuildResult(o, s, stop); r.usage == Spent(r)
  {
    hide Plus, Sum, StepsSpent, SubAgentsSpent;
  }
}
