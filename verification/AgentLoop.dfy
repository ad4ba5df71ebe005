/**
 The observe-plan-act-evaluate loop (packages/agent/src/runner.ts, `oodaLoop`).

 What the loop does not decide is an input: a `World` says for each step how its provider run
 settled, which tools it called, how an evaluation turn would settle and in which world a sub-agent
 would run; it ends where the run is cancelled before its next step. Policies are functions of what
 the runner hands them, the step number included, so any sequence of answers can be one.
 */
module AgentLoop {
  import opened Options
  import opened Verdicts
  import opened AgentPlan
  import opened TaskStores
  import opened AgentPolicies

  /**
   One step's provider run, its tool results, whether the run was cancelled by the end of it, and
   how its evaluation turns would settle.
   */
  datatype Answer = Answer(
    winner: Option<Winner>,
    partial: bool,
    toolResults: seq<ToolResult>,
    aborted: bool,
    replies: seq<Option<Winner>>)

  datatype World = Over | Turn(answer: Answer, child: World, rest: World)

  datatype Policies = Policies(plan: PlanFn, evaluate: EvaluateFn, verify: Option<VerifyFn>)

  datatype Settings = Settings(
    run: RunId,
    role: string,
    goal: Goal,
    maxSteps: int,
    maxRetries: int,
    maxUnverified: int,
    policies: Policies)

  /** A step's record: its answer, the evidence it was judged on, the verdict and the turns spent on it. */
  datatype Record = Record(answer: Answer, evidence: string, reflection: Reflection, turns: nat)

  datatype Result = Result(
    role: string,
    objective: string,
    stop: StopReason,
    steps: seq<Record>,
    finalText: string,
    goalMet: bool,
    verdict: Verdict,
    usage: Usage,
    subAgents: seq<Result>)

  datatype State = State(
    tasks: Plan,
    rootCreated: bool,
    evidence: string,
    finalText: string,
    retries: nat,
    verdict: Verdict,
    streak: nat,
    usages: seq<Usage>,
    steps: seq<Record>,
    subAgents: seq<Result>)

  // ----- usage

  const NO_USAGE := Usage(0, 0, 0, 0, 0, None)

  function PlusCost(x: Option<real>, y: Option<real>): Option<real> {
    if x.None? then y else if y.None? then x else Some(x.value + y.value)
  }

  function Plus(u: Usage, v: Usage): Usage {
    Usage(u.input + v.input, u.output + v.output, u.cacheRead + v.cacheRead, u.cacheWrite + v.cacheWrite,
          u.reasoning + v.reasoning, PlusCost(u.cost, v.cost))
  }

  function Sum(us: seq<Usage>, n: nat): Usage
    requires n <= |us|
  {
    if n == 0 then NO_USAGE else Plus(Sum(us, n - 1), us[n - 1])
  }

  method SumUsage(us: seq<Usage>) returns (sum: Usage)
    ensures sum == Sum(us, |us|)
    ensures sum.cost.None? <==> forall i :: 0 <= i < |us| ==> us[i].cost.None?
  {
    sum := NO_USAGE;
    for i := 0 to |us|
      invariant sum == Sum(us, i)
      invariant sum.cost.None? <==> forall j :: 0 <= j < i ==> us[j].cost.None?
    {
      sum := Plus(sum, us[i]);
    }
  }

  // ----- one step

  function TextOf(a: Answer): string {
    if a.winner.Some? then a.winner.value.text else ""
  }

  function UsageOf(a: Answer): Usage {
    if a.winner.Some? then a.winner.value.usage else NO_USAGE
  }

  predicate CancelledBy(a: Answer) {
    (a.winner.Some? && a.winner.value.status == Cancelled) || a.aborted
  }

  function ToolText(tools: seq<ToolResult>, n: nat): string
    requires n <= |tools|
  {
    if n == 0 then "" else ToolText(tools, n - 1) + "\n" + tools[n - 1].text
  }

  /** The evidence with a step's text and tool results appended, a line break before each. */
  function Gathered(evidence: string, a: Answer): string {
    evidence + ("\n" + TextOf(a) + ToolText(a.toolResults, |a.toolResults|))
  }

  function Input(o: Settings, s: State, a: Answer): EvaluateInput {
    EvaluateInput(o.role, o.goal, |s.steps|, o.maxSteps, s.retries, o.maxRetries, a.winner, a.partial, a.toolResults,
                  Gathered(s.evidence, a), o.run, CancelledBy(a))
  }

  /** The verdict a policy gave, or the one its flag stands for. */
  function Claimed(r: Reflection): Verdict {
    if r.verdict.Some? then r.verdict.value else if r.goalMet then Met else Verdict.Unmet
  }

  /** The step is judged by an evaluation turn: the policy could not tell and the run goes on. */
  predicate IsVerified(o: Settings, s: State, a: Answer) {
    Claimed(o.policies.evaluate(Input(o, s, a))) == Indeterminate && o.policies.verify.Some? && !CancelledBy(a)
  }

  function Assessment(o: Settings, s: State, a: Answer): Assessed {
    if IsVerified(o, s, a) then o.policies.verify.value(o.goal, Gathered(s.evidence, a), a.replies)
    else Assessed(Claimed(o.policies.evaluate(Input(o, s, a))), 0)
  }

  /** The reflection on a step once its verdict is settled. */
  function Settled(o: Settings, s: State, a: Answer): Reflection {
    var r := o.policies.evaluate(Input(o, s, a));
    var v := Assessment(o, s, a).verdict;
    r.(verdict := Some(v), goalMet := if IsVerified(o, s, a) then v == Met else r.goalMet)
  }

  /** The usage of the evaluation turns that settled, up to the number asked. */
  function Turns(replies: seq<Option<Winner>>, n: nat): seq<Usage> {
    if n == 0 then []
    else Turns(replies, n - 1) + if n <= |replies| && replies[n - 1].Some? then [replies[n - 1].value.usage] else []
  }

  function Planned(o: Settings, s: State): seq<Directive> {
    o.policies.plan(o.goal, |s.steps|, o.run)
  }

  function TasksPlanned(o: Settings, s: State): Plan {
    Apply(s.tasks, Planned(o, s))
  }

  function RootAfter(o: Settings, s: State): bool {
    s.rootCreated || (Planned(o, s) != [] && Root(o.run) in TasksPlanned(o, s))
  }

  /** A met goal closes the root task. */
  function CloseRoot(tasks: Plan, run: RunId, close: bool): Plan {
    if close && Root(run) in tasks then tasks[Root(run) := Patched(tasks[Root(run)], Some(Done), None, None)] else tasks
  }

  function TasksReflected(o: Settings, s: State, a: Answer): Plan {
    var r := Settled(o, s, a);
    CloseRoot(Apply(TasksPlanned(o, s), r.planEdits), o.run, r.goalMet && RootAfter(o, s))
  }

  function LastText(s: State, a: Answer): string {
    if AllBlank(TextOf(a)) then s.finalText else TextOf(a)
  }

  /** Plan, act, evaluate and record one step. */
  function Reflect(o: Settings, s: State, a: Answer): State {
    var v := Assessment(o, s, a);
    State(TasksReflected(o, s, a), RootAfter(o, s), Gathered(s.evidence, a), LastText(s, a), s.retries, v.verdict,
          if v.verdict == Indeterminate then s.streak + 1 else 0,
          s.usages + [UsageOf(a)] + Turns(a.replies, v.turns),
          s.steps + [Record(a, Gathered(s.evidence, a), Settled(o, s, a), v.turns)], s.subAgents)
  }

  function Decide(o: Settings, s: State, r: Reflection, cancelled: bool): Option<StopReason> {
    if r.stop.Some? then r.stop
    else if cancelled then Some(IsCancelled)
    else if r.goalMet then Some(GoalMet)
    else if s.verdict == Indeterminate && s.streak >= o.maxUnverified then Some(Unverified)
    else None
  }

  /** Sub-agents get the built-in plan and evaluation, whatever their parent runs with, and the shared verification. */
  function SubSettings(o: Settings, step: nat, d: Delegation, norm: Norm, verify: Option<VerifyFn>): Settings {
    Settings(o.run + [step], d.role, d.goal, d.maxSteps, 2, 1,
             Policies(DefaultPlan(), DefaultEvaluate(norm), verify))
  }

  /** What every run of one agent shares: letter folding and the verification it was built with. */
  datatype Agent = Agent(norm: Norm, verify: Option<VerifyFn>)

  function Joined(s: State, tasks: Plan, sub: Result): State {
    s.(tasks := tasks, subAgents := s.subAgents + [sub], usages := s.usages + [sub.usage],
       evidence := s.evidence + ("\n" + sub.finalText))
  }

  /** One whole step: reflect, delegate, decide. */
  function Iterate(agent: Agent, o: Settings, s: State, w: World): (r: (State, Option<StopReason>))
    requires w.Turn?
    decreases w, 0
  {
    var t := Reflect(o, s, w.answer);
    var r := Settled(o, s, w.answer);
    var u :=
      if r.delegate.None? then t
      else
        var settings := SubSettings(o, |s.steps|, r.delegate.value, agent.norm, agent.verify);
        var (tasks, sub) := Run(agent, settings, t.tasks, w.child);
        Joined(t, tasks, sub);
    var stop := Decide(o, u, r, CancelledBy(w.answer));
    (if stop.None? && r.needsReplan then u.(retries := u.retries + 1) else u, stop)
  }

  /** At most `k` more steps. */
  function Loop(agent: Agent, o: Settings, s: State, k: nat, w: World): (r: (State, StopReason))
    decreases w, 1
  {
    if k == 0 then (s, MaxSteps)
    else if w.Over? then (s, IsCancelled)
    else
      var (t, stop) := Iterate(agent, o, s, w);
      if stop.Some? then (t, stop.value) else Loop(agent, o, t, k - 1, w.rest)
  }

  /** The ways a loop can go on from a state. */
  lemma LoopCases(agent: Agent, o: Settings, s: State, k: nat, w: World)
    ensures k == 0 ==> Loop(agent, o, s, k, w) == (s, MaxSteps)
    ensures k > 0 && w.Over? ==> Loop(agent, o, s, k, w) == (s, IsCancelled)
    ensures k > 0 && w.Turn? ==>
      var (t, stop) := Iterate(agent, o, s, w);
      Loop(agent, o, s, k, w) == if stop.Some? then (t, stop.value) else Loop(agent, o, t, k - 1, w.rest)
  {
    hide Iterate;
  }

  function Start(tasks: Plan): State {
    State(tasks, false, "", "", 0, Indeterminate, 0, [], [], [])
  }

  function Budget(o: Settings): nat {
    if o.maxSteps > 0 then o.maxSteps else 0
  }

  /** Only a run that stopped because its goal was met reports it as met. */
  function BuildResult(o: Settings, s: State, stop: StopReason): Result {
    Result(o.role, o.goal.objective, stop, s.steps, s.finalText, stop == GoalMet,
           if stop == GoalMet then Met else if s.verdict == Met then Indeterminate else s.verdict,
           Sum(s.usages, |s.usages|), s.subAgents)
  }

  function Run(agent: Agent, o: Settings, tasks: Plan, w: World): (r: (Plan, Result))
    decreases w, 2
  {
    var (s, stop) := Loop(agent, o, Start(tasks), Budget(o), w);
    (s.tasks, BuildResult(o, s, stop))
  }

  // ----- the loop as the source runs it

  method TurnUsages(replies: seq<Option<Winner>>, n: nat) returns (us: seq<Usage>)
    ensures us == Turns(replies, n)
  {
    us := [];
    for i := 0 to n
      invariant us == Turns(replies, i)
    {
      if i < |replies| && replies[i].Some? {
        us := us + [replies[i].value.usage];
      }
    }
  }

  method PlanStep(o: Settings, store: TaskStore<TaskId>, s: State) returns (rootCreated: bool)
    requires s.tasks == store.tasks
    requires store.Valid()
    modifies store
    ensures store.Valid()
    ensures store.tasks == TasksPlanned(o, s) && rootCreated == RootAfter(o, s)
  {
    hide Apply;
    rootCreated := s.rootCreated;
    var directives := o.policies.plan(o.goal, |s.steps|, o.run);
    if |directives| > 0 {
      ApplyDirectives(store, directives);
      if Root(o.run) in store.tasks {
        rootCreated := true;
      }
    }
    NothingToApply(s.tasks);
  }

  method JudgeStep(o: Settings, s: State, a: Answer) returns (reflection: Reflection, verdict: Verdict, turns: nat)
    ensures reflection == Settled(o, s, a) && Assessed(verdict, turns) == Assessment(o, s, a)
  {
    hide Gathered, CancelledBy;
    var evidence, cancelled := Gathered(s.evidence, a), CancelledBy(a);
    reflection := o.policies.evaluate(
      EvaluateInput(o.role, o.goal, |s.steps|, o.maxSteps, s.retries, o.maxRetries, a.winner, a.partial, a.toolResults,
                    evidence, o.run, cancelled));
    verdict, turns := Claimed(reflection), 0;
    if verdict == Indeterminate && o.policies.verify.Some? && !cancelled {
      var assessed := o.policies.verify.value(o.goal, evidence, a.replies);
      turns := assessed.turns;
      verdict := assessed.verdict;
      reflection := reflection.(goalMet := verdict == Met);
    }
    reflection := reflection.(verdict := Some(verdict));
  }

  /** Plan, act and evaluate one step. */
  method Step(o: Settings, store: TaskStore<TaskId>, s: State, a: Answer) returns (t: State, reflection: Reflection)
    requires s.tasks == store.tasks
    requires store.Valid()
    modifies store
    ensures store.Valid()
    ensures t == Reflect(o, s, a) && reflection == Settled(o, s, a)
    ensures t.tasks == store.tasks
  {
    hide Apply, Turns, Gathered, UsageOf, AllBlank, Settled, Assessment, RootAfter, TasksPlanned, Input;
    var finalText := s.finalText;
    var rootCreated := PlanStep(o, store, s);
    var stepText := TextOf(a);
    if !AllBlank(stepText) {
      finalText := stepText;
    }
    var verdict, turns;
    reflection, verdict, turns := JudgeStep(o, s, a);
    var asked := TurnUsages(a.replies, turns);
    var streak := if verdict == Indeterminate then s.streak + 1 else 0;
    ApplyDirectives(store, reflection.planEdits);
    if reflection.goalMet && rootCreated && Root(o.run) in store.tasks {
      var closed := store.Update(Root(o.run), Some(Done), None, None);
    }
    t := State(store.tasks, rootCreated, Gathered(s.evidence, a), finalText, s.retries, verdict, streak,
               s.usages + [UsageOf(a)] + asked, s.steps + [Record(a, Gathered(s.evidence, a), reflection, turns)],
               s.subAgents);
  }

  method OodaLoop(agent: Agent, o: Settings, store: TaskStore<TaskId>, world: World) returns (result: Result)
    requires store.Valid()
    modifies store
    ensures store.Valid()
    ensures (store.tasks, result) == Run(agent, o, old(store.tasks), world)
    decreases world
  {
    hide Sum, Reflect, Settled;
    var s := Start(store.tasks);
    var stopReason := MaxSteps;
    var w := world;
    var step := 0;
    ghost var whole := Loop(agent, o, s, Budget(o), world);
    while step < o.maxSteps
      invariant 0 <= step <= Budget(o) && store.Valid() && s.tasks == store.tasks && stopReason == MaxSteps
      invariant Loop(agent, o, s, Budget(o) - step, w) == whole
      invariant |s.steps| == step
      invariant w == world || w < world
      decreases o.maxSteps - step
    {
      if w.Over? {
        stopReason := IsCancelled;
        break;
      }
      ghost var before := s;
      var reflection;
      s, reflection := Step(o, store, s, w.answer);
      StepsGrow(o, before, w.answer);
      // delegate
      if reflection.delegate.Some? {
        var settings := SubSettings(o, step, reflection.delegate.value, agent.norm, agent.verify);
        var sub := OodaLoop(agent, settings, store, w.child);
        s := Joined(s, store.tasks, sub);
      }
      // decide
      var stop := Decide(o, s, reflection, CancelledBy(w.answer));
      if stop.Some? {
        stopReason := stop.value;
        break;
      }
      if reflection.needsReplan {
        s := s.(retries := s.retries + 1);
      }
      assert Iterate(agent, o, before, w) == (s, None);
      w := w.rest;
      step := step + 1;
    }
    var usage := SumUsage(s.usages);
    result := BuildResult(o, s, stopReason);
  }

  lemma NothingToApply(ts: Plan)
    ensures Apply(ts, []) == ts
  {
  }

  lemma StepsGrow(o: Settings, s: State, a: Answer)
    ensures |Reflect(o, s, a).steps| == |s.steps| + 1
  {
  }
}
