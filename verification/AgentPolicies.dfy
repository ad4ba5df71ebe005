/**
 The built-in policies of the agent loop (packages/agent/src/policies.ts): what to plan, how to
 judge a step, when to hand a step to the coordinator, and how to read an evaluation turn.
 */
module AgentPolicies {
  import opened Options
  import opened Strings
  import opened Verdicts
  import opened AgentPlan
  import opened TaskStores

  datatype Goal = Goal(objective: string, criteria: seq<string>)

  datatype Usage = Usage(input: nat, output: nat, cacheRead: nat, cacheWrite: nat, reasoning: nat, cost: Option<real>)

  datatype RunStatus = Finished | Errored | Cancelled | TimedOut

  /** A settled provider run; `cutShort` when its finish reason is "length". */
  datatype Winner = Winner(status: RunStatus, text: string, cutShort: bool, error: Option<string>, usage: Usage)

  datatype ToolResult = ToolResult(isError: bool, text: string)

  datatype StopReason = GoalMet | MaxSteps | IsBlocked | IsCancelled | Unverified | IsError

  /** A sub-agent to run: its role, its step budget and its goal. */
  datatype Delegation = Delegation(role: string, maxSteps: int, goal: Goal)

  datatype Reflection = Reflection(
    goalMet: bool,
    verdict: Option<Verdict>,
    failure: bool,
    needsReplan: bool,
    retry: bool,
    planEdits: seq<Directive>,
    delegate: Option<Delegation>,
    stop: Option<StopReason>)

  datatype EvaluateInput = EvaluateInput(
    role: string,
    goal: Goal,
    step: nat,
    maxSteps: int,
    retriesUsed: nat,
    maxRetries: int,
    winner: Option<Winner>,
    partial: bool,
    toolResults: seq<ToolResult>,
    evidence: string,
    run: RunId,
    cancelled: bool)

  type PlanFn = (Goal, nat, RunId) -> seq<Directive>
  type EvaluateFn = EvaluateInput -> Reflection
  type Norm = string -> string

  // ----- plan

  function CriterionTask(goal: Goal, run: RunId, i: nat): Directive
    requires i < |goal.criteria|
  {
    Add(Criterion(run, i), goal.criteria[i], Some(Root(run)), Some("criterion"), None)
  }

  function Draft(goal: Goal, run: RunId): seq<Directive> {
    [Add(Root(run), goal.objective, None, Some("objective"), Some(InProgress))]
    + seq(|goal.criteria|, i requires 0 <= i < |goal.criteria| => CriterionTask(goal, run, i))
  }

  /** The plan is drafted on the first step and not revised by planning again. */
  function DefaultPlan(): PlanFn {
    (goal: Goal, step: nat, run: RunId) => if step != 0 then [] else Draft(goal, run)
  }

  // ----- evaluate

  /** The criterion's text occurs in the evidence, up to letter case. */
  predicate Satisfied(norm: Norm, evidence: string, criterion: string) {
    Contains(norm(evidence), norm(criterion))
  }

  function Mark(norm: Norm, input: EvaluateInput, i: nat): seq<Directive>
    requires i < |input.goal.criteria|
  {
    if Satisfied(norm, input.evidence, input.goal.criteria[i])
    then [Update(Criterion(input.run, i), Some(Done), Some(Some("satisfied")), None)] else []
  }

  function MarksFirst(norm: Norm, input: EvaluateInput, n: nat): seq<Directive>
    requires n <= |input.goal.criteria|
  {
    if n == 0 then [] else MarksFirst(norm, input, n - 1) + Mark(norm, input, n - 1)
  }

  function Marks(norm: Norm, input: EvaluateInput): seq<Directive> {
    MarksFirst(norm, input, |input.goal.criteria|)
  }

  function UnmetFirst(norm: Norm, input: EvaluateInput, n: nat): seq<nat>
    requires n <= |input.goal.criteria|
  {
    if n == 0 then []
    else
      UnmetFirst(norm, input, n - 1)
      + if Satisfied(norm, input.evidence, input.goal.criteria[n - 1]) then [] else [n - 1]
  }

  function Unmet(norm: Norm, input: EvaluateInput): seq<nat> {
    UnmetFirst(norm, input, |input.goal.criteria|)
  }

  predicate ToolErrored(tools: seq<ToolResult>) {
    exists i :: 0 <= i < |tools| && tools[i].isError
  }

  /** A tool error, a run that did not finish cleanly, or one that ran out of its budget. */
  predicate Failed(winner: Option<Winner>, partial: bool, tools: seq<ToolResult>) {
    ToolErrored(tools) || partial || winner.None? || winner.value.status != Finished || winner.value.cutShort
  }

  function FirstError(tools: seq<ToolResult>, i: nat): string
    requires i <= |tools|
    decreases |tools| - i
  {
    if i == |tools| then "a tool call failed"
    else if tools[i].isError then tools[i].text
    else FirstError(tools, i + 1)
  }

  function Detail(input: EvaluateInput): string {
    if ToolErrored(input.toolResults) then FirstError(input.toolResults, 0)
    else if input.winner.Some? && input.winner.value.cutShort then
      "the step exhausted its turn/output budget before finishing"
    else if input.winner.Some? then Or(input.winner.value.error, "the run did not complete cleanly")
    else "the run did not complete cleanly"
  }

  const RECOVER := "Recover from failure"

  /** What a failed step changes in the plan: its first open criterion is blocked, and a retry adds a recovery task. */
  function Repairs(norm: Norm, input: EvaluateInput): seq<Directive> {
    var unmet := Unmet(norm, input);
    (if unmet == [] then []
     else [Update(Criterion(input.run, unmet[0]), Some(Blocked), Some(Some("failed: " + Detail(input))), None)])
    + (if input.retriesUsed < input.maxRetries
       then [Add(Recovery(input.role, input.step), RECOVER, Some(Root(input.run)), Some(Detail(input)), None)]
       else [])
  }

  function Evaluate(norm: Norm, input: EvaluateInput): Reflection {
    if input.cancelled then Reflection(false, Some(Indeterminate), true, false, false, [], None, Some(IsCancelled))
    else
      var failure := Failed(input.winner, input.partial, input.toolResults);
      var open := Unmet(norm, input) != [];
      var marks := Marks(norm, input);
      if !failure && input.goal.criteria != [] && !open then
        Reflection(true, Some(Met), false, false, false, marks, None, None)
      else if failure then
        var canRetry := input.retriesUsed < input.maxRetries;
        Reflection(false, Some(Verdict.Unmet), true, canRetry, canRetry, marks + Repairs(norm, input), None,
                   if canRetry then None else Some(IsBlocked))
      else if input.goal.criteria == [] then
        Reflection(false, Some(Indeterminate), false, false, false, marks, None, None)
      else
        Reflection(false, Some(Verdict.Unmet), false, false, false, marks, None, None)
  }

  function DefaultEvaluate(norm: Norm): EvaluateFn {
    (input: EvaluateInput) => Evaluate(norm, input)
  }

  /** The evaluation as the source computes it: one pass over the criteria, then one over the tool results. */
  method EvaluateStep(norm: Norm, input: EvaluateInput) returns (r: Reflection)
    ensures r == Evaluate(norm, input)
  {
    hide Satisfied;
    if input.cancelled {
      return Reflection(false, Some(Indeterminate), true, false, false, [], None, Some(IsCancelled));
    }
    var criteria := input.goal.criteria;
    var planEdits: seq<Directive> := [];
    var unmet: seq<nat> := [];
    for i := 0 to |criteria|
      invariant planEdits == MarksFirst(norm, input, i) && unmet == UnmetFirst(norm, input, i)
    {
      if Satisfied(norm, input.evidence, criteria[i]) {
        planEdits := planEdits + [Update(Criterion(input.run, i), Some(Done), Some(Some("satisfied")), None)];
      } else {
        unmet := unmet + [i];
      }
    }
    var toolErrored := false;
    var k := 0;
    while k < |input.toolResults| && !toolErrored
      invariant 0 <= k <= |input.toolResults|
      invariant toolErrored <==> exists i :: 0 <= i < k && input.toolResults[i].isError
    {
      toolErrored := input.toolResults[k].isError;
      k := k + 1;
    }
    var failure := toolErrored || input.partial || input.winner.None? || input.winner.value.status != Finished
      || input.winner.value.cutShort;
    if !failure && |criteria| > 0 && |unmet| == 0 {
      return Reflection(true, Some(Met), false, false, false, planEdits, None, None);
    }
    if failure {
      var canRetry := input.retriesUsed < input.maxRetries;
      planEdits := planEdits + Repairs(norm, input);
      return Reflection(false, Some(Verdict.Unmet), true, canRetry, canRetry, planEdits, None,
                        if canRetry then None else Some(IsBlocked));
    }
    if |criteria| == 0 {
      return Reflection(false, Some(Indeterminate), false, false, false, planEdits, None, None);
    }
    r := Reflection(false, Some(Verdict.Unmet), false, false, false, planEdits, None, None);
  }

  lemma {:induction false} UnmetFirstIs(norm: Norm, input: EvaluateInput, n: nat)
    requires n <= |input.goal.criteria|
    ensures forall i :: i in UnmetFirst(norm, input, n) <==>
      0 <= i < n && !Satisfied(norm, input.evidence, input.goal.criteria[i])
  {
    if n > 0 {
      UnmetFirstIs(norm, input, n - 1);
      hide Satisfied;
    }
  }

  /** Every criterion occurs in the evidence. */
  predicate AllSatisfied(norm: Norm, evidence: string, criteria: seq<string>) {
    forall i :: 0 <= i < |criteria| ==> Satisfied(norm, evidence, criteria[i])
  }

  lemma NoneOpenIff(norm: Norm, input: EvaluateInput)
    ensures Unmet(norm, input) == [] <==> AllSatisfied(norm, input.evidence, input.goal.criteria)
  {
    hide Satisfied;
    UnmetFirstIs(norm, input, |input.goal.criteria|);
    if Unmet(norm, input) != [] {
      assert Unmet(norm, input)[0] in Unmet(norm, input);
    }
  }

  // ----- delegation

  const NO_SUCH_TOOL := "no such tool: "
  const COORDINATOR := "coordinator"

  function WordFrom(text: string, i: nat): string
    requires i <= |text|
    decreases |text| - i
  {
    if i == |text| || Blank(text[i]) then "" else [text[i]] + WordFrom(text, i + 1)
  }

  /** The tool name after the first occurrence of the message that is followed by one. */
  function MissingIn(text: string, i: nat): Option<string>
    decreases |text| - i
  {
    if i >= |text| then None
    else if At(text, i, NO_SUCH_TOOL) && WordFrom(text, i + |NO_SUCH_TOOL|) != "" then
      Some(WordFrom(text, i + |NO_SUCH_TOOL|))
    else MissingIn(text, i + 1)
  }

  function MissingTool(tools: seq<ToolResult>, i: nat): Option<string>
    decreases |tools| - i
  {
    if i >= |tools| then None
    else if tools[i].isError && MissingIn(tools[i].text, 0).Some? then MissingIn(tools[i].text, 0)
    else MissingTool(tools, i + 1)
  }

  predicate IsRecovery(d: Directive) {
    d.Add? && |RECOVER| <= |d.title| && d.title[..|RECOVER|] == RECOVER
  }

  function WithoutRecovery(ds: seq<Directive>): (r: seq<Directive>)
    ensures forall d :: d in r <==> d in ds && !IsRecovery(d)
  {
    if ds == [] then []
    else WithoutRecovery(ds[..|ds| - 1]) + if IsRecovery(ds[|ds| - 1]) then [] else [ds[|ds| - 1]]
  }

  /** A failed step that needed a tool this role does not have is handed to the coordinator. */
  predicate HandsOver(input: EvaluateInput) {
    && !input.cancelled
    && input.role != COORDINATOR
    && Failed(input.winner, input.partial, input.toolResults)
    && MissingTool(input.toolResults, 0).Some?
  }

  function HandedGoal(input: EvaluateInput, tool: string): Goal {
    Goal(input.goal.objective + " (needs the \"" + tool + "\" tool, which is outside the \"" + input.role
         + "\" role's allowed tools)", input.goal.criteria)
  }

  function DelegatingEvaluate(norm: Norm, coordinatorSteps: int): EvaluateFn {
    (input: EvaluateInput) =>
      var base := Evaluate(norm, input);
      if !HandsOver(input) then base
      else Reflection(false, Some(Verdict.Unmet), true, false, false, WithoutRecovery(base.planEdits),
                      Some(Delegation(COORDINATOR, coordinatorSteps,
                                      HandedGoal(input, MissingTool(input.toolResults, 0).value))), None)
  }

  // ----- verify

  /** A verdict and how many evaluation turns it took. */
  datatype Assessed = Assessed(verdict: Verdict, turns: nat)

  /** Judges a goal from the evidence, given what each evaluation turn would settle as. */
  type VerifyFn = (Goal, string, seq<Option<Winner>>) -> Assessed

  /** What an evaluation turn answers; one that did not finish cleanly answers nothing. */
  function Reply(w: Option<Winner>): Option<string> {
    if w.None? || w.value.status != Finished || w.value.cutShort then None else Some(w.value.text)
  }

  function FirstReply(replies: seq<Option<Winner>>): Option<string> {
    if replies == [] then None else Reply(replies[0])
  }

  predicate AllBlank(s: string) {
    forall i :: 0 <= i < |s| ==> Blank(s[i])
  }

  function DefaultVerify(): VerifyFn {
    (goal: Goal, evidence: string, replies: seq<Option<Winner>>) =>
      if AllBlank(evidence) then Assessed(Indeterminate, 0)
      else
        var answer := FirstReply(replies);
        Assessed(if answer.None? then Indeterminate else VerdictOf(answer.value), 1)
  }

  /** The default verification passes a goal only on evidence and an answer that says met and never not met. */
  lemma VerifiedOnlyOnAVerdict(goal: Goal, evidence: string, replies: seq<Option<Winner>>)
    ensures DefaultVerify()(goal, evidence, replies).verdict == Met <==>
      !AllBlank(evidence) && FirstReply(replies).Some?
      && Gives(FirstReply(replies).value, MET) && !Gives(FirstReply(replies).value, NOT_MET)
  {
    hide Gives, AllBlank;
  }
}
