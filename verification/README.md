# NexusCode: verified model of its core algorithms

A Dafny 4.11 model of the parts of NexusCode whose behaviour is hardest to see from one function:
the context engine, the agent loop, the chat loop with its approval broker, plan persistence, the
line diff, single-flight token refresh, the guard on actions after a provider handoff, the argument
parser, configuration layers and the embedding cache. Each operation that works step by step is a
method with its loops or a class with its fields, proved against a specification; the promises of
the code are lemmas about that specification. `dafny verify dfyconfig.toml` checks everything.

| file | what it models |
|---|---|
| `Chunks`, `Dedupe`, `Packing`, `ContextEngine`, `ContextReport`, `Assemble` | one context assembly: resolve, dedupe, shorten, order, trim to the budget, render, report |
| `PrefixStability`, `Provenance` | when two assemblies have the same prefix, and what an assembly shows of what the sources handed in |
| `Compress` | shortening a text to a token target, and the default token estimate |
| `TaskStores` | the task store, which agent runs and the plan persister share |
| `AgentPlan`, `AgentPolicies`, `AgentLoop` | the directives of a plan, the built-in policies, the observe-plan-act-evaluate loop |
| `AgentBounds`, `AgentHonesty`, `AgentProgress`, `AgentStory` | what every agent run keeps: bounded work, success only on evidence, progress that is not undone, and what its result tells in terms of its steps' answers |
| `Verdicts` | the verdict scanner of the evaluation turn |
| `AsyncQueue` | the chunk queue between a run and its consumer |
| `ChatLoop` | approvals, and the concurrent reader and worker of the persistent chat |
| `LineDiff`, `PlanOrder` | the approval preview's line diff, and the topological plan persister |
| `TokenRefresh`, `TokenAnswers`, `TokenRaces` | single-flight refresh, as in section 6 of RFC 6749, over all interleavings: what is sent, what callers are told, and several store instances |
| `ActionGuard`, `CanonicalJson` | the handoff window and the canonical form of action inputs |
| `EditDistance`, `Argv` | flag suggestions and the argument parser |
| `Config`, `Embeddings` | layered configuration with dotted paths, and the caching embedder |
| `Strings`, `Options` | shared definitions |

## How concurrency and the outside are modelled

- `TokenRefresh`, `ChatLoop` and `AsyncQueues` are state machines. One event is one stretch of
  JavaScript between two awaits; a run is any sequence of events.
- `AgentLoop` takes a `World`: how each step's provider run settled, what its tools returned, how
  evaluation turns would settle, where the run is cancelled, and the world of each sub-agent. Policies
  are arbitrary functions of what the runner hands them.
- Random identifiers are fresh: a run's own tasks are not in the store before it starts. Statements
  about the context engine that need distinct chunk ids say so with `UniqueIds`.
- Token estimators, the compressor, text normalisation, letter folding, the inner embedder and
  cache losses are parameters. SHA-256 is the identity on its input.
- Scores, relevances and priorities are reals.

## Where the code and what is said about it part

- The header of the engine promises a prefix that does not depend on what is volatile. Next to an
  assembly that keeps its whole static part, another one with the same static chunks has the same
  prefix exactly when no volatile chunk evicts a static one as its duplicate and the budget leaves
  room for the static and pinned chunks (`PrefixStability.SamePrefixIff`). Both can fail
  (`PrefixStability.VolatileCopyChangesPrefix`, `PrefixStability.TightBudgetChangesPrefix`).
- `truncateMiddle` is to fit its target. Measured with the default estimate it does exactly under the
  condition of `Compress.FitsByDefaultIff`, and it saves tokens exactly under that of
  `Compress.SavesByDefaultIff`: a text of many short words can cost more after the cut, from nine
  tokens on (`Compress.ManyShortWordsExistIff`), and below four tokens the marker alone exceeds the
  target. `truncateTail` can keep less than fits (`Compress.TailKeepsIff`, `Compress.TailLosesRoom`).
- A source's collected, included and dropped counts balance exactly when as many chunks carry its
  label as it handed in (`Assemble.SourceBooksBalance`, `Assemble.ForeignLabelUnbalances`).
- `types.ts` calls a reflection's verdict authoritative; the runner follows the goal flag instead
  when it did not verify the step (`AgentHonesty.FlagFollowsVerdictIff`, `AgentHonesty.FlagOverridesVerdict`).
- No built-in directive closes a recovery task: a met goal leaves its objective finished exactly when
  no step was retried, or every retried step found a recovery task of its name left by an earlier run
  of the same role, which shares those names (`AgentProgress.MetGoalIsFinishedIff`,
  `AgentProgress.RetriedGoalLeavesTaskOpen`, `AgentProgress.EarlierRecoveryIsKept`).
- A consumed refresh token is sent again exactly at the steps that `TokenRefresh.ReplayedIff` names:
  going by a token whose successor was lost in a failed write, or by a first read whose token was
  rotated since, after `clear` or a login without a refresh token (`TokenRefresh.FailedWriteLetsReplay`,
  `TokenRefresh.ClearOrBareLoginLetsReplay`).
- The note on `refreshInFlight` takes the re-read to make races between store instances safe. It does
  if no refresh re-reads while another is between its re-read and its end, and otherwise the token can
  be sent twice (`TokenRaces.SeparateNeverReplays`, `TokenRaces.OverlapLetsReplay`,
  `TokenRaces.TwoInstancesReplay`).
- An action's fingerprint is to agree exactly on actions equal up to key order. Equal actions do agree,
  but the canonical form drops members named `__proto__` and writes a number that is not finite as the
  string of its name. An input's text tells it from every other clean one exactly when it has neither
  (`CanonicalJson.TellsApartIffClean`, `CanonicalJson.SameTextIff`); `CanonicalJson.ProtoCollides` and
  `CanonicalJson.InfinityCollides` are two collisions, and `ActionGuard.ProtoRefusesAnother` what one
  does to the guard.
- `types.ts` calls a pinned chunk non-evictable. It is never trimmed or shortened, but a stronger copy
  of its text evicts it (`ContextEngine.PinnedIsKeptIff`, `PrefixStability.PinnedIsEvicted`).
- Layers merge differently from below and from above, and writing into an array discards it, exactly
  under the conditions of `Config.AssociativeIff` and `Config.SetKeepsIff` (`Config.GroupingMatters`,
  `Config.ArrayGivesWay`).
- The caching embedder embeds a text repeated within one batch each time
  (`Embeddings.EmbeddedOnceIff`).
- `--` directly after a flag that takes a value is that value (`Argv.DashesEndOptionsIff`,
  `Argv.CwdSwallowsDashes`).

## Model

| member | source | states |
|---|---|---|
| `PrefixStability.SamePrefixIff` | packages/context/src/engine.ts:277-399 | The promise of the file header over two assemblies with the same static chunks, up to time stamps: if the first is undisturbed, the two render the same system text exactly when the second is undisturbed too, whatever their volatile chunks, queries, budgets and collection orders; undisturbed means that no volatile chunk evicts a static one and query, static and pinned chunks fit |
| `PrefixStability.FewerChunksOtherText` | packages/context/src/engine.ts:386-399 | Two lists of static chunks in prompt order, one with only some of the chunks of the other, render to texts of different length |
| `PrefixStability.KeptWithinCore` | packages/context/src/engine.ts:277-382 | Disturbed or not, the prefix holds nothing but what the static chunks alone would give |
| `PrefixStability.TightBudgetChangesPrefix` | packages/context/src/engine.ts:365-377 | Two runs with the same single chunk, one with a token less to spend, have different prefixes |
| `PrefixStability.VolatileCopyChangesPrefix` | packages/context/src/engine.ts:283-311 | A run with a stronger volatile chunk of the same text has another prefix than one without, at any budget |
| `ContextEngine.PrefixStableAcrossRuns` | packages/context/src/engine.ts:277-399 | The half of `PrefixStability.SamePrefixIff` that keeps the text: two undisturbed assemblies with the same static chunks, up to time stamps, render the same system text |
| `ContextEngine.PrefixIsCoreIff` | packages/context/src/engine.ts:277-382 | In one assembly, up to time stamps, the prefix holds exactly the chunks that the static chunks alone would give, if and only if no static chunk is evicted by a volatile duplicate and query, static and pinned chunks fit the budget (or every static chunk is pinned) |
| `ContextEngine.CoreIs` | packages/context/src/engine.ts:277-331 | What the static chunks alone give: their own dedupe winners, shortened; time stamps do not matter |
| `ContextEngine.KeptInPromptOrder` | packages/context/src/engine.ts:317-331 | What is kept stands in lane order; within a lane conversation and task chunks oldest first, the others by falling score; ids break ties |
| `ContextEngine.Compress` | packages/context/src/engine.ts:170-190 | The in-place compression loop shortens exactly the unpinned chunks over the cap and reports each with its source, lane and sizes before and after |
| `ContextEngine.RenderLanes` | packages/context/src/engine.ts:386-399 | One titled section for each lane in use, in lane order, joined by blank lines |
| `Chunks.SortSorts` | packages/context/src/engine.ts:283-290 | Sorting by any of the engine's orders gives a sorted rearrangement |
| `Chunks.SortedIsUnique` | packages/context/src/engine.ts:317-331 | Chunks with distinct ids have only one arrangement sorted by an order, so results do not depend on the input order |
| `Chunks.LaneIndexIsPlace` | packages/context/src/lanes.ts:15-49 | The index of a lane is its place in the list of all lanes, the static ones first |
| `Dedupe.Run` | packages/context/src/engine.ts:277-313 | The dedupe loop over a map of seen keys keeps the first chunk of each text in strength order and reports the others as duplicates |
| `Dedupe.WinnersAreStrongest` | packages/context/src/engine.ts:283-311 | A chunk is kept exactly when no collected chunk with the same nonempty normalized text is stronger |
| `Dedupe.WinnerBeatsItsCopies` | packages/context/src/engine.ts:283-290 | Of two copies of a text the kept one has the higher priority times weight plus relevance, or as high a one and the earlier lane, or the same lane and the smaller id |
| `Dedupe.InputOrderIsIrrelevant` | packages/context/src/engine.ts:283-312 | With distinct ids, what is kept and what is dropped do not depend on the collection order |
| `Dedupe.TextSurvives` | packages/context/src/engine.ts:292-311 | Every nonempty normalized text that was collected is still there after dedupe |
| `Dedupe.WinnersAndDuplicates` | packages/context/src/engine.ts:292-312 | Kept and dropped chunks are a partition of the collected ones |
| `Dedupe.StaticWinnersIff` | packages/context/src/engine.ts:283-313 | The static winners are those of the static chunks alone exactly when no volatile chunk evicts a static one |
| `Packing.Pack` | packages/context/src/engine.ts:342-382 | The trim loop drops exactly the shortest prefix of the trim order that brings the total within budget; totals and the over-budget flag are those of what is left |
| `Packing.CutIsUnique` | packages/context/src/engine.ts:365-377 | The shortest prefix that fits is determined by the chunks and the budget |
| `Packing.NothingDroppedInVain` | packages/context/src/engine.ts:348-377 | Nothing is dropped from what fits, and with the chunk dropped last the rest would not fit |
| `Packing.TrimOrderIs` | packages/context/src/engine.ts:355-364 | The candidates are the unpinned chunks, most volatile lane first, then by relevance, score and id |
| `Packing.LessValuableGoesFirst` | packages/context/src/engine.ts:355-364 | Within a lane a chunk is dropped only after every unpinned chunk of smaller relevance, of equal relevance and smaller priority times weight plus relevance, or equal in both and with the smaller id |
| `Packing.IncludedAre` | packages/context/src/engine.ts:379 | With distinct ids the filter by dropped id leaves out exactly the dropped chunks |
| `Packing.PinnedSurvive` | packages/context/src/engine.ts:353-379 | A pinned chunk that reaches packing is included |
| `ContextEngine.PinnedIsKeptIff` | packages/context/src/engine.ts:283-382 | A pinned chunk is in the assembly, unchanged and at any budget, exactly when no stronger chunk has its nonempty normalized text |
| `PrefixStability.PinnedIsEvicted` | packages/context/src/engine.ts:283-311 | A pinned chunk that a stronger one with its text evicts, at any budget |
| `Packing.VolatileLanesGoFirst` | packages/context/src/engine.ts:357-364 | A chunk is dropped only after every unpinned chunk of every more volatile lane |
| `Packing.RealTokensAre` | packages/context/src/engine.ts:348-381 | Conservation: the included tokens are all tokens less those cut |
| `Packing.OverBudgetIff` | packages/context/src/engine.ts:365-381 | The result is over budget exactly when query and pinned chunks alone are, and then nothing unpinned is left |
| `Packing.LargerBudgetKeepsMore` | packages/context/src/engine.ts:342-382 | Raising the budget only adds to what is included |
| `Packing.StaticsKeptIff` | packages/context/src/engine.ts:352-377 | No static chunk is dropped exactly when all are pinned or query, static and pinned chunks fit together |
| `ContextReport.LaneTotals` | packages/context/src/engine.ts:466-473 | Tokens and count of each lane in use |
| `ContextReport.Lanes` | packages/context/src/engine.ts:466-479 | One report for each lane in use and for no other, in lane order; their tokens add up to all included tokens |
| `ContextReport.Breakpoints` | packages/context/src/engine.ts:515-528 | The loops yield the last maxBreakpoints of all the marks, one for each static lane with tokens |
| `ContextReport.MarksUpTo` | packages/context/src/engine.ts:515-524 | The marks of the first static lanes are all there, in lane order, each at the offset where its lane ends |
| `ContextReport.BreakpointsAre` | packages/context/src/engine.ts:515-528 | Breakpoints increase strictly, each is the end of a static lane with tokens, the last is the end of the static tokens, there are none exactly when none are allowed or there are no static tokens, and never more than the maximum |
| `ContextReport.SourceTotals` | packages/context/src/engine.ts:489-495 | Included tokens and count by source |
| `ContextReport.DroppedCounts` | packages/context/src/engine.ts:496-499 | Dropped chunks by source |
| `Assemble.ResolveCollected` | packages/context/src/engine.ts:153-160 | Every collected chunk resolved in order, with the number each source id handed in |
| `Provenance.ResolvedAt` | packages/context/src/engine.ts:153-160 | The j-th chunk of the k-th source is resolved at its place with its own id, lane and text, the label, role, tokens, relevance, priority, pin and time stamp it was handed in with, and for each one left out the default: the source, "user", the estimate of the text, a half, the source's priority, not pinned, the present plus its index; relevance is moved into [0, 1] |
| `Provenance.ResolveFillsIn` | packages/context/src/engine.ts:238-261 | The same for one chunk |
| `Provenance.EveryChunkComesFromASource` | packages/context/src/engine.ts:153-160 | Every resolved chunk is one that a source handed in |
| `Provenance.KeptWasCollected` | packages/context/src/engine.ts:170-202 | Whatever is kept was collected, and has at most its text and size replaced by the compressor's |
| `Provenance.KeptWhole` | packages/context/src/engine.ts:170-190 | A pinned chunk, one within the cap, and one that the compressor cannot shorten keep their text |
| `Provenance.ShorteningsTell` | packages/context/src/engine.ts:176-189 | Exactly the shortened chunks are reported, with their id, source, lane and sizes |
| `Provenance.ConversationIs` | packages/context/src/engine.ts:408-413 | The conversation is made of exactly the kept history chunks, oldest first |
| `Provenance.EveryMessageShowsATurn` | packages/context/src/engine.ts:408-413 | Every message before the user's own shows a history turn that a source handed in, under the role it was given, or as the user's if it had none |
| `Provenance.NothingKeptIsLost` | packages/context/src/engine.ts:386-435 | The text of every kept chunk is in the prompt: in the system text, as a message, or in the preamble |
| `Provenance.SectionOfTwo` | packages/context/src/engine.ts:386-399 | A section is its title on a line of its own, then the texts with a blank line between them |
| `Provenance.TitlesTellLanes` | packages/context/src/lanes.ts:15-39 | No two lanes share a title |
| `Assemble.RenderVolatile` | packages/context/src/engine.ts:401-435 | History as messages in time order, the other volatile lanes as a preamble on the final user message |
| `Assemble.HistoryIsInOrder` | packages/context/src/engine.ts:408-410 | The history kept by packing is in time order already |
| `Assemble.EveryChunkAccountedFor` | packages/context/src/engine.ts:166-202 | Included, dropped as duplicate and dropped for the budget add up to what was collected, overall and for each source label |
| `Assemble.BuildSources` | packages/context/src/engine.ts:501-513 | Each source report holds the true collected, included and dropped counts and tokens of its id |
| `Assemble.SourceBooksBalance` | packages/context/src/engine.ts:488-513 | Included and dropped of a source add up to the chunks labelled with it, and so to what it collected exactly when as many chunks carry its label as it handed in |
| `Assemble.ForeignLabelUnbalances` | packages/context/src/engine.ts:488-513 | A source that hands in a chunk labelled for another: its books do not balance |
| `Assemble.Run` | packages/context/src/engine.ts:153-232 | One whole assembly: system text, history messages in order, preamble and final user turn, lane and source reports, dropped and shortened chunks, breakpoints; lane totals plus the query equal the real tokens |
| `Compress.HeadAndTail` | packages/context/src/compress.ts:27-34 | A text no shorter than the character budget keeps a head of six tenths and a tail that do not overlap, around the marker, in exactly the allowed length |
| `Compress.OverlapGrows` | packages/context/src/compress.ts:27-34 | A text shorter than the character budget keeps everything, some of it twice, and grows |
| `Compress.ShorterIff` | packages/context/src/compress.ts:17-35 | Cutting makes a text shorter exactly when it was longer than both four characters a target token and the marker |
| `Compress.FitsIff` | packages/context/src/compress.ts:17-35 | At four characters a token the result meets the target exactly when nothing was to be cut, the target is not positive, or it is at least four |
| `Compress.FitsByDefaultIff` | packages/context/src/compress.ts:17-35 | With the default estimate a cut text meets the target exactly when the target is at least four, the text is no shorter than the character budget, and head and tail hold fewer words than the target |
| `Compress.SavesByDefaultIff` | packages/context/src/compress.ts:17-35 | With the default estimate cutting saves tokens exactly when the text is no shorter than the character budget and the target, and the kept words with the marker, are below what the text cost |
| `Compress.CuttingManyShortWordsCostsTokens` | packages/context/src/compress.ts:27-34 | With the default estimate a text that is cut although it is below the character budget costs more tokens after the cut |
| `Compress.ManyShortWordsExistIff` | packages/memory/src/score.ts:25-30 | With the default estimate texts that are cut although they are below the character budget exist exactly for targets from nine tokens on |
| `Compress.TailKeepsIff` | packages/context/src/compress.ts:39-44 | How much of the tail is kept: all the budget allows, except when the text is shorter than the budget and longer than half of it |
| `Compress.TailLosesRoom` | packages/context/src/compress.ts:39-44 | Ten one-letter words cut for nine tokens: all of them would fit the budget, and only two characters are kept |
| `AgentLoop.OodaLoop` | packages/agent/src/runner.ts:291-600 | The loop over the shared task store ends with the store and the result that the step function gives for the whole run, sub-agents included |
| `AgentLoop.Step` | packages/agent/src/runner.ts:375-512 | Plan, act, evaluate, verify and record one step |
| `AgentLoop.PlanStep` | packages/agent/src/runner.ts:375-390 | Planning applies its directives and notes when the objective's task exists |
| `AgentLoop.JudgeStep` | packages/agent/src/runner.ts:434-495 | The verdict of a step is the policy's, or that of one verification when the policy cannot tell |
| `AgentLoop.SumUsage` | packages/shared/src/usage.ts:49-73 | Componentwise sum; the cost is absent exactly when every part's is |
| `TaskStores.TaskStore.Create` | packages/tasks/src/store.ts:78-109 | A task whose id is taken, whose parent is unknown, or one of whose dependencies is unknown or itself is refused, with the first of these reasons in that order, and the store is left as it was; otherwise the task is stored with each dependency once |
| `TaskStores.TaskStore.Update` | packages/tasks/src/store.ts:125-161 | A patch keeps what it does not name; refused for an unknown task |
| `TaskStores.RefusedIff` | packages/tasks/src/store.ts:191-200 | A task with a new id has a bad dependency exactly when it names one that is not in the store |
| `TaskStores.ResolvesWith` | packages/tasks/src/store.ts:78-109 | A store whose references all resolve still has them all resolve after a creation |
| `AgentPlan.ApplyDirectives` | packages/agent/src/runner.ts:168-192 | Directives are applied in order; an existing task is not added again, an unknown parent is dropped, an update of an unknown task is skipped |
| `AgentStory.AddMakesTheTask` | packages/agent/src/runner.ts:170-183 | A directive to add makes the task it describes, with an unknown parent left off and status todo if none is given, unless there is one; no other task changes |
| `AgentStory.UpdatePatchesTheTask` | packages/agent/src/runner.ts:184-191 | A directive to update replaces status, notes and title where given and keeps everything else |
| `AgentStory.FirstPlanMirrorsTheGoal` | packages/agent/src/policies.ts:50-61 | The first plan has a task for the objective, under way, and below it an open task for each criterion, with their texts as titles |
| `AgentPolicies.EvaluateStep` | packages/agent/src/policies.ts:77-223 | The built-in evaluation, computed in one pass over the criteria and one over the tool results |
| `AgentStory.CountsAsRetryIff` | packages/agent/src/policies.ts:127-187 | A step counts against the retry budget exactly when it was not cancelled and its run is missing, did not finish, was cut short or partial, or a tool failed; unless the role may hand over, is not the coordinator, and a tool result names a missing tool |
| `AgentStory.FirstOpenIsBlocked` | packages/agent/src/policies.ts:107-160 | A failed step marks the criteria found in the evidence done, blocks the first of the others and leaves the rest |
| `AgentStory.RecoveryTaskTells` | packages/agent/src/policies.ts:148-170 | A recovery task is added exactly on a retry, under the objective, with the first tool error as its notes |
| `AgentStory.CoordinatorGetsTheGoal` | packages/agent/src/policies.ts:309-315 | A step is handed to the coordinator with the same criteria and an objective that begins with the same words |
| `AgentPolicies.NoneOpenIff` | packages/agent/src/policies.ts:107-117 | No criterion is open exactly when every criterion occurs in the evidence |
| `AgentPolicies.VerifiedOnlyOnAVerdict` | packages/agent/src/policies.ts:402-433 | The default verification says met exactly on evidence plus a cleanly finished answer that says MET and never NOT_MET |
| `AgentHonesty.SuccessSignalsAgree` | packages/agent/src/runner.ts:553-571 | For any policy: goal flag, verdict "met" and stop reason "goal-met" coincide in every result |
| `AgentHonesty.MetExactlyOnEvidence` | packages/agent/src/runner.ts:344-365 | Under the built-in policies a run reports its goal met exactly when its last step neither failed nor was cancelled and every criterion occurs in its evidence or, with none declared, the verification said met; no earlier step meets that |
| `AgentHonesty.MetExactlyOnAVerdict` | packages/agent/src/policies.ts:189-208 | With no criteria and the default verification a run reports its goal met exactly when its last step neither failed nor was cancelled, has evidence, and its verification turn says MET and never NOT_MET; no earlier step does |
| `AgentStory.MetMeansCleanEnd` | packages/agent/src/policies.ts:107-146 | With the built-in evaluations a run reported met ends in a step that was not cancelled, whose provider run finished, was neither cut short nor partial, with no failed tool, and in whose evidence every criterion occurs |
| `AgentStory.VerifiedRunIsMetIff` | packages/agent/src/policies.ts:402-433 | With no criteria and the default verification a run is met exactly when its last step is such a clean one, left evidence that is not blank, and its first evaluation turn finished, was not cut short, and gives MET and never NOT_MET |
| `AgentStory.RunStopsAtFirstReason` | packages/agent/src/runner.ts:553-571 | For any policy: a run stops at the first step that gives a reason and for that reason (a forced stop, a cancellation, a met goal, a row of indeterminate steps, in this order), else when its steps are used up or it is cancelled; its verdict is that of its last step, met only for a met goal, and its final text the last that was not blank |
| `AgentStory.EvidenceShowsEveryAnswer` | packages/agent/src/runner.ts:430-431 | For any policy: each step is judged on evidence that holds, after line breaks, the text of its run and of each of its tool results |
| `AgentStory.SubAgentsEnterTheEvidence` | packages/agent/src/runner.ts:539-551 | For any policy: every delegating step has a sub-agent of its own, whose final text is in the evidence of the next step |
| `AgentStory.SubAgentsDoAsAsked` | packages/agent/src/runner.ts:530-547 | For any policy: a sub-agent has the role, goal and step budget it was given, delegates to none, gives up at its third unclean step, and reports its goal met only on a clean last step and on evidence for it |
| `AgentHonesty.NothingMetUnchecked` | packages/agent/src/policies.ts:189-208 | Without criteria and without verification no run is ever reported met |
| `AgentHonesty.FlagFollowsVerdictIff` | packages/agent/src/runner.ts:450-496 | For any policy: after a step, the goal flag agrees with the verdict exactly when the step was verified or the policy's answer agreed with itself |
| `AgentHonesty.FlagOverridesVerdict` | packages/agent/src/runner.ts:450-452 | A policy that answers "unmet" with the goal flag raised makes the run report its goal met |
| `AgentHonesty.SuccessCarriesItsVerdict` | packages/agent/src/runner.ts:553-571 | For any policy whose answers agree with themselves and force no success, a reported success ends in a step judged met and not cancelled |
| `AgentHonesty.EvidenceOnlyGrows` | packages/agent/src/runner.ts:430-431 | For any policy: the evidence of each step begins with that of every step before it |
| `AgentBounds.BlockedExactlyWhenRetriesRunOut` | packages/agent/src/policies.ts:148-187 | A run has at most one failed, uncancelled step more than its retry budget, and stops blocked exactly when it has that one more; steps handed to the coordinator do not count |
| `AgentBounds.RetriesStayWithinBudget` | packages/agent/src/policies.ts:148-187 | The retries a run counts never exceed its budget |
| `AgentBounds.BuiltInAnswers` | packages/agent/src/policies.ts:77-332 | How the built-in evaluations answer a cancelled, failed, handed-over and clean step |
| `AgentBounds.DelegationIsOneDeep` | packages/agent/src/runner.ts:524-551 | Whatever a run's own policies, it starts at most one sub-agent a step and none of them starts another |
| `AgentBounds.TotalWorkIsBounded` | packages/agent/src/policies.ts:294-332 | With delegation to a coordinator of M steps, all steps together are at most maxSteps * (1 + M) |
| `AgentBounds.UsageIsWhatWasSpent` | packages/agent/src/runner.ts:420-422 | For any policy: the usage of a run is that of its steps, its evaluation turns and its sub-agents, all the way down |
| `AgentBounds.SumAddsComponents` | packages/shared/src/usage.ts:49-73 | Every count of a sum grows by that of the usage added; the cost grows likewise once one is known |
| `AgentProgress.CriteriaOnlyProgress` | packages/agent/src/policies.ts:107-160 | From any point of a built-in run to its end: a criterion marked done stays done, one marked done occurs in the evidence, and a met goal leaves everything done |
| `AgentProgress.MetGoalIsAllDone` | packages/agent/src/runner.ts:497-503 | A goal reported met leaves the objective and every criterion done in the plan |
| `AgentProgress.SatisfiedStays` | packages/agent/src/policies.ts:107-117 | A criterion that occurs in the evidence still occurs after a line is appended, for any case folding that works line by line |
| `AgentProgress.StatusOfJudgement` | packages/agent/src/policies.ts:107-171 | A judged step marks a satisfied criterion done, and leaves another as it was or blocks it |
| `AgentProgress.LoopSpares` | packages/agent/src/runner.ts:524-551 | A sub-agent leaves the tasks of other runs alone, and no built-in run touches a recovery task that existed |
| `AgentProgress.RetriesLeaveOpenTasks` | packages/agent/src/policies.ts:161-170 | The recovery task of every retried step, unless one of its name was there before the run, is still open when the run ends, however it ends and whether or not it delegates |
| `AgentProgress.MetGoalIsFinishedIff` | packages/agent/src/policies.ts:148-187 | A met goal leaves every task under its objective done exactly when every retried step found a recovery task of its name already there: so, with none there, exactly when no step was retried |
| `AgentProgress.RetriedGoalLeavesTaskOpen` | packages/agent/src/policies.ts:161-170 | A run that fails once, is retried, meets its goal and leaves a task under its objective open |
| `AgentProgress.EarlierRecoveryIsKept` | packages/agent/src/policies.ts:163-169 | A recovery task is named by role and step number only: one left by an earlier run is kept as it is |
| `Verdicts.ParseVerdict` | packages/agent/src/policies.ts:361-391 | The scanning loop yields met, or unmet, exactly when only that verdict is given anywhere in the answer |
| `Verdicts.SingleTokenVerdict` | packages/agent/src/policies.ts:362 | An answer with a single token counts by the word after it, unless that word goes on |
| `Verdicts.Exec` | packages/agent/src/policies.ts:362-371 | The first match at or after a position, or none if there is none |
| `Verdicts.NoTokenInside` | packages/agent/src/policies.ts:366-371 | No match begins inside another, so resuming at the end of a match skips nothing |
| `Verdicts.BothFormsSettleNothing` | packages/agent/src/policies.ts:350-391 | An answer that quotes both reply forms, anywhere, is indeterminate |
| `Verdicts.EchoSettlesNothing` | packages/agent/src/policies.ts:411-427 | An answer that contains the whole evaluation prompt, with anything around it, is indeterminate |
| `AsyncQueues.NthCallGetsNthPush` | packages/agent/src/queue.ts:22-58 | In any history the n-th call gets the n-th value pushed before the queue closed or failed; later calls get the end or the failure, even a falsy one, once there is one |
| `AsyncQueues.AnswersNeverChange` | packages/agent/src/queue.ts:22-58 | A settled promise never changes |
| `AsyncQueues.HistoryDecides` | packages/agent/src/queue.ts:22-45 | Only pushes before the first close or failure are accepted, in order, and only the first ending counts |
| `AsyncQueues.AsyncQueue.Push` | packages/agent/src/queue.ts:22-27 | Hands the value to the first waiter or buffers it; dropped after an ending |
| `AsyncQueues.AsyncQueue.Close` | packages/agent/src/queue.ts:29-35 | Ends the queue and settles every waiter once |
| `AsyncQueues.AsyncQueue.Fail` | packages/agent/src/queue.ts:37-45 | Fails the queue and settles every waiter once |
| `AsyncQueues.AsyncQueue.Next` | packages/agent/src/queue.ts:47-58 | Buffered values before the failure before the end; otherwise the call waits |
| `Approvals.ApprovalBroker.RequestApproval` | packages/cli/src/commands.ts:3773-3822 | An approval is announced and, unless its turn is cancelled already, pending |
| `Approvals.ApprovalBroker.FinishOne` | packages/cli/src/commands.ts:3811-3816 | The first callback settles a pending approval and announces it; any later one does nothing |
| `Approvals.ApprovalBroker.DenyAllPending` | packages/cli/src/commands.ts:3834-3836 | At end of input every pending approval is refused |
| `Approvals.ApprovalBroker.AbortScope` | packages/cli/src/commands.ts:3817-3818 | Cancelling a turn refuses exactly the approvals that listen to it |
| `ChatLoop.InvStep` | packages/cli/src/commands.ts:3759-3837 | Every step of reader, worker, decisions, timeouts, cancellations and end of input keeps the invariant of queue, wake callback and pending table |
| `ChatLoop.EveryPromptIsAccepted` | packages/cli/src/commands.ts:4475-4505 | The prompts accepted are exactly those among the events: the prompt lines before the first end of input that is read while no provider switch is awaited, whatever the worker is doing |
| `ChatLoop.PromptsRunInOrder` | packages/cli/src/commands.ts:4468-4529 | In every interleaving the prompts among the events run one at a time, in that order, each once: those begun followed by those queued are all of them |
| `ChatLoop.NoLostWakeup` | packages/cli/src/commands.ts:4469-4524 | The worker is never parked on a queued prompt or on closed input, and can be woken whenever it is parked |
| `ChatLoop.LeavesOnlyWhenDone` | packages/cli/src/commands.ts:4513-4524 | The worker leaves only when input is closed and every prompt among the events has had its turn |
| `ChatLoop.DrainsAfterClose` | packages/cli/src/commands.ts:4506-4524 | Once input is closed, in every interleaving: the worker has left exactly when it took two steps for each queued prompt, one to leave, and one for a turn under way; it never takes more, the next one is always enabled, and when it leaves every accepted prompt has had its turn |
| `ChatLoop.ApprovalsResolvedOnce` | packages/cli/src/commands.ts:3773-3837 | In every run an approval is resolved at most once and is pending exactly in between |
| `ChatLoop.DecisionSettlesExactlyItsApproval` | packages/cli/src/commands.ts:3829-3831 | A decision line settles the pending approval it names, as decided, and otherwise changes nothing |
| `ChatLoop.EndOfInputDeniesAll` | packages/cli/src/commands.ts:4506-4510 | End of input refuses every pending approval and leaves none |
| `ChatLoop.TimeoutRefuses` | packages/cli/src/commands.ts:3819 | A timeout refuses its approval if that is still pending, and otherwise changes nothing |
| `ChatLoop.SignalCancelsTheTurn` | packages/cli/src/commands.ts:4461-4466 | A signal cancels the turn under way, refuses exactly the approvals that listen to it and keeps the others |
| `ChatLoop.RequestIsAnnounced` | packages/cli/src/commands.ts:3773-3822 | A request is announced and waits, listening to the turn under way; in a cancelled turn it is refused at once |
| `ChatLoop.ResolutionsAreCaused` | packages/cli/src/commands.ts:3773-3837 | In every run each resolution has its cause among the events, and only a decision to allow that is heard grants an approval |
| `ChatLoop.CancelledTurnsWaitForNothing` | packages/cli/src/commands.ts:3806-3820 | No approval waits on a cancelled turn |
| `LineDiff.UnifiedLineDiff` | packages/cli/src/commands.ts:3653-3707 | No change for equal texts, an omission over the line cap, otherwise one hunk that spells both texts and is as short as any such diff |
| `LineDiff.Walk` | packages/cli/src/commands.ts:3682-3705 | The walk yields a correct diff that keeps as many lines as a longest common subsequence, removals before additions |
| `LineDiff.FillTable` | packages/cli/src/commands.ts:3674-3681 | The nested loops fill a table that obeys the recurrence |
| `LineDiff.NoLongerPairing` | packages/cli/src/commands.ts:3674-3681 | No common subsequence of two tails is longer than their cell says |
| `LineDiff.LongestPairing` | packages/cli/src/commands.ts:3674-3681 | Some common subsequence of two tails is as long as their cell says |
| `LineDiff.ShortestIffLongestKept` | packages/cli/src/commands.ts:3682-3705 | A diff is a shortest one exactly when it keeps as many lines as a longest common subsequence |
| `LineDiff.NoRemovalAfterAddition` | packages/cli/src/commands.ts:3685-3697 | After an addition the walk never removes before it keeps a line |
| `PlanOrder.OrderPlanForPersist` | packages/cli/src/commands.ts:1912-1941 | The repeated splice loop rearranges the plan, and into creation order exactly when there is one, that is when the plan holds no knot of tasks waiting on each other and, with unique ids, when its references run in no circle |
| `PlanOrder.KnotHasNoOrder` | packages/cli/src/commands.ts:1902-1941 | A knot rules out every creation order |
| `PlanOrder.LeftoversAreKnot` | packages/cli/src/commands.ts:1924-1939 | What the loop cannot place is a knot |
| `PlanOrder.KnotIffCycle` | packages/cli/src/commands.ts:1902-1941 | With unique ids a plan holds a knot exactly when its parent and dependency references run in a circle |
| `PlanOrder.PersistPlan` | packages/cli/src/commands.ts:1950-1968 | Writes in that order; fails exactly on an id in use or repeated, with what was written until then; loses no in-plan edge exactly when the plan has no knot |
| `PlanOrder.EdgesKeptIffInOrder` | packages/cli/src/commands.ts:1953-1966 | No in-plan parent or dependency is dropped exactly when every task comes after those it needs |
| `TokenRefresh.AtMostOneRefresh` | packages/auth/src/store.ts:113-132 | In every interleaving at most one refresh of a token is under way |
| `TokenRefresh.OnlyTheInstallerRemoves` | packages/auth/src/store.ts:132-137 | A map entry disappears only when the caller that installed it returns |
| `TokenRefresh.SettledFlightFreesSlot` | packages/auth/src/store.ts:133-137 | A settled refresh, failed or not, frees the slot when its owner returns, with its outcome |
| `TokenRefresh.SettledNeverChanges` | packages/auth/src/store.ts:117-131 | A settled refresh keeps its outcome in every continuation |
| `TokenAnswers.EveryCallerIsTold` | packages/auth/src/store.ts:98-138 | In every run what a caller has been told is nothing exactly on an empty first read, the set it read if that was fresh, a failure if that was stale and without a refresh token, and otherwise the outcome of the refresh under way then or started by it |
| `TokenAnswers.WaitersGetTheOutcome` | packages/auth/src/store.ts:113-138 | A caller that owns or joined a settled refresh gets its outcome when it returns |
| `TokenAnswers.EveryFlightIsExplained` | packages/auth/src/store.ts:117-131 | In every run a refresh that re-read holds what the store held then, one about to write holds the endpoint's answer, and a settled one ended with a set that was fresh, with the set it has just stored, or in failure |
| `TokenAnswers.EveryCallCanEnd` | packages/auth/src/store.ts:98-138 | No call is ever stuck: from wherever it stands at most seven steps of its own and its refresh bring it to its end |
| `TokenRefresh.ReplayedIff` | packages/auth/src/store.ts:98-138 | In every run, whatever clears, logins and failed writes it holds, a consumed refresh token is sent again exactly if at some step a flight that needs a refresh goes by a token whose successor was lost, or, the store offering none, by the token of its caller's first read that was rotated since then (or was just being replaced then) |
| `TokenRefresh.FallbackConsumedIff` | packages/auth/src/store.ts:117-128 | The token a flight falls back to was consumed exactly if its successor was lost or it was rotated since the caller's first read |
| `TokenRefresh.FlightGoesByFirstRead` | packages/auth/src/store.ts:100-116 | What a flight falls back to is what the caller that waits for it read first |
| `TokenRefresh.BooksStep` | packages/auth/src/store.ts:98-138 | Every step of every caller, disturbed or not, keeps the books on which tokens are consumed, stored, lost or about to be sent |
| `TokenRefresh.SteadyStep` | packages/auth/src/store.ts:98-138 | Every step other than a clear, a login without a refresh token and a failed write keeps the invariant that no write was lost and that a store which a running call found refreshable still is |
| `TokenRefresh.NoReplay` | packages/auth/src/store.ts:98-138 | Hence in every run without clear, login without a refresh token, or failed write, a consumed refresh token is never sent again |
| `TokenRefresh.ClearOrBareLoginLetsReplay` | packages/auth/src/store.ts:117-128 | After a clear, or a login without a refresh token, an overtaken caller falls back to what it read first and sends a consumed token |
| `TokenRefresh.FailedWriteLetsReplay` | packages/auth/src/store.ts:125-131 | When the rotated set cannot be written the next refresh sends the consumed token |
| `TokenRaces.SeparateNeverReplays` | packages/auth/src/store.ts:57-70 | Over any number of store instances: if no flight re-reads while another is between its own re-read and its end, no undisturbed run sends a consumed token again, wherever the first reads lie |
| `TokenRaces.OverlapLetsReplay` | packages/auth/src/store.ts:57-70 | In every state in which a flight may re-read while another has sent the stored token, the run can go on so that the token is sent again |
| `TokenRaces.TwoInstancesReplay` | packages/auth/src/store.ts:57-70 | Two instances with one stale set both re-read it, and the token that the first one rotates is sent again by the second |
| `ActionGuard.Guard.Check` | packages/cli/src/transfer.ts:702-737 | One call on the window of its session, as the automaton decides; other sessions' windows stay as they are |
| `ActionGuard.Guard.Open` | packages/cli/src/transfer.ts:523-534 | A handoff replaces the session's window |
| `ActionGuard.WindowAfter` | packages/cli/src/transfer.ts:705-712 | After any calls the window is gone exactly when they spanned more mutating turns than it protects |
| `ActionGuard.AnswerAfter` | packages/cli/src/transfer.ts:702-737 | The answer to a call after any history: refused for a changed workspace exactly if one is expected and no mutating call so far found that very one, refused as a repeat exactly if then its id or its fingerprint is blocked, with the turns left, or allowed; each only within the protected turns |
| `ActionGuard.ProtectedTurnsAreSafe` | packages/cli/src/transfer.ts:713-735 | In a protected turn nothing is allowed before the expected workspace was seen, and no blocked id or input is allowed |
| `ActionGuard.RepeatIff` | packages/cli/src/transfer.ts:724-735 | With clean inputs an action is taken for a repeat exactly when its id is blocked or it has the name, and up to key order the input, of a blocked action |
| `ActionGuard.ProtoRefusesAnother` | packages/cli/src/transfer.ts:724-735 | A blocked action with a "__proto__" member makes the guard refuse a different one |
| `ActionGuard.ReadsAreFree` | packages/cli/src/transfer.ts:702-712 | Reads are always allowed, and leaving every read out of a history changes neither the answer to any later call nor the window after it |
| `CanonicalJson.SameCanonicalIff` | packages/cli/src/transfer.ts:114-129 | Inputs equal up to key order have the same canonical form; any two have exactly when they are equal up to key order once "__proto__" members are removed and non-finite numbers replaced by their names |
| `CanonicalJson.EqualIffSameCanonical` | packages/cli/src/transfer.ts:114-129 | Two inputs without "__proto__" members and non-finite numbers have the same canonical form exactly when they are equal up to key order |
| `CanonicalJson.SameTextIff` | packages/cli/src/transfer.ts:114-135 | Inputs equal up to key order are always hashed from the same text; any two exactly when what the canonical form keeps of them is equal, and so, with no "__proto__" member and no non-finite number in either, exactly when they are equal up to key order |
| `CanonicalJson.TellsApartIffClean` | packages/cli/src/transfer.ts:114-135 | The text of an input tells it from every clean input that is not equal to it up to key order exactly when it is clean itself, that is, holds no "__proto__" member and no non-finite number |
| `CanonicalJson.ProtoCollides` | packages/cli/src/transfer.ts:122-125 | `{"__proto__": "x"}` and `{}` differ and are hashed from the same text |
| `CanonicalJson.InfinityCollides` | packages/cli/src/transfer.ts:116 | `1e999` and `"Infinity"` differ and are hashed from the same text |
| `CanonicalJson.StripIs` | packages/cli/src/transfer.ts:114-129 | What the canonical form keeps of an input is clean and has the same canonical form, and a clean input is kept whole |
| `CanonicalJson.EqualToClean` | packages/cli/src/transfer.ts:114-129 | An input equal up to key order to a clean one is clean |
| `CanonicalJson.SamePreimageIff` | packages/cli/src/transfer.ts:131-135 | The hashed text determines the name, whatever characters it has, and what the canonical form keeps of the input |
| `CanonicalJson.PreimageAgreesExactlyOnSameActions` | packages/cli/src/transfer.ts:131-135 | Actions with one name and inputs equal up to key order are hashed from the same text; those with clean inputs only then |
| `CanonicalJson.WriteDetermined` | packages/cli/src/transfer.ts:133 | The JSON text of a canonical value determines the value, whatever follows it |
| `CanonicalJson.KeyOrderIsIrrelevant` | packages/cli/src/transfer.ts:122-124 | Two objects that hold the same members, in any order whatever, have the same canonical form and the same text |
| `EditDistance.Compute` | packages/cli/src/args.ts:52-69 | The table-filling loops compute the cheapest alignment by keeping, substituting, inserting, deleting and swapping neighbours |
| `EditDistance.TableGivesDistance` | packages/cli/src/args.ts:55-68 | Any table that obeys the recurrence ends in the minimum over all alignments |
| `EditDistance.Symmetric` | packages/cli/src/args.ts:52-69 | The distance is symmetric |
| `EditDistance.ZeroExactlyWhenEqual` | packages/cli/src/args.ts:52-69 | The distance is zero exactly for equal strings |
| `EditDistance.BetweenLengthGapAndLongerLength` | packages/cli/src/args.ts:52-69 | The distance lies between the length difference and the longer length |
| `EditDistance.TypingErrorsAreOneEdit` | packages/cli/src/args.ts:52-69 | Two neighbouring characters the wrong way round, or one wrong, missing or extra character, anywhere in a string, are at most one edit |
| `EditDistance.NearestFlagName` | packages/cli/src/args.ts:72-89 | A suggestion is made exactly when the nearest candidate is one or two edits away, and is a nearest one |
| `Argv.ParseArgs` | packages/cli/src/args.ts:106-189 | The parsing loop yields what its items amount to |
| `Argv.EveryTokenOnce` | packages/cli/src/args.ts:130-182 | Each token is read exactly once, in order |
| `Argv.TokenReadsBack` | packages/cli/src/args.ts:146-151 | A token made of dashes, a name without an equals sign and, after one, a value is read as that name and that value, whatever characters the value has |
| `Argv.ValueFlagIsSet` | packages/cli/src/args.ts:146-164 | A flag that takes a value is set to the one after its equals sign, else to the next token, else to the empty string, and nothing else changes |
| `Argv.MultiFlagCollects` | packages/cli/src/args.ts:146-170 | A flag that collects values gets one more, in order |
| `Argv.SwitchIsSet` | packages/cli/src/args.ts:171-178 | Any other flag is set as a switch under its canonical name, and reported as unknown exactly when it is not declared |
| `Argv.WordIsPositional` | packages/cli/src/args.ts:180-183 | A token without a leading dash is positional |
| `Argv.AfterDashes` | packages/cli/src/args.ts:137-144 | After dashes that no flag swallows, all that follows is positional as written, and nothing else changes |
| `Argv.DashesEndOptionsIff` | packages/cli/src/args.ts:137-160 | The dashes make all that follows positional exactly when no flag before them waits for its value |
| `Argv.CwdSwallowsDashes` | packages/cli/src/args.ts:137-160 | `--cwd -- --` parses to the directory `--` and nothing else |
| `Argv.JobArgsRoundTrip` | packages/cli/src/jobs-registry.ts:362 | The detached job's process parses back the directory, command and arguments it was launched with, whatever they are |
| `Config.DeepMerge` | packages/config/src/loader.ts:57-69 | The copy-and-assign loop computes the merge |
| `Config.MergeWithNothing` | packages/config/src/loader.ts:57-69 | The empty object is an identity, on the left exactly for sources without undefined members |
| `Config.MergeAgain` | packages/config/src/loader.ts:57-69 | Merging a source again changes nothing |
| `Config.AssociativeIff` | packages/config/src/loader.ts:57-69 | Three layers merge alike from below and from above exactly when, wherever the outer two hold objects, the middle one holds an object or nothing, or hides only what would not show |
| `Config.GroupingMatters` | packages/config/src/loader.ts:57-69 | Three layers that merge differently from below and from above |
| `Config.HidesIff` | packages/config/src/loader.ts:57-69 | A merge gives back its source exactly when nothing of the target shows |
| `Config.SourceWins` | packages/config/src/loader.ts:57-69 | A value of the higher layer that is no object wins; arrays replace |
| `Config.HighestLayerWins` | packages/config/src/loader.ts:269-299 | In the fold over the layers a path reads as the highest layer that gives a value for it |
| `Config.LoadLayers` | packages/config/src/loader.ts:269-299 | The fold over the layers, lowest first |
| `Config.GetPath` | packages/cli/src/config-io.ts:217-228 | The cursor loop reads the path |
| `Config.RefusedIff` | packages/cli/src/config-io.ts:193-215 | A write is refused exactly when a part of the path is a refused name, and the first such part is named |
| `Config.GetAfterSet` | packages/cli/src/config-io.ts:193-215 | What was written is what is read |
| `Config.SetKeepsIff` | packages/cli/src/config-io.ts:193-215 | A path that parts from the written one reads as before exactly when it had no value or no array lay on the shared part |
| `Config.ArrayGivesWay` | packages/cli/src/config-io.ts:193-215 | Writing one member of an array loses another: the array gives way to an object |
| `Embeddings.CachingEmbedder.Embed` | packages/cli/src/power.ts:143-168 | From a sound cache with any losses: each text gets its own vector, in order, only misses reach the inner embedder, and the cache stays sound |
| `Embeddings.CachingEmbedder.Fill` | packages/cli/src/power.ts:158-166 | Each missing text's vector goes to its slot and into the cache |
| `Embeddings.EmbeddedOnceIff` | packages/cli/src/power.ts:125-130 | With a cache that loses nothing, no text is ever embedded twice exactly when no batch repeats a text it misses |
| `Embeddings.RepeatsAreEmbeddedAgain` | packages/cli/src/power.ts:143-168 | A text repeated in one batch is embedded each time |
| `AgentPolicies.WithoutRecovery` | packages/agent/src/policies.ts:327-329 | A handed-over step keeps exactly the edits that add no recovery task |
| `AgentLoop.TurnUsages` | packages/agent/src/runner.ts:631-653 | The usage of every evaluation turn that settled, among those asked |
| `AgentProgress.JoinTracks` | packages/agent/src/runner.ts:539-551 | A sub-agent's run and text leave the parent's criteria as they were |
| `AgentHonesty.BuiltInMeets` | packages/agent/src/policies.ts:107-146 | The built-in evaluations raise the goal flag exactly on a step that meets the goal, and never force that stop |
| `LineDiff.Split` | packages/cli/src/commands.ts:3665-3666 | The lines of a text hold no line break and join back to it |
| `PlanOrder.FilterThenTrim` | packages/cli/src/commands.ts:1954-1955 | Filtering parent and dependencies before creation changes nothing about what is stored |
| `PlanOrder.CreatedKeepsEdgesIffInOrder` | packages/cli/src/commands.ts:1950-1968 | The created tasks carry every in-plan edge exactly when the order is a creation order |
| `TokenRefresh.SlotInvStep` | packages/auth/src/store.ts:98-138 | Every step of every caller keeps the invariant of map entry, owner and flight |
| `ChatLoop.InvAlong` | packages/cli/src/commands.ts:4468-4529 | The invariant holds after every run |
| `Approvals.SettleSome` | packages/cli/src/commands.ts:3811-3836 | Settling any pending approvals keeps the rest pending and each id resolved at most once |
| `EditDistance.NoCheaperAlignment` | packages/cli/src/args.ts:58-67 | No alignment of two prefixes is cheaper than their cell says |
| `EditDistance.CheapestAlignment` | packages/cli/src/args.ts:58-67 | Some alignment of two prefixes costs exactly what their cell says |
| `EditDistance.CollectTies` | packages/cli/src/args.ts:73-83 | The search loop ends with the smallest distance and every candidate at it, in order |
| `Verdicts.MatchAt` | packages/agent/src/policies.ts:362 | One position is read as the regular expression reads it |
| `Config.TargetShowsThrough` | packages/config/src/loader.ts:57-69 | A path on which the source gives nothing reads as in the target |
| `Config.MergeWithItself` | packages/config/src/loader.ts:57-69 | Merging an object with itself gives it back |
| `Config.OtherPathsAfterSet` | packages/cli/src/config-io.ts:193-215 | What any other path reads after a write: as before, or nothing if an array above where the paths part gave way |

## Left out

- Collection of sources in parallel and its timeouts: a source that failed or timed out contributed no chunks.
- The normalisation of texts for dedupe, and NaN or rounding in scores: `norm` is any function, scores are reals.
- Resolved chunks as shared objects: the compression loop's in-place update is modelled as a new sequence, and chunk titles are not kept.
- ContextReport.Lanes: walks the lanes in order instead of sorting the map's entries; the result is the same list.
- ContextReport fields that copy others (static and volatile token sums, stable prefix, timed-out sources).
- Packing.IncludedAre: for distinct chunk ids, which the packer's filter by id relies on; of two chunks that share an id it would drop both. The results about the context engine that need it say so with `UniqueIds`.
- Compress.HeadAndTail: targets are integers, and the head is six tenths rounded up in exact arithmetic; the source multiplies by 0.6 in floating point, which rounds to the same integer for every length that occurs.
- AgentLoop.OodaLoop: conversation messages, critiques, progress percentages and plan snapshots are not in the result; they feed the provider, whose answers are inputs, or the display.
- AgentLoop.Step: messages, critiques, verdict reasons and progress percentages, for the same reason; nor the step number in a recovery task's title.
- AgentPolicies.EvaluateStep: the critique, correction and progress fields, which feed the next prompt or the display and no decision.
- AgentPlan.ApplyDirectives: dependencies of an added task; no built-in policy declares any, and a custom one naming an unknown task would end the run with an exception.
- TaskStores.TaskStore.Create: validation of the status, time stamps and persistence. The dependency cycle check cannot fire while every reference in the store resolves, which creation and update keep; a hand-edited file is not modelled.
- TaskStores.TaskStore.Update: parent patches and their cycle check, which no modelled caller makes, time stamps and persistence.
- AgentPlan identifiers: a run's random identifier is the list of steps at which it was delegated, unique by construction, and task ids are values instead of formatted strings.
- AgentProgress.SatisfiedStays: lower-casing is any function that does not rewrite a text when a line is added after it.
- Tool filtering by role, permission gates, event persistence and the chunk stream of a run.
- AsyncQueues.AsyncQueue.Next: a promise is a ticket; the scheduling of its continuation is the consumer's.
- TokenRefresh.ReplayedIff: one provider and one store instance; several instances are in `TokenRaces`, whose flights begin with their caller's first read and are bound by no slot, so an instance's joined callers are not told apart.
- The rendering of approval payloads and of the diff header, and provider switches in the chat loop.
- CanonicalJson: strings are sequences of Unicode scalar values; lone surrogates, the UTF-16 order of keys outside the basic plane, circular references and values JSON does not have are not modelled. A finite number is the text JSON prints for it, so 0 and -0 are one.
- ActionGuard.Guard.Open: how a capsule is validated before its window opens.
- Config.GetPath: own members only; the source also finds inherited ones, such as `toString`.
- Config.GetAfterSet: writes are on values; the source updates nested objects in place, and two references to one nested object would both see it. The coercion of the text to a value, inherited members, and the order of keys are not modelled, and neither is a merged key named `__proto__`.
- Scrubbing of project layers, schema validation and the stripping of unrecognised keys in `loadConfig`.
- Argv.ParseArgs: the warning text for unknown flags; alias tables are given as maps.
- Argv.JobArgsRoundTrip: the process boundary and the command dispatch before the parser keep the tokens as they are.
- Embeddings.CachingEmbedder.Embed: the inner embedder embeds each text by itself and returns one vector a text.
- The file walk and budgets of `collectIndexableDocs`: a single pass that stops at the first overflow.
- Command handlers, terminal interface, HTTP, OAuth flows, storage, encryption and processes.
