# Schedulers and stateful engines of the LADA assistant, verified

A model of the parts of the assistant in which state matters most, with proofs about every run of it:

- the **plan executor** of `modules/advanced_planner.py`: a depth-first ordering of a dependency graph that may
  have cycles and missing ids, a round-based executor (sequential, or on a pool) with retries, verification,
  bounded replanning and cancellation;
- the **layered task scheduler** of `modules/agent_collaboration.py`, and its agreement with the executor's rounds;
- the **rate limiter** of `modules/api_rate_limiter.py`, bounded over arbitrary intervals of time;
- the **tool-calling loop** of `modules/ai_command_agent.py` with its recovery strategies;
- the **file operations**, their undo log and the directory organiser of `modules/advanced_system_control.py`;
- the **skill trigger index** (`integrations/openclaw_skills.py`), the **response cache**
  (`modules/advanced_features.py`) and the **Markdown section writer** (`lada_memory.py`).

`dafny verify dfyconfig.toml` checks the whole project.

## How it is built

Each source object that is updated in place is a class with those fields (`Planner`, `CollaborationHub`,
`ApiRateLimiter`, `CommandAgent`, `SystemController`, `SkillsManager`, `ResponseCache`, `MarkdownMemory`,
`TopologicalSort.Sorter`). Each of its methods is proved to move the object's abstract value exactly as a function on
values says (`PlanModel`, `PlanRuns`, `TaskLayers`, `RateLimiting`, `ToolLoop`, `FileOps`, `TriggerIndex`), and the
theorems about whole runs are lemmas about those functions (`PlanTheorems`, `Confluence`, `PartialSuccess`,
`SchedulerAgreement`, `RateBounds`, `Organizer`, `UndoExamples`, `MarkdownSections`, `SectionContents`,
`SectionLosses`, `WritingTwice`, `Consolidation`, `MarkdownExamples`).

What each operation does is also stated apart from those functions, in terms of its arguments, of the state before and
of what the outside answers, and proved of them: `NodeOutcomes`, `PlanSteps`, `RunOutcomes`, `Replanning` and
`RejectedStep` for the executor, `RateDecisions` for the limiter, `ToolOutcomes` for the tool loops, `FileEffects` for
the file operations, `SkillList` and `SkillMatching` for the skills, `MarkdownOutcomes` for the section writer.

What the code cannot see is quantified over. An executor, an AI router, a provider, a tool and a cancelling thread are
oracles indexed by the number of questions asked so far, so every behaviour that depends on the past is covered. A pool
finishes a batch in an arbitrary permutation. Clock readings are arguments.

## Where the code does not do what one would expect

Each of these is kept as it is, with a lemma that shows it.

- A step that fails, is replanned and then succeeds leaves `is_complete` true and the plan PARTIAL, because
  `failed_nodes` never shrinks (`PartialSuccess.ReplannedSuccessEndsPartial`; the exact condition is in
  `PlanTheorems.FinalStatusAccounting`).
- The limiter is called a sliding window with a token bucket; it is a fixed window, and two whole bursts fit into an
  arbitrarily short time (`RateBounds.TwoBurstsBackToBack`).
- Its cleanup is unobservable exactly for windows of at most a day (`RateLimiting.CleanupInvisibleExactlyUpToADay`).
- Of the seven recovery strategies only backoff and, in one round of one loop, context collapse can follow a provider
  error (`ToolLoop.RecoveriesThatCanFire`; exactly when they do is `ToolLoop.RecoversExactly`).
- An undo that should put a file back does nothing when a directory has since been made at its path
  (`UndoExamples.BlockedUndoLosesFile`). The exact condition in `FileOps.UndoInvertsTraces` is for each of the next k undos
  restoring its state; all k together can restore the files although one of them is blocked
  (`UndoExamples.BlockedUndoCanBeHarmless`).
- Writing a section that is not the last one deletes every section behind the last time stamp
  (`MarkdownExamples.SectionBehindStampIsLost`), and in a file without a time stamp the stamp is glued onto the last
  line, whichever section that belongs to (`MarkdownExamples.LastLineIsGlued`). The exact condition under which the
  other sections survive is in `MarkdownSections.OthersKeptExactly`.
- Where the last time stamp stands before a section, writing that section cuts it off, and writing it again adds it as
  a new section before the footer, so that the two do not amount to one (`MarkdownExamples.TwiceIsNotOnce`). A stamp in
  the content cuts the content (`MarkdownExamples.ContentIsCut`). The exact conditions are in
  `WritingTwice.SectionWriteIsIdempotentExactly` and `SectionLosses.SectionHoldsContentExactly`.
- A section name that the memory file only mentions can never be written (`MarkdownMemory.MentionedHeaderIsNeverWritten`),
  and editing the last section loses the next new one (`MarkdownMemory.LastSectionEditLosesNextSection`); this happens
  to the file as it is first created (`MarkdownExamples.InitialFileLosesGoals`).

## Model

| member | source | states |
|---|---|---|
| TopologicalSort.Sort | modules/advanced_planner.py:654-680 | On every graph, cyclic or with missing ids, the order lists each node exactly once; a dependency that does not precede its dependent can reach it back; ids come in the order of the dictionary, but for those on which an id listed no later than the overtaken one depends. |
| TopologicalSort.Sorter.Visit | modules/advanced_planner.py:660-674 | The recursion terminates on nodes neither visited nor being visited, only appends to the order, and only what the node depends on, keeps the order free of repeats and dependency-first up to cycles, and restores the set being visited. |
| TopologicalSort.MisplacedDependencyIsOnACycle | modules/advanced_planner.py:654-680 | If a dependency comes after its dependent, each reaches the other and both are on a cycle. |
| TopologicalSort.AcyclicOrderIsTopological | modules/advanced_planner.py:654-680 | On an acyclic graph every in-plan dependency stands strictly earlier. |
| PlanRuns.RunNodeRuns | modules/advanced_planner.py:483-571 | Executing a node moves only that node; it ends COMPLETED and recorded as completed, or FAILED and recorded as failed, or is left in the middle only by a cancellation; the executor is called at most `max_retries` + 1 times. |
| NodeOutcomes.NodeOutcome | modules/advanced_planner.py:483-531 | Without cancellation a node completes if and only if some attempt up to `max_retries` returns and, where verification applies, is accepted when it is asked; the first such attempt is the last one made. Otherwise the node is FAILED with its retries counted, after exactly `max_retries` + 1 attempts. Told from the answers alone. |
| PlanSteps.CancelledNode | modules/advanced_planner.py:489-491 | A node begun after a cancellation makes no call and is left RUNNING. |
| PlanRuns.TryReplanReplans | modules/advanced_planner.py:589-644 | Replanning moves only the failed node, never to COMPLETED, spends one replan exactly when it makes the node PENDING again, and otherwise leaves it failed or REPLANNING. |
| PlanSteps.ReplanOutcome | modules/advanced_planner.py:589-644 | What replanning does, told from the router's reply: nothing without a router or a replan left; PENDING again with retries left; else an unusable reply leaves REPLANNING, any other gives PENDING, one replan spent, and the revised expectation if the reply has one. |
| PlanRuns.SequentialBatchAdvances | modules/advanced_planner.py:338-358 | A sequential round keeps the run's invariant and its conservation law: executions + pending nodes are balanced by replans. |
| PlanSteps.SequentialInOrder | modules/advanced_planner.py:338-358 | A sequential round executes its nodes in order, each after those before it have been executed and replanned, and nothing after a cancellation. |
| PlanSteps.CancelledBatchStops | modules/advanced_planner.py:338-340 | A sequential round that finds itself cancelled executes nothing more. |
| PlanRuns.PoolBatchAdvances | modules/advanced_planner.py:421-436 | The same for a pool round in any completion order; each result is true exactly when the node is COMPLETED, and nodes outside the batch are untouched. |
| PlanRuns.ReplanAllAdvances | modules/advanced_planner.py:446-453 | Replanning the failures of a pool round keeps the same invariant and law, without executing anything. |
| PlanSteps.PoolRoundSteps | modules/advanced_planner.py:421-453 | A pool round executes all of its nodes, cancelled or not, in the order in which they finish, and only then replans exactly those that failed, in the same order. |
| PlanRuns.RunAdvances | modules/advanced_planner.py:309-472 | Every whole run, in either mode and any world, keeps the invariant, conserves executions against pending nodes and replans, forgets nothing completed or failed, ends with the computed final status, and stops uncancelled only with nothing ready. |
| PlanSteps.RunKeeps | modules/advanced_planner.py:309-472 | What every node execution and every replanning keeps, every run in either mode keeps: an induction principle over runs. |
| PlanSteps.CancelledRunStops | modules/advanced_planner.py:329-332 | A run that finds itself cancelled executes nothing more, changes no node, and ends CANCELLED. |
| RunOutcomes.CompletedMeansPassed | modules/advanced_planner.py:309-531 | In every run, cancelled or not, a node that becomes COMPLETED has had an attempt within its retry limit that returned and, where verification applies to what it expects, was accepted; it expects what it first did or what a revision asked for. |
| RunOutcomes.RejectedNeverCompletes | modules/advanced_planner.py:506-523 | A node whose every verification is rejected completes in no run, unless a revision asks for no expectation. |
| RunOutcomes.NodesEndAsAnswered | modules/advanced_planner.py:309-531 | An uncancelled run of a fresh plan leaves each node PENDING, COMPLETED after an execution of which some attempt passed, or FAILED or REPLANNING after one of which all `max_retries` + 1 failed. |
| RejectedStep.RejectedStepFails | modules/advanced_planner.py:506-531 | A one-step plan whose executor returns, whose verifications are all rejected and whose revision is unusable: in both modes the plan ends FAILED after one execution of four calls, with nothing completed. |
| Replanning.CompletesOrUsesUpReplans | modules/advanced_planner.py:350-358 | With a router that always revises, an uncancelled run of an acyclic fresh plan, in either mode, completes every node or has used up the replans. |
| PlanTheorems.EveryRunIsSafe | modules/advanced_planner.py:118-132 | After any run, replans and cancellation included, the in-plan dependencies of a COMPLETED node are COMPLETED, `completed_nodes` is the set of COMPLETED nodes, `completed_nodes` and `failed_nodes` only grew, and `total_replans` is within `max_replans`. |
| PlanTheorems.EveryRunIsBounded | modules/advanced_planner.py:309-531 | Node executions are exactly the pending nodes used up plus replans spent, hence at most pending nodes at the start plus replans left; the executor is called at most that times (largest `max_retries` + 1). |
| PlanTheorems.PendingAtExitLeadsToTrouble | modules/advanced_planner.py:329-358 | After an uncancelled run every PENDING node reaches, along in-plan dependencies, a FAILED or REPLANNING node or a cycle. |
| PlanTheorems.WaitingLeadsToTrouble | modules/advanced_planner.py:118-132 | The same for any plan on which nothing is ready. |
| PlanTheorems.AcyclicFailureFreeRunCompletes | modules/advanced_planner.py:329-372 | An uncancelled run of an acyclic fresh plan without a failure completes every node and ends COMPLETED. |
| PlanTheorems.FinalStatusAccounting | modules/advanced_planner.py:350-372 | A run ends CANCELLED if and only if it was cancelled; otherwise FAILED if and only if there are nodes and none is COMPLETED, COMPLETED if and only if all nodes are COMPLETED and none was ever marked failed; a complete plan is PARTIAL if and only if some node was. |
| PartialSuccess.AttemptsAllRaise | modules/advanced_planner.py:483-531 | While every executor call raises, the retries are used up and the node is marked failed, for every retry limit. |
| PartialSuccess.ReplannedSuccessEndsPartial | modules/advanced_planner.py:350-372 | A concrete run of a one-step plan: the step fails, is replanned and succeeds, `is_complete` holds, the status is PARTIAL. |
| Confluence.SteadyRunIsDetermined | modules/advanced_planner.py:309-472 | Without router and cancellation, with outcomes fixed per node and attempt: the completed set is the least set containing each succeeding node whose in-plan dependencies it contains; a node outside it is FAILED if its dependencies are in it and PENDING otherwise. |
| Confluence.RunsAreConfluent | modules/advanced_planner.py:309-472 | Sequential or pooled, in any completion orders, two such runs end with the same node statuses, completed and failed sets and plan status. |
| SchedulerAgreement.RoundsAreLayers | modules/advanced_planner.py:404-425 | From any failure-free state of an acyclic complete plan, the remaining rounds are the remaining layers. |
| SchedulerAgreement.SchedulersAgree | modules/agent_collaboration.py:538-569 | When everything succeeds on an acyclic graph whose ids all exist, round k of the executor runs exactly the set in layer k of the hub, and there are equally many. |
| Planner.ExecutionPlan.GetNextExecutable | modules/advanced_planner.py:118-132 | Returns the ready nodes in execution order, those of `PlanRuns.Ready`. |
| PlanSteps.ReadyFollowsOrder | modules/advanced_planner.py:118-132 | The ready nodes come in execution order. |
| Planner.AdvancedPlanner.ExecuteNode | modules/advanced_planner.py:483-531 | The in-place retry loop does to the plan what `PlanModel.RunNode` does to its value; `NodeOutcomes.NodeOutcome` says what that is. |
| Planner.AdvancedPlanner.RevisePlan | modules/advanced_planner.py:589-644 | Revises the current plan's node as `PlanModel.Revise` does: retry, ask the router, or give up. |
| Planner.AdvancedPlanner.ExecutePlan | modules/advanced_planner.py:309-377 | The loop over objects ends in the state of the sequential `PlanRuns.Run`, so every theorem on runs holds of it. |
| Planner.AdvancedPlanner.ExecutePlanParallel | modules/advanced_planner.py:379-472 | The same for the parallel run. |
| Planner.AdvancedPlanner.CreatePlan | modules/advanced_planner.py:251-288 | Builds a fresh plan from the first `max_steps` steps: for each id the node has the dependencies and the expectation of the last step with that id, three retries, and PENDING; the order is an execution order of its graph and follows the steps but for dependencies. |
| Planner.AdvancedPlanner.MakeNodes | modules/advanced_planner.py:266-281 | Each node is that of the last step with its id, and ids are listed by their first occurrence. |
| TaskLayers.EveryTaskInOneLayer | modules/agent_collaboration.py:538-569 | On every graph the layers are non-empty, disjoint, and cover all tasks. |
| TaskLayers.FallbackIsLast | modules/agent_collaboration.py:561-564 | A layer not justified by earlier layers is the fallback, fires with nothing ready, and is the last layer. |
| TaskLayers.NoFallbackExactlyWhenWellFormed | modules/agent_collaboration.py:561-564 | The fallback never fires if and only if the graph is acyclic and has no missing id. |
| TaskLayers.LayerIsLongestChain | modules/agent_collaboration.py:546-569 | On such a graph a task's layer is the length of its longest dependency chain: some chain has it, none is longer. |
| TaskLayers.LayerIsEarliest | modules/agent_collaboration.py:546-569 | No schedule that runs tasks strictly after their dependencies runs a task earlier. |
| TaskLayers.TopologicalLayers | modules/agent_collaboration.py:538-569 | The loop terminates on every graph, and each layer lists, without repeats, the layer of the specification. |
| CollaborationHub.AgentCollaborationHub.ExecuteParallel | modules/agent_collaboration.py:450-526 | Every task is started and ended exactly once and settled with its own outcome, of two tasks with one id the later; the counter grows by the number that returned; on an acyclic complete graph each task starts after all it depends on have ended, for every completion order within layers. |
| CollaborationHub.AgentCollaborationHub.Settle | modules/agent_collaboration.py:505-524 | A task that ended is COMPLETED with its result or FAILED with its error, and only it changes. |
| RateLimiting.CleanupIsInvisible | modules/api_rate_limiter.py:197-211 | With windows of at most a day and a monotone clock past the first day, a limiter that deletes stale states answers every request sequence as one that never does. |
| RateLimiting.CleanupInvisibleExactlyUpToADay | modules/api_rate_limiter.py:197-211 | For a common window length, cleanup is unobservable by every run if and only if the window is at most 86400 s. |
| RateLimiting.LongWindowShowsCleanup | modules/api_rate_limiter.py:197-211 | For every longer window, a limiter and three requests whose answers differ. |
| RateLimiting.RetryAfterIsAtMostASecondShort | modules/api_rate_limiter.py:173-183 | A refusal charges nothing; waiting one second more than told always reopens the refusing window, and waiting exactly as told does so if and only if the time left was at most a second or whole. |
| RateBounds.WindowBound | modules/api_rate_limiter.py:140-195 | With cleanup, from any state within the limit, and whatever other keys request under whatever windows: an interval of length L admits for one key at most (ceil(L / W) + 1) times the limit, for the window limit (W at most a day) and for the daily limit (W a day, the key's windows of any length). |
| RateBounds.OneWindowAdmitsTwoBursts | modules/api_rate_limiter.py:169-188 | From a new limiter, any interval as long as one key's window admits for it at most twice `int(rpm * burst)`. |
| RateBounds.OneDayAdmitsTwoDailyLimits | modules/api_rate_limiter.py:180-188 | Any 86400 seconds admit for one key at most twice its daily limit, however long the windows are. |
| RateBounds.TwoBurstsBackToBack | modules/api_rate_limiter.py:63-73 | The factor two is reached, in any positive time however short. |
| RateBounds.AdmittedIsBounded | modules/api_rate_limiter.py:140-195 | The interval bound from any state within the limit, whether stale states are deleted or not. |
| RateBounds.ServeMovesCounter | modules/api_rate_limiter.py:140-214 | A request moves a key's counter as its own limit says, and cleanup forgets a counter only when any request from then on would reset it. |
| ApiRateLimiter.RateLimitState.ResetIfNeeded | modules/api_rate_limiter.py:63-73 | Each of the two counters is reset on its own, exactly when its window has passed. |
| ApiRateLimiter.RateLimiter.CheckRateLimit | modules/api_rate_limiter.py:140-195 | The dictionary of state objects and the answer change as `RateLimiting.Serve` says and as `RateDecisions.Decides` does, which names neither; distinct keys never share a state. |
| RateDecisions.CheckDecides | modules/api_rate_limiter.py:133-195 | A request is allowed if and only if the refreshed counts of its key plus its cost are within `int(R * burst)` and D: R is the override, else the endpoint's own limit, else the default, D the endpoint's daily limit, else the default, the window the override, else the configured one. It is then charged to both counters and told what remains; a refusal charges nothing and names the wait of the window, else of the day. Only the state of `client:endpoint`, or of `client`, changes, but for stale states swept after an admission. |
| RateDecisions.DefaultsAllowNinety | modules/api_rate_limiter.py:38-53 | Under the defaults a key is served in its open window exactly up to the ninetieth time. |
| ApiRateLimiter.RateLimiter.MaybeCleanup | modules/api_rate_limiter.py:197-214 | Deletes exactly the states stale in both windows, and only after the cleanup interval. |
| ApiRateLimiter.RateLimiter.ResetClient | modules/api_rate_limiter.py:228-232 | Forgets exactly one key; the client's per-endpoint states stay. |
| ToolLoop.RecoveriesThatCanFire | modules/ai_command_agent.py:829-872 | For every `max_rounds`, provider and tools: provider errors are retried only in rounds 1 and 2, the native loop collapses at most once, in round 2 and holding at least two tool results, the prompt loop never, no model is ever switched, backoffs sleep at most 3 s. |
| ToolLoop.RecoversExactly | modules/ai_command_agent.py:845-872 | In every state that keeps what runs keep (`Restrained`, `Held`), a provider error is recovered from if and only if it is in round 1 or 2 and transient, or in round 2 of the native loop, a context error, and at least five messages are held. |
| ToolLoop.BackoffFires | modules/ai_command_agent.py:855-860 | A run, native or not, in which the backoff fires once, for one second, and the command then returns. |
| ToolLoop.CollapseFires | modules/ai_command_agent.py:861-868 | A native run in which the context is collapsed and the command then returns. |
| ToolLoop.WorkAccounting | modules/ai_command_agent.py:934-987 | Over a whole command, registry executions = counted calls + retries + reported tool failures; every retry counter is between 1 and 3; tools sleep at most 7 s for each key retried. |
| ToolLoop.ExhaustedIsNeverExecuted | modules/ai_command_agent.py:945-951 | Once a key has used three retries, no registry execution in the rest of the reply's calls or in all later rounds is of that key, and its counter stays at three. |
| ToolLoop.ToolAccounted | modules/ai_command_agent.py:934-987 | One tool call keeps the balance and executes the tool at most as often as the key has retries left, and executes no exhausted key. |
| ToolOutcomes.ToolOutcome | modules/ai_command_agent.py:934-987 | The exact outcome of a tool call after c retries, told from the tool's answers: an attempt that raised is followed by another if and only if a retry is left and its flags are transient, or, at c = 0, a tool bug and neither transient nor overflow, or none of the four; the sleeps are 1, 2 and 4 seconds after transient errors and none else; the call is counted when the last attempt ran, reported failed when it raised, neither when the retries are used up. |
| ToolOutcomes.EveryCallIsMade | modules/ai_command_agent.py:888-909 | Every call of a reply is made, in order, after the retries its key has used by then, and answered by one message in the native loop. |
| ToolOutcomes.RecoverOutcome | modules/ai_command_agent.py:845-872 | After a provider error: a transient one in round 1 or 2 sleeps that many seconds; a context error there with at least five messages keeps the first two and the last; anything else is reported and ends the loop; the model is never switched. |
| ToolOutcomes.TurnOutcome | modules/ai_command_agent.py:829-909 | A turn returns if and only if the reply is successful, has content and has no calls; a reply with calls has them made between the right messages; any other reply ends the loop. |
| ToolOutcomes.LoopOutcome | modules/ai_command_agent.py:829-912 | The loop takes turns exactly while rounds are left and fewer than five failures are reported, and returns a response if and only if its last reply is a final one. |
| CommandAgent.AICommandAgent.ExecuteToolWithRecovery | modules/ai_command_agent.py:934-987 | The retry loop changes loop state and shared counters as `ToolLoop.RunTool` says and, in terms of the tool's answers, as `ToolOutcomes.Ended` does. |
| CommandAgent.AICommandAgent.RunNativeToolLoop | modules/ai_command_agent.py:803-912 | The native loop ends in the state of `ToolLoop.Rounds`, for every number of rounds, negative ones included. |
| CommandAgent.AICommandAgent.RunPromptToolLoop | modules/ai_command_agent.py:1005-1100 | The same for the prompt loop. |
| FileOps.UndoRestoresExactlyFreshTargets | modules/advanced_system_control.py:824-869 | Undoing a recorded operation restores the files if and only if the operation did not write over a file. |
| FileOps.UndoInvertsTraces | modules/advanced_system_control.py:812-869 | After any run of recorded operations onto fresh paths, however long, each of the next k undos (k up to 50) restores the files one operation further back if and only if no directory stands where one of them must put a file back. |
| FileOps.RestoredFilesHaveRoom | modules/advanced_system_control.py:824-869 | For any number of undos together, a necessary condition: they restore the files only if no file to be restored has a directory at its path. |
| UndoExamples.BlockedUndoLosesFile | modules/advanced_system_control.py:842-846 | A deletion and a creation after which two undos do not restore the files. |
| UndoExamples.BlockedUndoCanBeHarmless | modules/advanced_system_control.py:812-869 | Three operations of which the second undo is blocked and restores nothing, while all three undos restore the files. |
| FileOps.ApplyKeepsWellFormed | modules/advanced_system_control.py:89-347 | Every operation leaves each entry in a directory and no path both file and directory, and removes no directory. |
| FileEffects.OperationDoes | modules/advanced_system_control.py:89-347 | What each operation does to files, directories and history and exactly when it succeeds, apart from the transition function: a copy puts the source's content at the destination, or under the source's name into it when it is a directory; a move and a rename also take the source away; a deletion remembers the content; a creation writes the given content; missing directories are made; nothing else changes. |
| FileEffects.UndoUndoes | modules/advanced_system_control.py:824-869 | What one undo does to the files, and exactly when it does nothing; the action leaves the history either way. |
| SystemController.AdvancedSystemController.CreateFile | modules/advanced_system_control.py:89-127 | Files, directories, history and result are those of `FileOps.Do` and of `FileEffects.Creates`. |
| SystemController.AdvancedSystemController.DeleteFile | modules/advanced_system_control.py:162-215 | The same for deletion (`FileEffects.Deletes`), with the content remembered. |
| SystemController.AdvancedSystemController.MoveFile | modules/advanced_system_control.py:217-260 | The same for moves (`FileEffects.Moves`), into a directory when the destination is one. |
| SystemController.AdvancedSystemController.CopyFile | modules/advanced_system_control.py:262-305 | The same for copies (`FileEffects.Copies`): the target holds the source's content and the source stays; copying a file onto itself fails but is recorded. |
| SystemController.AdvancedSystemController.RenameFile | modules/advanced_system_control.py:307-347 | The same for renaming (`FileEffects.Renames`), refused when the new name exists. |
| SystemController.AdvancedSystemController.RecordAction | modules/advanced_system_control.py:812-822 | Appends the action and keeps the last 50. |
| SystemController.AdvancedSystemController.UndoLastAction | modules/advanced_system_control.py:824-869 | Pops the last action and undoes it as `FileOps.UndoLast` and `FileEffects.Undoes` say, also when the undo fails. |
| SystemController.AdvancedSystemController.OrganizeDirectory | modules/advanced_system_control.py:493-563 | All files are relocated one-to-one, even when the run fails midway; each moved file lands at a fresh path in its category's folder under its own name or that name with a number; a run succeeds if and only if the directory exists and no file stands where a folder belongs that is not itself moved before; it then moves exactly the categorised files, makes exactly their folders and leaves none, so that the next run moves zero. |
| SystemController.AdvancedSystemController.FreeName | modules/advanced_system_control.py:527-534 | The counter loop terminates, with the name itself if that is free, else with the first numbered name that is. |
| Organizer.NumberedInjective | modules/advanced_system_control.py:531-533 | Numbered names differ for different counters. |
| Organizer.DigitsDenote | modules/advanced_system_control.py:533 | The counter is written in decimal notation without leading zeros. |
| Organizer.SuffixIsAfterLastDot | modules/advanced_system_control.py:514-533 | A name is its stem and its suffix, which begins at the last dot that has characters on both sides, if it has one. |
| Organizer.EntryBlocked | modules/advanced_system_control.py:510-523 | An entry cannot be filed if and only if a file that is not moved before stands where its folder belongs. |
| Organizer.RelocationKeepsContents | modules/advanced_system_control.py:493-563 | A one-to-one relocation keeps the multiset of file contents. |
| Organizer.Finished | modules/advanced_system_control.py:510-543 | When the whole snapshot has been handled, exactly the categorised files have moved and none is left. |
| TriggerIndex.BuildFacts | integrations/openclaw_skills.py:291-306 | The built dictionary has distinct keys, holds for each key the last target inserted, and meets keys in order of first insertion. |
| TriggerIndex.IndexMatchIsDirectMatch | integrations/openclaw_skills.py:344-369 | Matching through a rebuilt index is a direct scan of the enabled skills: exact trigger of the last skill with it, else the earliest trigger the command starts with. |
| SkillMatching.DirectMatchFinds | integrations/openclaw_skills.py:344-369 | Nothing is found if and only if the command starts with no trigger of an enabled skill with a first action; a trigger that is the whole command is preferred, else the first one, by skills and then triggers, that it starts with; the last skill with the chosen trigger and its first action are found. |
| SkillList.StoreAllLoads | integrations/openclaw_skills.py:210-268 | After loading files: each name is loaded once, with the skill of the last file that has it, or the one from before if none has; earlier names keep their places and new ones follow in the order of the files. |
| SkillList.ReloadReloads | integrations/openclaw_skills.py:326-342 | After reloading a file: the first skill loaded from it is gone, and its new version, if it parses, stands in the place of the skill with its name or at the end. |
| SkillsManager.SkillsManager.BuildTriggerIndex | integrations/openclaw_skills.py:291-306 | The index agrees with the enabled skills afterwards. |
| SkillsManager.SkillsManager.LoadAll | integrations/openclaw_skills.py:210-236 | All parsed files are stored as `SkillList.Loaded` says; the count is the number of files that parsed and the index agrees. |
| SkillsManager.SkillsManager.ReloadSkill | integrations/openclaw_skills.py:326-342 | What was loaded from the file is dropped, its new version stored if it parses, and the index agrees. |
| SkillsManager.SkillsManager.EnableSkill | integrations/openclaw_skills.py:425-438 | Succeeds exactly when the skill is loaded, and then enables exactly that one; the index agrees. |
| SkillsManager.SkillsManager.DisableSkill | integrations/openclaw_skills.py:440-453 | Succeeds exactly when the skill is loaded, and then disables exactly that one; the index agrees. |
| SkillsManager.SkillsManager.Uninstall | integrations/openclaw_skills.py:511-535 | Succeeds exactly when the skill is loaded and its folder could be removed, and then removes exactly that skill; the index agrees. |
| SkillsManager.SkillsManager.Match | integrations/openclaw_skills.py:344-369 | Never meets a missing skill or action; returns what `SkillMatching.Finds` says of the loaded skills, and nothing exactly when the scan finds nothing. |
| ResponseCache.ResponseCache.Get | modules/advanced_features.py:26-41 | A hit is the latest response set for the normalised key, less than one TTL ago; a miss drops the key; if a set response is missed before it expires, everything still held was set no earlier. |
| ResponseCache.ResponseCache.Set | modules/advanced_features.py:43-57 | Stores the response, evicts at most one entry, the oldest, only when full; the size stays within `max_size`. |
| ResponseCache.ResponseCache.Clear | modules/advanced_features.py:59-62 | Nothing is held or remembered afterwards. |
| ResponseCache.ResponseCache.Oldest | modules/advanced_features.py:46-48 | The entry chosen for eviction was set no later than any other. |
| MarkdownMemory.RewriteKeepsOthers | lada_memory.py:937-961 | Rewriting a section keeps all other sections' lines in order, leaves the section open at the end as before, and rewriting again changes nothing. |
| MarkdownOutcomes.WriteOutcome | lada_memory.py:926-977 | One write, line by line: the section is rewritten if some line is its header but for white space, nothing is edited if the header is only mentioned, else it is added before every footer marker, or at the end where there is none; then the text is cut at its last mark and stamped there. |
| MarkdownOutcomes.RewriteOutcome | lada_memory.py:937-961 | What becomes of each line: a header line of the section is followed by an empty line, the content and an empty line; a line under one goes; every other line stays. |
| MarkdownOutcomes.InsertOutcome | lada_memory.py:962-969 | A new section goes before every footer marker and nowhere else. |
| MarkdownOutcomes.StampOutcome | lada_memory.py:972-975 | The text is cut at the last occurrence of the mark, and the stamp holds the date. |
| MarkdownOutcomes.FactsInOrder | lada_memory.py:1030-1031 | Facts are written in order, each into what the one before left. |
| SectionContents.RewriteSetsBodies | lada_memory.py:937-961 | After the line loop each header line of the section is followed by exactly an empty line, the content and an empty line, as many times as the section occurred. |
| SectionContents.RewriteKeepsBodies | lada_memory.py:937-961 | The line loop leaves what stands under every other header unchanged. |
| MarkdownSections.OthersKeptExactly | lada_memory.py:926-977 | For any section with a header line and any content without headings: the lines outside the section that are neither blank nor stamps survive, in order, if and only if the last stamp stands behind the section with nothing but blank lines after it, or there is no stamp and the last line is blank (and the matching condition when the section is last). |
| SectionContents.SectionHoldsContent | lada_memory.py:926-977 | Where a stamp stands behind the section, or none stands anywhere, every body of the section begins with the content after the write, and is nothing else unless the section is last. |
| SectionLosses.SectionHoldsContentExactly | lada_memory.py:926-977 | After the write no body of the section is missing and each begins with the content, if and only if the last stamp stands behind the section, or in the content, which ends in the very stamp put there, or there is none; otherwise the content is cut, or the section is. |
| WritingTwice.SectionWriteIsIdempotentExactly | lada_memory.py:926-977 | A second write gives what writing once at the later time would have given, if and only if the last stamp does not stand before the section, or what stands outside the section up to that stamp mentions the header or holds no footer. |
| WritingTwice.TwiceIsOnceUnlessCutBefore | lada_memory.py:926-977 | The first of these cases: the last stamp does not stand before the section. |
| MarkdownExamples.TwiceIsNotOnce | lada_memory.py:926-977 | A file in which writing a section that is not last removes it, and writing it twice differs from writing it once. |
| MarkdownExamples.ContentIsCut | lada_memory.py:973-975 | A file and a content with a stamp of which the write keeps only the part before the stamp. |
| MarkdownExamples.SectionBehindStampIsLost | lada_memory.py:973-975 | A file in which writing a section that is not last loses the section behind the stamp. |
| MarkdownExamples.LastLineIsGlued | lada_memory.py:973-975 | A file without a stamp in which writing a section that is not last loses the last line of another. |
| Consolidation.ConsolidationHolds | lada_memory.py:1021-1033 | After consolidating facts for different sections, each existing and closed before the footer or new and nowhere mentioned, every body of every named section is exactly its content, and the bodies of all other sections before the footer are what they were. |
| Consolidation.WriteFact | lada_memory.py:926-977 | Writing such a fact leaves a file of the same form, with the section rewritten in place or added before the footer. |
| MarkdownExamples.InitialFileTakesFacts | lada_memory.py:851-881 | The file as it is first created takes any facts for its three sections before the last. |
| MarkdownExamples.InitialFileLosesGoals | lada_memory.py:851-881 | Writing the last section of that file removes the footer's rule, and the next new section is lost. |
| MarkdownMemory.MentionedHeaderIsNeverWritten | lada_memory.py:934-962 | If the header occurs in the text but no line is it, no content is ever written: only the stamp changes. |
| MarkdownMemory.NewSectionDroppedExactlyWithoutFooter | lada_memory.py:963-975 | A new section, whatever its name and content, is dropped if and only if the text has a time stamp but no footer marker and the added lines carry no stamp. |
| MarkdownMemory.LastSectionEditLosesNextSection | lada_memory.py:926-977 | Editing the section at the end of the file removes the footer's rule, and the next new section is lost. |
| MarkdownMemory.MarkdownMemoryStack.WriteToMemory | lada_memory.py:926-977 | The file's lines become those of `MarkdownMemory.Write`. |
| MarkdownMemory.MarkdownMemoryStack.ReplaceSection | lada_memory.py:937-961 | The line loop computes `MarkdownMemory.Rewrite`, and reports a section written exactly when a line is its header. |
| MarkdownMemory.MarkdownMemoryStack.ConsolidateToMemory | lada_memory.py:1021-1033 | The file's lines become those of `MarkdownMemory.WriteAll`, one write for each fact at its own time. |

## Left out

- AI, HTTP, browser, audio, OCR and window code: foreign calls without logic of their own.
- JSON and YAML parsing, regular expressions, prompts, logging, callbacks: parsed replies are arbitrary values, callbacks do not touch the modelled state.
- Planner.AdvancedPlanner.RevisePlan: does not model `revise_plan` acting on a different current plan than the one executed (modules/advanced_planner.py:597); the executors require the two to be the same plan.
- Planner.AdvancedPlanner.ExecutePlanParallel: does not interleave node executions of one batch below whole nodes; a batch is any permutation of its nodes. `_execute_node_threadsafe` takes no lock although its documentation says so, and the branch for an exception out of it, which `_execute_node` never lets through, is not modelled.
- Planner.AdvancedPlanner.ExecutePlan: does not model starting on a plan that a cancelled run left in the middle, or that has SKIPPED nodes; a fresh plan and one left by an uncancelled run are covered.
- Planner.AdvancedPlanner.CreatePlan: does not model the default ids of steps without one, entries that are not objects, the descriptive fields, or the one-step plan built without an AI router.
- Negative `max_retries`, `max_replans` and `max_steps`.
- A revised action or target text, results, error texts and time stamps of nodes, and plan summaries.
- CollaborationHub.AgentCollaborationHub.ExecuteParallel: does not model the timeout of a result, which is read only after the task has ended, nor completion times and the placeholder executor.
- Agents, sessions, messages and the score of an agent for a capability.
- ApiRateLimiter.RateLimiter.CheckRateLimit: does not model how a client key is read off a request, nor the limits read from the environment.
- Floating point: clock readings, burst factor and limits are reals.
- The calls that ask the provider for a final summary after the tool loops, tool results and message texts.
- The patterns by which an error message is classified: its four flags are arbitrary.
- FileOps.ApplyKeepsWellFormed: does not model operations on directories, permissions or the recycle bin; names are single path components.
- SystemController.AdvancedSystemController.OrganizeDirectory: does not model the table of suffixes, which is a function argument with lower-casing in it, nor the listing in its result; its undo is not supported by the code either.
- SkillsManager.SkillsManager.LoadAll: does not model finding and parsing skill files or binding handlers; lower-casing and stripping are one function argument.
- SkillsManager.SkillsManager.Uninstall: removal of the folder is an argument that says whether it succeeded.
- MarkdownMemory.MarkdownMemoryStack.WriteToMemory: section names and content lines contain no newline; a content with several lines is the list of them.
- Consolidation.ConsolidationHolds: covers files with one footer at the end (a rule, a stamp, empty lines) and contents without headings or lines that begin with a stamp; a fact for the section the footer stands in loses the footer, as `MarkdownMemory.LastSectionEditLosesNextSection` shows.
- WritingTwice.SectionWriteIsIdempotentExactly: does not cover section names that themselves contain a time stamp, whose header line a stamp can create, nor time stamps with `*` or `#` in the date; the code's dates have neither. `SectionLosses.SectionHoldsContentExactly` does not cover such names either.
- Statistics, history views, keyword heuristics, configuration and start-up code: they would add only easy members.
