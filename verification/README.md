# Gyre agent core: verified model

A Dafny model of the stateful parts of the Gyre agent runtime, with proofs about whole runs. It covers

- **history**: threads, their messages, checkpoints, undo and redo (`ChatThread`, `Undo`, `ThreadOps`, `Timeline`,
  `TurnEffects`), and compaction (`Compaction`, `TextChars`);
- **the agentic loop** and the message protocol it builds, through a whole turn with approvals
  (`Messages`, `AgentLoop`, `AgentTurn`, `LoopLaws`, `TurnExecutions`);
- **approval requests** over every run of submissions to a session (`Approval`, `ApprovalRuns`);
- **limits**: the shared cost guard with any number of clients (`CostGuard`, `GuardRuns`, `BudgetRuns`) and the webhook
  limiter (`WebhookLimiter`), on a common notion of spread-out times (`Intervals`);
- **settings** as a JSON tree: writing a leaf, flattening and rebuilding, overlaying, reading and resetting
  (`Settings`, `SettingsTexts`, `SettingsStore`, `SettingsOverlay`, `SettingsAccess`, `DottedPaths`, `Decimal`);
- **text**: cutting UTF-8 (`Utf8`, `EventBuffer`; sections 3 and 4 of RFC 3629) and recalled memories, cut and escaped
  (`Excerpts`, `MemoryFences`, `FenceGrammar`, `RecalledBlock`);
- **the scheduler's job table** with its cleaner tasks (`JobTable`, `JobRuns`) and **message routing** (`Routing`, `RoutingRuns`, `PruneRaces`).

Objects that change in place are classes; each method is proved equal to a function on the object's value, and the run
properties are proved about those functions. Every lock region is one atomic step. Times, UUIDs and fresh ids are
naturals or integers that come with each step; money is an integer in units of 10^-10 dollars. The model provider, tools,
hooks, the JSON codec and the database are arbitrary functions or parameters. `hide` statements keep proofs small; they assume nothing.

Where the program does less than its comments or names suggest, the model follows the program:

- `CapHoldsExactly`: the table keeps to `max_parallel_jobs`, and so do the running workers as long as `cleanup_finished`,
  which nothing in the program calls, stays uncalled. `RecoveredJobIsNotStarted`: recovering a stuck
  job and scheduling it does not start it.
- `MinuteBoundExactly`: the webhook's bound rests on a 32-bit counter that wraps.
- `DailyBoundExactly`: the budget stops counting beyond 64-bit cents. `GuardReopensExactly`: a new day alone does not reopen it.
- `RoundTripExactly`, `OptionalTextLost`: the database map does not restore every setting.
- `ResetRestoresExactly`, `OptionalTextNotReset`: a reset does not bring back every default of a leaf.
- `ForeignPathChangesNothing`, `UnknownKeyReportsSuccess`: writing an unknown setting may report success, and changes nothing.
- `ActivityIsNewThread`, `SessionInUseIsPruned`: ordinary messages do not count as activity, so a session in use can be pruned.
- `NamedThreadIsReached`, `NamedThreadIsMissed`: a thread named by its id is not always the one reached.
- `RouteCanDangle`: a session can be pruned under a message that is being delivered.

## Model

| member | source | states |
|---|---|---|
| `ChatThread.Thread.CollectMessages` | src/agent/session.rs:379-388 | the loop over the turns yields the messages of the turns, in order |
| `ChatThread.Thread.RestoreFromMessages` | src/agent/session.rs:406-432 | rebuilds turns from user messages and directly following assistant messages, drops the rest, becomes idle, keeps pending requests |
| `ChatThread.Thread.TruncateTurns` | src/agent/session.rs:391-400 | keeps the most recent turns, renumbered from zero |
| `ChatThread.Thread.StartTurn` | src/agent/session.rs:303-310 | opens a turn numbered by its position and starts processing |
| `ChatThread.Thread.CompleteTurn` | src/agent/session.rs:313-319 | answers the last turn, if there is one, and becomes idle |
| `ChatThread.Thread.FailTurn` | src/agent/session.rs:322-328 | marks the last turn failed, if there is one, and becomes idle |
| `ChatThread.Thread.Interrupt` | src/agent/session.rs:362-368 | marks the last turn and the thread interrupted; the stored request stays |
| `ChatThread.Thread.AwaitApproval` | src/agent/session.rs:331-335 | stores the request and waits |
| `ChatThread.RoundTripKeeps` | src/agent/session.rs:379-432 | a restore followed by `messages` keeps exactly the user messages and the assistant messages right after one |
| `ChatThread.RoundTripIdentity` | src/agent/session.rs:379-432 | it is the identity exactly on plain user/assistant sequences in which each assistant message follows a user message |
| `ChatThread.MessagesAreWellPaired` | src/agent/session.rs:379-388 | whatever `messages` yields is such a sequence, so checkpoints of it are restored exactly |
| `ChatThread.RoundTripIdempotent` | src/agent/session.rs:379-432 | a second round trip changes nothing |
| `ChatThread.RoundTripIsSubsequence` | src/agent/session.rs:379-432 | a round trip yields a subsequence of its input, stripped to roles and contents |
| `ChatThread.RestoreCountsTurns` | src/agent/session.rs:406-432 | restoring a thread's own messages gives back as many turns |
| `ChatThread.KeepRecentIsSuffix` | src/agent/session.rs:391-400 | the transcript is the dropped turns' messages followed by the truncated thread's messages |
| `Undo.UndoManager.PushUndo` | src/agent/undo.rs:76-81 | the trimming loop keeps the newest entries up to the limit |
| `Undo.UndoManager.AddCheckpoint` | src/agent/undo.rs:86-100 | pushes a checkpoint and clears the redo stack |
| `Undo.UndoManager.Undo` | src/agent/undo.rs:107-126 | pops the newest checkpoint and pushes the current state on the redo stack, or changes nothing |
| `Undo.UndoManager.Redo` | src/agent/undo.rs:140-158 | the reverse, with the undo stack trimmed to its limit |
| `Undo.UndoManager.Restore` | src/agent/undo.rs:202-216 | cuts the undo stack at the first checkpoint with the id and clears the redo stack, or changes nothing |
| `ThreadOps.ProcessUserInput` | src/agent/thread_ops.rs:126-413 | on live objects: the state is checked first, then safety and explicit commands, each refusal leaving everything as it was; an input that passes is compaction, checkpoint, new turn and settlement with the hooked response |
| `ThreadOps.ProcessUndo` | src/agent/thread_ops.rs:496-532 | on live objects, undo swaps the current transcript with the newest checkpoint and succeeds exactly when there is one |
| `ThreadOps.ProcessRedo` | src/agent/thread_ops.rs:534-564 | the same for redo |
| `ThreadOps.ProcessResume` | src/agent/thread_ops.rs:1115-1138 | restores the checkpoint with the id, and succeeds exactly when there is one |
| `ThreadOps.ProcessInterrupt` | src/agent/thread_ops.rs:566-584 | interrupts a thread that is processing or waiting, and changes nothing otherwise |
| `ThreadOps.ProcessClear` | src/agent/thread_ops.rs:625-643 | drops all turns and both stacks, and becomes idle |
| `Timeline.UndoMovesLeft` | src/agent/thread_ops.rs:496-532 | undo stack, transcript and reversed redo stack are one row; undo moves its cursor one left and changes no cell |
| `Timeline.RedoMovesRight` | src/agent/thread_ops.rs:534-564 | redo moves the cursor one right, changes no cell and evicts none |
| `Timeline.InputBranches` | src/agent/thread_ops.rs:239-265 | an accepted input cuts the future, keeps the newest past up to the limit and opens a cell after its start |
| `Timeline.ResumeJumps` | src/agent/undo.rs:202-216 | resume jumps to the first cell with the id and cuts what follows |
| `Timeline.RewriteStays` | src/agent/thread_ops.rs:566-623 | answers, interrupts, compactions and refused inputs rewrite only the cell under the cursor |
| `Timeline.NewManagersAreSound` | src/agent/thread_ops.rs:84-88 | a thread with a new undo manager is sound, hydrated ones included |
| `Timeline.RunKeepsLimit` | src/agent/undo.rs:45-57 | in every run from a sound history undo count plus redo count stays within the limit, and every checkpoint restores exactly |
| `Timeline.UndoRedoConserveTotal` | src/agent/undo.rs:107-158 | a successful undo or redo conserves undo count plus redo count |
| `Timeline.UndosThenRedos` | src/agent/undo.rs:107-158 | from every sound history, j undos and j redos give back the transcript and both stacks, up to ids and descriptions |
| `Timeline.UndosReachTurnStart` | src/agent/thread_ops.rs:239-265 | after n turns and no other history command, j undos bring back what turn n - j + 1 started from, up to the limit |
| `Timeline.UndoBeyondLimit` | src/agent/undo.rs:107-126 | once those undos and all earlier ones are used up, the next changes nothing at all |
| `TurnEffects.InputAddsTurn` | src/agent/thread_ops.rs:239-413 | an accepted input adds one turn after those compaction left; it holds the input, the next number and what the outcome says, and the transcript gains the input and, exactly when there is one, the response |
| `TurnEffects.AnswerFinishesTurn` | src/agent/thread_ops.rs:719-937 | an approved answer records the outcome on the open turn, and the transcript gains the response exactly when there is one; a rejection leaves the turns alone |
| `TurnEffects.InterruptMarksTurn` | src/agent/session.rs:362-368 | an interrupt marks the last turn and the thread while it is processing or waiting, and takes no turn, message or request away; any other thread it leaves alone |
| `TurnEffects.RefusedChangesNothing` | src/agent/thread_ops.rs:126-643 | a command that is refused or finds nothing to do leaves thread and undo manager as they were |
| `TurnEffects.RestoreLeavesIdle` | src/agent/session.rs:406-432 | an undo, redo or resume that finds its checkpoint leaves the thread idle with its requests as they were |
| `TurnEffects.ClearStartsOver` | src/agent/thread_ops.rs:625-643 | clearing leaves the row of one empty cell, no turns and both stacks empty |
| `TurnEffects.NothingToGoBackTo` | src/agent/thread_ops.rs:625-643 | after it no undo, redo or resume changes anything |
| `TurnEffects.RunKeepsNumbered` | src/agent/session.rs:303-432 | through every run of commands, turns stay numbered by their positions |
| `TurnEffects.ResumeReturnsToStart` | src/agent/thread_ops.rs:239-265 | resuming the checkpoint an input made brings back the transcript the input started from |
| `TurnEffects.CommandsCapture` | src/agent/undo.rs:86-158 | the checkpoints that an input, an undo and a redo make hold the transcript, the number of the next turn and its description; an input drops the redo stack |
| `TurnEffects.HookWithholds` | src/agent/thread_ops.rs:320-345 | a response that a hook filters, refuses or replaces does not come through, and any other comes through unchanged |
| `Compaction.Compact` | src/agent/compaction.rs:45-170 | each strategy keeps the stated number of recent turns, or fails and keeps them all; it reports the removed turns and both estimates |
| `Compaction.Analyze` | src/agent/context_monitor.rs:159-186 | the breakdown loop computes the estimate and its parts by role, which add up |
| `Compaction.FullerKeepsLess` | src/agent/context_monitor.rs:88-106 | the fuller the context, the fewer turns the suggested compaction keeps, with or without a workspace |
| `Compaction.TruncationLowersEstimate` | src/agent/compaction.rs:124-134 | dropping turns lowers the estimate by at least 4 tokens a turn |
| `Compaction.EstimateCountsWords` | src/agent/context_monitor.rs:126-140 | a message of n words is estimated at 4 tokens and 1.3 for each word, rounded down |
| `Compaction.TextsAddUp` | src/agent/context_monitor.rs:126-140 | two texts joined by a space are worth their sum less one message's overhead, up to rounding |
| `Compaction.SuggestionKeeps` | src/agent/context_monitor.rs:88-106 | with how many turns the suggestion leaves a thread, by fullness and workspace |
| `AgentLoop.RunCall` | src/agent/dispatcher.rs:310-494 | one call: approval check on the original arguments, where destructive ones undo auto-approval, hooks, execution, auth mode |
| `AgentLoop.RunCalls` | src/agent/dispatcher.rs:310-501 | the calls of a reply are worked on in order until one waits; the results answer the calls before it, and the executions are exactly those that passed |
| `AgentLoop.RunAgenticLoop` | src/agent/dispatcher.rs:173-505 | the context is the initial messages and a log of exchanges, each answering the model's reply to all before it; the loop ends exactly as its world dictates |
| `AgentTurn.RunIsDetermined` | src/agent/dispatcher.rs:173-505 | that description is complete: two runs in the same world are equal in log, outcome and executions |
| `AgentTurn.RunExecutesSanctioned` | src/agent/dispatcher.rs:310-386 | every executed tool needed no approval, or was vouched for with non-destructive arguments, and passed the hooks, whose arguments it runs with; each at most once, in order; the run stops to ask exactly at a call that needs approval and is not vouched for or destructive, after all of these |
| `AgentTurn.RunIsBounded` | src/agent/dispatcher.rs:180-265 | at most ten requests, each while neither the interrupt flag nor the guard forbids it; nudges come first and are at most two, none on resumption |
| `LoopLaws.ResultsAreEarned` | src/agent/dispatcher.rs:350-490 | each result tells of the hook's refusal, or of the execution of its own call: the wrapped output, or the error |
| `LoopLaws.AuthModeIsEarned` | src/agent/dispatcher.rs:436-480 | a run enters auth mode only by an executed call of one of the two auth tools whose output asks for a token, and responds with its instructions |
| `LoopLaws.AuthRequestEndsRun` | src/agent/dispatcher.rs:436-480 | such an execution is the last of its run, and its instructions are the response |
| `LoopLaws.RepliesAreRecorded` | src/agent/dispatcher.rs:265-310 | after the messages of each request the context holds the model's reply to it, and after a text the prompt to use tools |
| `LoopLaws.OutcomeIsEarned` | src/agent/dispatcher.rs:180-290 | a response is the model's own text for the whole context, given after a tool call or two prompts to use tools; a run fails by ten requests made, the interrupt flag, the guard or the model's error, checked in this order, and says which |
| `AgentTurn.RunBlocks` | src/agent/dispatcher.rs:330-348 | a block is incomplete exactly when the run waits, and the stored request is the next unanswered call with the context so far |
| `AgentTurn.TurnBuildsOneLog` | src/agent/thread_ops.rs:777-850 | through any number of approvals the context is the initial messages and one log: nudges, then blocks whose results answer a prefix of the calls; exactly as many blocks are incomplete as approvals asked for a call that was not the last of its block, and one more if the last run waits |
| `AgentTurn.IncompleteExactly` | src/agent/dispatcher.rs:330-348 | which blocks those are: the ones an approval cut short, and a last one that waits |
| `AgentTurn.TurnIsCompleteExactly` | src/agent/dispatcher.rs:330-348 | every call is answered before the next request to the model exactly when each approval asked for the last call of its block |
| `AgentTurn.TurnKeepsProtocol` | src/agent/thread_ops.rs:777-850 | in every context of a turn each tool result answers, by id and name, a call of the assistant message directly before the results |
| `TurnExecutions.TurnExecutesEachOnce` | src/agent/thread_ops.rs:748-850 | through a whole turn each call of the log is executed at most once, in order, and only if it was sanctioned in its run of the loop or is the very call a run asked the user about, with unchanged arguments; a call that still waits comes after all of them |
| `Approval.Session.ResolveApprovalThread` | src/agent/session.rs:96-137 | the scan finds the addressed thread, or with a request id the single holder, nothing, or all holders |
| `Approval.Session.AnswerFound` | src/agent/thread_ops.rs:682-717 | the checks after the lookup, with the put-back on a wrong id |
| `Approval.Session.ProcessApproval` | src/agent/thread_ops.rs:646-937 | a request is run or dropped exactly when the lookup finds its thread; all other threads stay as they were |
| `Approval.FoundIsAnswered` | src/agent/thread_ops.rs:682-717 | once a thread is found those checks never fail, so a mismatch is never reported |
| `Approval.BareAnswerStaysHere` | src/agent/session.rs:109-119 | an answer without a request id reaches only the addressed thread |
| `Approval.AnswerFindsHolder` | src/agent/session.rs:116-137 | where requests differ, an id finds exactly its holder from any thread and is never ambiguous |
| `Approval.AnswerMeansItsRequest` | src/agent/thread_ops.rs:682-760 | what runs is the request that waits where the answer leads, with the id it names; its tool is granted exactly on `always`; a rejection drops it with all turns kept; any other answer changes nothing |
| `ApprovalRuns.ThreadsRest` | src/agent/thread_ops.rs:126-413 | between submissions no thread is processing or completed, and a waiting thread has its request |
| `ApprovalRuns.AnswersAreUnambiguous` | src/agent/session.rs:96-137 | in every run with fresh request ids an answer finds its one holder; the ambiguous outcome does not occur |
| `ApprovalRuns.ExecutedAtMostOnce` | src/agent/thread_ops.rs:682-760 | in every run each request executes at most once, only as the latest stored on its thread and not after anything cut the thread off from it; auto-approval is granted only by such an answer |
| `ApprovalRuns.CutOffExactly` | src/agent/thread_ops.rs:496-643 | of all commands exactly interrupt, clear and effective undo, redo and resume cut a waiting thread off; the others leave it waiting for the same request |
| `ApprovalRuns.AnswerExecutes` | src/agent/thread_ops.rs:646-760 | an approving answer with the id of a waiting request executes it, whichever thread it was sent to |
| `ApprovalRuns.AuthTokenIsNoInput` | src/agent/agent_loop.rs:640-670 | in auth mode a text is taken as the token: it opens no turn, and ends the mode exactly when it is not refused |
| `ApprovalRuns.CommandEndsAuthMode` | src/agent/agent_loop.rs:640-670 | every command other than an input or an answer ends auth mode |
| `ApprovalRuns.InputIsRefusedExactly` | src/agent/thread_ops.rs:147-166 | outside auth mode an input is refused exactly by a thread that waits for approval, and otherwise opens a turn |
| `CostGuard.TruncationIsExact` | src/agent/cost_guard.rs:221-224 | comparing whole cents with the limit is exact while the cents fit 64 bits |
| `CostGuard.DrainIsFilter` | src/agent/cost_guard.rs:119-126 | on a sorted window draining the front is filtering by the cutoff |
| `CostGuard.CheckPassesExactly` | src/agent/cost_guard.rs:95-137 | a check passes exactly when the flag is unset, the total is below the limit and the past hour has room |
| `CostGuard.RefusalTells` | src/agent/cost_guard.rs:95-137 | a refusal for the budget sets the flag and tells the cents spent and the limit; one for the rate tells the calls of the past hour and its limit, and leaves the flag alone |
| `CostGuard.Guard.CheckAllowed` | src/agent/cost_guard.rs:95-137 | in place, an undisturbed check is that function, with its refusal |
| `CostGuard.Guard.RecordLlmCall` | src/agent/cost_guard.rs:142-196 | in place, a record restarts the total on a new date, adds the cost, trips the flag and appends the time |
| `CostGuard.Guard.DailySpend` | src/agent/cost_guard.rs:199-207 | the total of the current date, and zero on any other |
| `CostGuard.Guard.ActionsThisHour` | src/agent/cost_guard.rs:210-218 | drains the window and counts the rest |
| `GuardRuns.UnracedRegionsAreCheck` | src/agent/cost_guard.rs:95-137 | the three regions of one client without interference are the whole check |
| `GuardRuns.HourlyBound` | src/agent/cost_guard.rs:119-134 | with k clients, in every interleaving any closed hour holds at most limit + k - 1 recorded calls |
| `GuardRuns.HourlyBoundIsAttained` | src/agent/cost_guard.rs:119-134 | some interleaving records that many at once |
| `GuardRuns.ZeroLimitRecordsNothing` | src/agent/cost_guard.rs:119-134 | an hourly limit of zero lets nobody record |
| `GuardRuns.TrippedGuardStaysShut` | src/agent/cost_guard.rs:95-104 | once the flag is set and no call is under way nothing is charged or recorded ever again |
| `GuardRuns.GuardReopensExactly` | src/agent/cost_guard.rs:95-186 | a set flag is cleared in some run exactly when the daily limit is not zero and a client that checked earlier can still charge a call |
| `BudgetRuns.TotalIsWhatWasCharged` | src/agent/cost_guard.rs:153-186 | in every run the total is the sum of the costs charged since the date last changed, and the reset date that of the last charge |
| `BudgetRuns.DatesForwardMeansDay` | src/agent/cost_guard.rs:153-166 | where dates only move forward, that is the sum of the last date's charges |
| `BudgetRuns.SpendShownIsDay` | src/agent/cost_guard.rs:199-207 | and the reported spend of a date is the sum of that date's charges |
| `BudgetRuns.DailyBound` | src/agent/cost_guard.rs:106-186 | with k clients what was charged since the date last changed stays below the limit plus k calls in every interleaving |
| `BudgetRuns.DailyBoundExactly` | src/agent/cost_guard.rs:153-224 | that holds in all runs exactly when the limit is zero, there is no client, or limit and one call stay within 64-bit cents |
| `WebhookLimiter.Limiter.HandleRequest` | src/channels/http.rs:146-164 | in place, one request restarts an old window, is counted and is refused beyond 60 |
| `WebhookLimiter.WindowIsExact` | src/channels/http.rs:146-164 | the window began with the last arrival a minute or more into its predecessor, at its second clock reading; the counter counts its arrivals, refused ones included, in 32 bits |
| `WebhookLimiter.AcceptedExactly` | src/channels/http.rs:146-164 | a request is accepted exactly when its window has counted at most 60 with it |
| `WebhookLimiter.MinuteBoundExactly` | src/channels/http.rs:146-164 | over all arrivals of which any n in a row take a minute, every closed minute holds at most 120 accepted requests, if and only if n is at most 2^32 |
| `WebhookLimiter.MinuteBoundIsAttained` | src/channels/http.rs:146-164 | some arrivals attain 120 |
| `Settings.SetChangesOwnLeaf` | src/settings.rs:934-1008 | setting a leaf by its path succeeds exactly when the inferred value has the leaf's kind, and then changes that leaf and no other |
| `SettingsTexts.SetTakesExactly` | src/settings.rs:949-998 | kind by kind, which texts a leaf takes over its current value, and the value each stands for |
| `SettingsTexts.ErrorTells` | src/settings.rs:934-1008 | which error a path or text that is not taken gives: a missing node, a parent that is no object, a text not of the leaf's present kind, or a value the leaf does not take |
| `Settings.SetReplacesSubtree` | src/settings.rs:934-1008 | setting an inner node replaces everything below it by what the text reads back as, succeeds exactly when it reads back, and changes no other leaf |
| `Settings.ForeignPathChangesNothing` | src/settings.rs:931-1008 | a path outside the schema changes nothing; the call succeeds exactly when its parent is an inner node of the schema |
| `Settings.UnknownKeyReportsSuccess` | src/settings.rs:931-1008 | any unknown top-level key is reported as set |
| `Settings.SameLeaves` | src/settings.rs:934-1008 | trees of one schema are determined by their leaves |
| `SettingsTexts.ReadsBackExactly` | src/settings.rs:1000-1006 | a tree reads back exactly when all the schema knows of it has its shape; missing leaves get their defaults and unknown keys are dropped |
| `DottedPaths.SplitJoin` | src/settings.rs:941-946 | splitting undoes joining on paths of dot-free keys |
| `DottedPaths.JoinSplit` | src/settings.rs:941-946 | joining undoes splitting on every text |
| `Decimal.ParsePrint` | src/settings.rs:963-969 | unsigned parsing undoes printing on 64-bit values and refuses larger ones |
| `Decimal.ParsePrintInt` | src/settings.rs:970-976 | signed parsing undoes printing on 64-bit values |
| `SettingsStore.CollectSettingsJson` | src/settings.rs:1035-1055 | the collector adds the leaves below its prefix, whatever the order of keys, and changes nothing else |
| `SettingsStore.ToDbMap` | src/settings.rs:797-806 | the map holds exactly the leaves of the settings under their dotted paths |
| `SettingsStore.FromDbMap` | src/settings.rs:757-792 | the rows are set one after the other in some order; the result always has the right shape, each leaf comes from its own row or its default if no row is for an inner node, and settings are restored exactly when all their leaves survive |
| `SettingsStore.SaveAndLoad` | src/settings.rs:757-806 | settings written out and rebuilt come back exactly when every leaf survives |
| `SettingsStore.EntriesSetLeaves` | src/settings.rs:757-792 | each leaf ends up as what its own entry makes of the default, or the default, whatever order the entries come in |
| `SettingsStore.LeafSurvivesExactly` | src/settings.rs:949-998 | when one leaf survives: by kind, default and value |
| `SettingsStore.RoundTripExactly` | src/settings.rs:757-806 | the round trip through any listing of the leaves is the identity exactly when every leaf survives |
| `SettingsStore.OptionalTextLost` | src/settings.rs:979-983 | an optional text `true` comes back as none |
| `SettingsOverlay.MergeNonDefault` | src/settings.rs:1096-1122 | the recursive overlay in any order of keys |
| `SettingsOverlay.MergeFrom` | src/settings.rs:891-910 | overlays settings, or leaves them as they were if the result does not read back |
| `SettingsOverlay.OverlayLeaves` | src/settings.rs:885-910 | each leaf is the overlay's where that differs from the default, and else the base's |
| `SettingsOverlay.OverlayIdentity` | src/settings.rs:885-910 | the defaults are the identity on both sides, and overlaying is idempotent |
| `SettingsOverlay.OverlayAssociative` | src/settings.rs:885-910 | overlaying is associative |
| `SettingsOverlay.OverlayCommutesExactly` | src/settings.rs:885-910 | two overlays commute exactly when they never change one leaf to two values |
| `SettingsAccess.SetOwnText` | src/settings.rs:913-930 | setting a leaf to the text it reads as changes nothing |
| `SettingsAccess.ResetRestoresExactly` | src/settings.rs:1011-1018 | a reset of a leaf brings its default back exactly when the default's text reads back over the current value |
| `SettingsAccess.ResetRestoresSubtree` | src/settings.rs:1011-1018 | resetting an inner node always succeeds and brings every leaf below it back to its default, nulls included |
| `SettingsAccess.OptionalTextNotReset` | src/settings.rs:1011-1018 | resetting an optional text that is set leaves the text `null` in it |
| `Utf8.FloorCharBoundary` | src/util.rs:8-17 | the loop returns the length, or the last position up to `pos` that is no continuation byte |
| `Utf8.Utf8Floor` | src/tracing_fmt.rs:93-99 | the other loop returns that same position |
| `Utf8.MaskTest` | src/tracing_fmt.rs:95-96 | the mask test picks out the bytes 0x80 to 0xBF |
| `Utf8.FloorIsBoundary` | src/tracing_fmt.rs:93-99 | on every text it is the largest character boundary not above the position, at most 3 bytes back, and the prefix encodes a prefix of the text |
| `Utf8.EncodedIsWellFormed` | src/tracing_fmt.rs:93-99 | the encoding of section 3 of RFC 3629 satisfies the syntax of section 4 |
| `Utf8.WellFormedIsEncoded` | src/tracing_fmt.rs:93-99 | and only encodings satisfy it |
| `EventBuffer.Buffer.Write` | src/tracing_fmt.rs:77-85 | appends all bytes |
| `EventBuffer.Buffer.Drop` | src/tracing_fmt.rs:103-145 | emits the event, or its cut prefix without a trailing newline and the size suffix |
| `EventBuffer.OutputIsText` | src/tracing_fmt.rs:103-145 | the emitted event is valid UTF-8: all of a short text, or the longest prefix of its characters that fits, less one trailing newline, and the suffix |
| `MemoryFences.EscapedHasNoFence` | src/agent/dispatcher.rs:664-676 | no substring of an escaped text is a fence |
| `MemoryFences.EscapeIdempotent` | src/agent/dispatcher.rs:664-676 | escaping again changes nothing |
| `MemoryFences.EscapeReplacesEachFence` | src/agent/dispatcher.rs:664-676 | exactly the brackets that open a fence are replaced |
| `FenceGrammar.FenceIsFound` | src/agent/dispatcher.rs:664-676 | the scanner finds a fence at the front exactly where the text starts with a bracket, any filling and a tag name in any case |
| `FenceGrammar.NoPartIsFence` | src/agent/dispatcher.rs:664-676 | no part of an escaped text is such a fence |
| `FenceGrammar.OthersAreUnchanged` | src/agent/dispatcher.rs:664-676 | a text without one is left as it is |
| `Excerpts.CutExcerpt` | src/agent/dispatcher.rs:690-696 | cutting at the floor of byte 600 yields the excerpt, and tells whether anything was cut off |
| `Excerpts.ExcerptIsLongest` | src/agent/dispatcher.rs:657-692 | the cut never falls inside a character: the excerpt is the longest prefix of at most 600 bytes |
| `MemoryFences.FormatRecalledMemories` | src/agent/dispatcher.rs:681-705 | the loop builds the block of all results, each cut to its excerpt and escaped |
| `MemoryFences.FormatSkeleton` | src/agent/dispatcher.rs:681-705 | its fences are the outer opening, one inner pair per result and the outer closing, whatever the contents |
| `RecalledBlock.NextMemory` | src/agent/dispatcher.rs:681-705 | the block without results is a fixed text in the outer tags; each further result comes right before the closing tag, with its score, its longest front of at most 600 bytes, escaped, and an ellipsis exactly where something is left out |
| `JobTable.Scheduler.Schedule` | src/agent/scheduler.rs:85-143 | a tracked job is left alone, a full table or a context that cannot start refuses, and otherwise a new insertion with its cleaner is made |
| `JobTable.Scheduler.Stop` | src/agent/scheduler.rs:412-458 | the entry goes, its worker is told to end, and the job is cancelled where its state allows |
| `JobTable.Scheduler.MoveCleaner` | src/agent/scheduler.rs:145-163 | a cleaner's spawn, look and removal, each one step |
| `JobTable.Scheduler.CleanupFinished` | src/agent/scheduler.rs:481-498 | exactly the entries of ended workers go |
| `JobTable.TableStaysWithinCap` | src/agent/scheduler.rs:85-168 | in every interleaving the table keeps to the cap, and every entry has the live cleaner of its own, latest insertion |
| `JobTable.EndedEntryIsFreed` | src/agent/scheduler.rs:145-163 | three steps of its own cleaner, interleaved with anything, free the entry of an ended worker |
| `JobRuns.WorkerIsLostExactly` | src/agent/scheduler.rs:149-158 | a running worker leaves the table exactly when a cleaner removes an entry scheduled again since its look |
| `JobRuns.LiveWorkersWithinCap` | src/agent/scheduler.rs:85-168 | where no job is scheduled before its earlier cleaners are gone, the running workers keep to the cap |
| `JobRuns.CapHoldsExactly` | src/agent/scheduler.rs:85-168 | over all runs, for every cap: the running workers keep to it if and only if it is zero, no job is handed in twice, or `cleanup_finished` is never called |
| `JobRuns.StopIsFinal` | src/agent/scheduler.rs:412-458 | a job that was tracked and stopped is never tracked again |
| `JobRuns.RecoveredJobIsNotStarted` | src/agent/commands.rs:189-210 | in every table and whatever happens in between, recovering a stuck job and then scheduling it starts nothing, unless it gets stuck again in between |
| `JobRuns.StuckJobStartsExactly` | src/agent/scheduler.rs:85-143 | a job that is stuck when it is scheduled starts exactly when it is not tracked and there is room |
| `JobRuns.StuckJobIsReached` | src/agent/scheduler.rs:85-168 | a stuck job with an ended worker that is still tracked is reached; scheduling it reports success and starts nothing |
| `Routing.SessionManager.GetOrCreateSession` | src/agent/session_manager.rs:61-100 | a user's session is made once |
| `Routing.SessionManager.ResolveThread` | src/agent/session_manager.rs:136-184 | a live route is returned, and otherwise a fresh thread with an undo manager is made and routed |
| `Routing.SessionManager.RegisterThread` | src/agent/session_manager.rs:187-217 | routes a hydrated thread by its canonical id and keeps an existing undo manager |
| `Routing.SessionManager.MaybeHydrateThread` | src/agent/thread_ops.rs:32-124 | a named thread the session lacks is added and registered; anything else changes nothing but the session's existence |
| `Routing.SessionManager.GetUndoManager` | src/agent/session_manager.rs:220-239 | an undo manager is made once |
| `Routing.SessionManager.PruneStaleSessions` | src/agent/session_manager.rs:244-354 | the scan passes over busy sessions; the removals take the stale users' sessions and routes, and the undo managers of the threads it could look up |
| `Routing.SessionManager.Route` | src/agent/agent_loop.rs:623-637 | a message is hydrated first, if it names a thread, and then resolved |
| `RoutingRuns.RoutesStaySound` | src/agent/session_manager.rs:136-217 | in every run each route leads to a live thread of its user's session, and keys of one user never share a thread |
| `RoutingRuns.KnownKeyChangesNothing` | src/agent/session_manager.rs:151-162 | a message under a known key goes to its thread and changes none of the maps |
| `RoutingRuns.ResolvingAgainIsStable` | src/agent/session_manager.rs:136-184 | a resolved key resolves to the same thread until its user is pruned |
| `RoutingRuns.ActivityIsNewThread` | src/agent/session_manager.rs:136-184 | a message counts as activity of its session exactly when its key is new |
| `RoutingRuns.SessionInUseIsPruned` | src/agent/session_manager.rs:244-260 | so a session is pruned right after a message of its user |
| `RoutingRuns.PruningIsLocal` | src/agent/session_manager.rs:244-354 | pruning takes all routes of the stale users that are not busy and leaves every other user's sessions and routes as they were |
| `RoutingRuns.PruneTakesManagersExactly` | src/agent/session_manager.rs:334-340 | an undo manager goes exactly when a pruned session that is not busy at either look holds its thread; every other stays as it was |
| `RoutingRuns.SwitchKeepsRoutes` | src/agent/session.rs:168-176 | switching to a thread of the session makes it active and counts as activity, to any other changes nothing |
| `RoutingRuns.OpenAddsThread` | src/agent/session.rs:140-147 | a new thread is added to its user's session and made active; nothing else changes |
| `RoutingRuns.NewThreadHasManager` | src/agent/session_manager.rs:163-184 | a thread made for a message is active and has an undo manager, a new and empty one unless it had one already |
| `PruneRaces.AnswersAreLive` | src/agent/session_manager.rs:136-354 | however the lock regions of pruning and of deliveries interleave, a message is handed to a thread of the session it was given; a route that dangles is replaced before it is used |
| `PruneRaces.RoutesLiveAfterPruning` | src/agent/session_manager.rs:244-354 | as long as no session is taken away under a delivery that holds it, no route dangles once pruning is done |
| `PruneRaces.RouteCanDangle` | src/agent/session_manager.rs:136-184 | otherwise, from any quiet state, the route of a new key comes to dangle |
| `RoutingRuns.ManagersAreKept` | src/agent/session_manager.rs:170-205 | nothing but pruning removes or replaces an undo manager |
| `RoutingRuns.NamedThreadIsReached` | src/agent/thread_ops.rs:32-124 | a message with a canonical thread id reaches that thread exactly when its key already leads there or the user has no such thread |
| `RoutingRuns.NamedThreadIsMissed` | src/agent/thread_ops.rs:32-124 | the other case is reached: sent from a second channel, a message with the id of a thread goes to a new one |

## Left out

- ApprovalRuns.ExecutedAtMostOnce: one session at a time, with fresh request ids; a submission is atomic because the agent handles one message at a time.
- ThreadOps.ProcessUserInput: the re-check for an interrupt after the loop is not modelled, because no other message is handled meanwhile; persistence and status messages are left out, and the loop's outcome is a parameter.
- MemoryFences.FormatSkeleton: scores are texts without angle brackets, as two-digit decimals print.
- SettingsOverlay.MergeFrom: settings trees are values; the overlay and `set` return a new tree where the program changes one in place, so aliasing is not captured.
- SettingsStore.FromDbMap: with a row for an inner node the result depends on the order of visits, and is only described as some order; JSON text is a codec, which must give back exact values as it printed them for a round trip.
- Settings.UnknownKeyReportsSuccess: the alias `setup_completed` of `onboard_completed` is not modelled; setting it is refused as a duplicate field. The same goes for Settings.ForeignPathChangesNothing.
- Compaction.Compact: the summary and the workspace write succeed or fail as told; token estimates are floor(13 w / 10) + 4 over word counts and thresholds are percentages, in place of floating point.
- JobRuns.CapHoldsExactly: a worker that was told to stop no longer counts as running, though it may take a moment to end; job states move by their transition rules at any time.
- Routing.SessionManager.PruneStaleSessions: one step here; `PruneRaces` takes its lock regions apart, there without undo managers and with the stale users as a parameter.
- TurnExecutions.TurnExecutesEachOnce: up to the last run of the loop; a call approved after it whose tool then enters auth mode is left out.
- Undo managers of two users who name the same thread id are shared by the program; nothing is claimed about that case.
- Tool calls recorded in a turn, timestamps, metadata, response chaining and the active thread's effects.
- The subtask table, `stop_all`, and batches: the same shape as the job table, with no cap.
- Decimal arithmetic overflow of costs, which panics.
- Database, LLM providers, tools, hooks, channels, configuration and command line: parameters, or not part of this model.
- The routine engine, self-repair, submission parsing and the benchmark harness.
