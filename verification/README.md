# Verification of the livestream runtime

This project models the stateful coordinators of an AI livestream: the spend governor, the shared task
board, the rate limiter, the Management review pipeline, the conversation engine with its tool loop, the
model-name resolver, the economy ledger, the migration runner, the needs simulation, the scoped key space,
prompt truncation and the speech parser. Each is one module (or a few) and proves the property the component
exists for, over every run or every input.

`dafny verify dfyconfig.toml` checks everything.

## How the models are built

- External stores (Redis, Postgres, the event bus) are explicit maps, sequences and logs. What the outside
  world answers (an LLM's reply, a tool's result, an exception, the clock) is an input, so every theorem holds
  for all its behaviours.
- Where interleaving matters (`SpendGovernor`, `TaskClaims`, `FinishedTasks`, `RateLimiter`) a component is a state machine
  whose steps are the stretches between two `await`s; runs are arbitrary step sequences.
- Objects with fields are classes (`CostGovernor`, `SharedWorkingState`, `RateLimiter`, `Management`,
  `ConversationEngine`, `Outside`, `NeedsManager`, `AgentEconomyManager`, `Runner`, `RedisClient`,
  `ScopedRedis`). Their methods are proved against specification functions, and the laws are lemmas about
  those functions.
- `Decimal` and `float` are exact reals, except that the economy models the rounding of its columns.
- `Wrappers`, `Ordering`, `PyText`, `TextScan`, `ReferenceChase`, `Segments` and `Wording` hold what several models share
  or what a proof needs in general form.

## What the proofs found

Where the code does not do what its documentation says, the model follows the code and the condition under
which the documentation is right is proved exactly.

- README.md:32-33 promises that every agent utterance passes review. Every line the engine speaks does, but the
  `send_message` tool (tools/messaging.py:42-51) emits AGENT_SPEAK on its own. The promise holds of all runs exactly
  when no agent has that tool (`TurnRecord.FullReviewExactlyWhen`, `ConversationEngine.ConversationEngine.Run`); any
  agent that has it can be heard unreviewed in its first turn (`ConversationEngine.UnreviewedRun`).
- core/tool_executor.py:31 names five tool rounds, but the loop (core/conversation_engine.py:1352) can run tools
  six times (`ToolRounds.LimitCanBeExceeded`), exactly when the sixth and last request is answered with calls to act
  on (`ToolRounds.LimitExceededExactlyWhen`).
- A tool forced by a trigger is forced in the first round of every later turn too: the name is looked up anew each
  time (core/conversation_engine.py:1343-1350), although the comment at core/conversation_engine.py:1404 says that
  later speakers are not forced (`ConversationEngine.OpenAndGoOn`).
- The ledger's columns are NUMERIC(10,4) (db/migrations/024_agent_accounts.up.sql:2-10), rounded half away from
  zero. A debit whose amount is an odd multiple of 0.00005 makes 0.0001 out of nothing; all other amounts keep
  the books (`AgentEconomy.DebitBalancesExactlyWhen`, `AgentEconomy.AgentEconomyManager.TransferFunds`).
- Migrations are sorted by file name (db/migrate.py:52), so `1000_` comes before `999_`, while `down` takes the
  highest version (`MigrationFiles.WiderNumberComesFirst`, `Migrations.LastIsLatestExactlyWhen`). With numbers of one
  width every directory is discovered in order (`MigrationFiles.SameWidthIsInOrder`).
- The branch for `model:agent` (core/model_config.py:180-181) is dead, and a reference met under two different
  agents is reported as a cycle though the chain ends (`ModelConfig.BareAgentIsRejected`,
  `ModelConfig.SpuriousCycle`). Three variables are enough, for any two agents with variables of their own
  (`ModelConfig.SpuriousCycleIn`, `ModelConfig.DetourExists`). Every endless chain is reported, and a report is right
  exactly if some reference is met twice by the same asker, where the asker counts only for `model:conversation` and
  `model:building` (`ModelCycles.ReportIsRightExactlyWhen`). Where no variable uses these two, every report is right
  (`ModelCycles.ReportsAreRight`).
- core/agent_needs.py:17-20 says events fire on downward crossings only; a recovery from critical can fire a
  warning (`AgentNeeds.RecoveryCanWarn`), exactly when the tick before it left the need flagged as critical but not
  as warned and the need has come back above its critical threshold (`AgentNeeds.UpwardWarningExactlyWhen`). A new
  agent's first tick gives an event without a crossing exactly if a threshold is 100 or more
  (`AgentNeeds.FirstEventExactlyWhen`). One long tick can skip a warning that two short ones give
  (`AgentNeeds.TicksCompose`).
- core/shared_state.py:214 promises first-claim-wins; from an idle board on it holds exactly unless the task has an
  owner on record and no claim marker (`TaskClaims.ExclusiveExactlyWhen`), as a rescue task has when it is first
  dispatched (core/shared_state.py:377-386).
- core/shared_state.py:236 says a finished task can never be owned again. A claim that read it before it was finished
  writes it back as in progress; it stays finished exactly if no such claim, and no edit that reopens it, is on its way
  (`FinishedTasks.StaysFinishedExactlyWhen`).
- A rate-limit counter whose EXPIRE is lost locks its key out for good
  (`RateLimiter.WithoutExpireLockedForever`).
- With a token budget of exactly zero, truncation drops token-free messages that would fit
  (`ContextBuffer.BestFitExactlyWhen`).
- A danger closed by status alone can be reopened by a later edit (`Dangers.ReopenedExactlyWhen`).

## Model

| member | source | states |
|---|---|---|
| SpendGovernor.OvershootBound | core/cost_governor.py:82-140 | In every interleaving of admission checks and cost logging, with at most n calls of an agent in flight and each of them costing at most M, whatever other agents spend, the admitted spend recorded in every window is strictly below cap + n·M, whatever expires, is reset or is lost |
| SpendGovernor.ListedCapBounds | core/cost_governor.py:71-80 | That bound for the cap of a listed agent, whatever the default is |
| SpendGovernor.DefaultCapBounds | core/cost_governor.py:77 | That bound for the default cap of an agent that is not listed |
| SpendGovernor.UncappedSpendsAnything | core/cost_governor.py:78-79 | A listed agent without a positive cap of its own is bounded by nothing: one call can spend any amount in a window, though the default is set |
| SpendGovernor.OvershootIsAttained | core/cost_governor.py:97-107 | The bound is tight: any costs summing to less than the cap, plus n·M more, can be recorded in one window |
| SpendGovernor.AdmitKeepsHeadroom | core/cost_governor.py:97-107 | Admission re-establishes the room for everything in flight in every window still open |
| SpendGovernor.LogKeepsInv | core/llm_client.py:477-478 | Recording a call's cost keeps the invariant |
| SpendGovernor.ProceedKeepsInv | core/llm_client.py:480-485 | Every step of a call between two awaits keeps the invariant |
| SpendGovernor.RunKeepsInv | core/llm_client.py:601-680 | So does every run |
| SpendGovernor.CheckedIsTheProtocol | core/cost_governor.py:82-107 | The admission steps of one call, taken in a row, are the atomic check that the class performs |
| SpendGovernor.RecheckIsTheProtocol | core/cost_governor.py:109-136 | The re-check of a call whose cost is recorded takes the same decision and ends the call |
| SpendGovernor.StepKeepsTimely | core/cost_governor.py:145-150 | No block flag ever outlives the window after it was set |
| SpendGovernor.QuietWindowReadmits | core/cost_governor.py:93-107 | After more than one quiet window the next call of any agent is admitted |
| SpendGovernor.CapFor | core/cost_governor.py:71-80 | A listed agent has its own positive cap, whatever the default; one listed with none, zero or less has none; one not listed has the default if that is positive |
| SpendGovernor.EachRowCounts | core/repos/cost_repo.py:77-95 | Every row of the agent in the window counts in full, whether an admitted call wrote it or not, and no other row does |
| SpendGovernor.CostGovernor.IsAllowed | core/cost_governor.py:82-107 | A listed agent is judged by its own entry whatever the default, any other by the default: with a positive cap it is allowed exactly when no block is live and its spend in the window is below the cap, and at the cap a block of one window is set and reported; without one it is always allowed |
| SpendGovernor.CostGovernor.RecordAndCheck | core/cost_governor.py:109-136 | The re-check after logging trips exactly at the cap of the agent's own entry, or of the default for one not listed, and alerts exactly at the threshold below it |
| SpendGovernor.CostGovernor.ResetFlag | core/cost_governor.py:138-140 | Clears the agent's block and nothing else |
| SpendGovernor.CostGovernor.TripFlag | core/cost_governor.py:145-163 | Sets the block for one window and reports it |
| TaskClaims.AtMostOneHolder | core/shared_state.py:213-263 | For a task never given an owner except by claims, no interleaving, however stale the records written back, tells two agents that they hold it; whoever is told another holder is told that agent, and a loser of the race always is |
| TaskClaims.RunInv | core/shared_state.py:190-263 | In every run each stored or in-flight copy of the record carries no owner or the marker's, and every answer agrees with the marker |
| TaskClaims.MarkersAreWriteOnce | core/shared_state.py:247-251 | A marker, once set, is never changed or removed, by any continuation of any run |
| TaskClaims.RunLost | core/shared_state.py:258-263 | In every run each loser of a race was told exactly the agent of the marker |
| TaskClaims.FinishedRaceHasItsWinner | core/shared_state.py:247-263 | A race that has run to its end has told exactly the marker's agent that it holds the task |
| TaskClaims.RunWinner | core/shared_state.py:248-251 | In every run a set marker names an agent that was told so or is about to be |
| TaskClaims.ExclusiveExactlyWhen | core/shared_state.py:213-263 | From an idle board with nobody told yet, every continuation without outside owners tells at most one agent that it holds the task, exactly unless the task has an owner and no marker |
| TaskClaims.OwnedPendingTaskHasTwoHolders | core/shared_state.py:240-251 | On every idle board a pending task with an owner and no marker can be held by the owner and by any rival |
| TaskClaims.RivalWins | core/shared_state.py:239-251 | A claim that races alone ends with the winner on record, in progress, and nothing else of the board changed |
| TaskClaims.WinnerReclaims | core/shared_state.py:239-240 | A second claim of the winner is answered from the record: it holds the task |
| TaskClaims.OwnedUnmarkedIsNotExclusive | core/shared_state.py:240-251 | An owned task without a marker, whatever its status, can be reopened and then held by two agents |
| FinishedTasks.StaysFinishedExactlyWhen | core/shared_state.py:235-263 | A finished task stays finished under every later claim, finishing edit and prune exactly if no coroutine of the task is past its read and on the way to an unfinished write |
| FinishedTasks.RunStaysClosed | core/shared_state.py:190-263 | Without such a coroutine every run keeps the task finished, or removes it, and starts none |
| FinishedTasks.RunAloneReopens | core/shared_state.py:247-256 | With one, its own next steps reopen the task |
| Dangers.BufferIsTheLatestReports | core/shared_state.py:341-347 | After any history the buffer is the last 25 reports in arrival order, up to edits |
| Dangers.ReportGoesLast | core/shared_state.py:341-347 | A new report comes last, and the others stay as they are but for the oldest of 25 |
| Dangers.NormalizedSays | core/shared_state.py:342-345 | What is stored of a report: a known kind, a severity from 1 to 5, a status, and all else as it came |
| Dangers.RecentAreTheLast | core/shared_state.py:347 | The buffer keeps the last 25 as they are |
| Dangers.ResolutionIsFinal | core/shared_state.py:432-447 | A report with a resolution time is never unresolved again |
| Dangers.OpenWhileInOneOfThree | core/shared_state.py:804-810 | Without a resolution time a report is unresolved exactly in the three open statuses |
| Dangers.ReopenedExactlyWhen | core/shared_state.py:804-810 | When an edit reopens a report closed by status alone |
| Dangers.CallsClearNewestFirst | core/shared_state.py:389-447 | Exactly as many resolve calls as an agent has unresolved reports clear them, newest first, and change nothing else |
| Settlement.StepKeepsTidy | core/shared_state.py:490-560 | Every assign and advance keeps the list sorted, bounded and clean, touches only the addressed objective, and takes none out of completed or out of the latch |
| Settlement.RunKeepsTidy | core/shared_state.py:490-560 | The same over any run; completed is absorbing and what is not addressed never changes |
| Settlement.StepKeepsGood | core/shared_state.py:490-560 | A list that is latched throughout stays so |
| Settlement.RunKeepsGood | core/shared_state.py:490-560 | The same over any run |
| Settlement.ChangedIsClean | core/shared_state.py:519-560 | An advance leaves its objective latched, whatever it was before |
| Settlement.AssignedSays | core/shared_state.py:503-514 | An assignment names the new owner, puts the one before on record, starts the work, and leaves the rest as it was |
| Settlement.AdvancedSays | core/shared_state.py:531-557 | An advance stores what it brings, brought into range, keeps what it leaves out, and is completed at the bar and has the status asked for below it |
| Settlement.NormalizedSays | core/shared_state.py:459-464 | Numbers in range are stored as they are, others brought to the nearer end, and nothing else changes |
| Settlement.CompleteRatio | core/shared_state.py:777-789 | The bar is the configured one if positive, else 0.8 |
| Settlement.NameIsRead | core/shared_state.py:792-804 | A status name is read as the status of that name, any other as pending |
| PyText.SlugSays | core/shared_state.py:792-793 | A kind or a status is read stripped, in small letters, with underscores for hyphens and blanks |
| Settlement.StoredIsGood | core/shared_state.py:449-468 | Whatever list is set, longer than twelve, unnamed or negative entries included, what readers see is sorted, bounded and clean; it is latched exactly when the named ones of the first twelve are |
| Settlement.ReadOfRun | core/shared_state.py:470-560 | Readers cannot tell a run of operations on the store from the same run on what they saw of it, if that is sorted, bounded and clean |
| Settlement.EverySetListIsKept | core/shared_state.py:449-560 | Whatever list was set, every run of operations keeps all of that for its readers |
| Settlement.StepInPlace | core/shared_state.py:498-517 | Reading, sorting and storing back is an update in place |
| TaskPruning.PruningRemovesDoneOnly | core/shared_state.py:269-289 | Pruning removes done tasks only, changes nothing it keeps, and returns the exact number removed |
| TaskPruning.PruningKeepsTheNewest | core/shared_state.py:276-289 | What stays done is within the TTL, at most ten tasks, and no older than anything removed |
| TaskPruning.NothingGoesNeedlessly | core/shared_state.py:282-289 | A task is removed only because it is older than an hour or because ten others are kept |
| TaskPruning.DoneByAgeAre | core/shared_state.py:277-280 | The sorted list is exactly the done tasks, each once |
| TaskPruning.PruneCountFits | core/shared_state.py:282-289 | The number removed covers all expired tasks and all beyond ten |
| SharedState.SharedWorkingState.AddTask | core/shared_state.py:187-188 | An unowned, unfinished task is free for every agent unless its id was raced for before: proposing a claimed task again leaves it with the winner; other tasks answer every claim as before |
| SharedState.SharedWorkingState.UpdateTaskStatus | core/shared_state.py:190-211 | A found record gets the status, the owner if one is passed and the reason if one is passed, and keeps the rest; then done tasks are pruned if it was finished. A record not found changes nothing |
| SharedState.SharedWorkingState.ClaimTask | core/shared_state.py:213-263 | Every verdict of an uncontended claim by status, owner and marker; only a claim that wins changes anything, and it leaves its agent on record as the owner, in progress, so that the same agent is told so again |
| SharedState.SharedWorkingState.PruneCompletedTasks | core/shared_state.py:269-289 | The pruning loop removes exactly the tasks the specification names and counts them |
| SharedState.SharedWorkingState.ReportDanger | core/shared_state.py:341-347 | Appends the normalised report and keeps the last 25 |
| SharedState.SharedWorkingState.ScanBack | core/shared_state.py:418-428 | The backward scan stops at the newest match |
| SharedState.SharedWorkingState.UpdateDanger | core/shared_state.py:407-447 | The scan and rewrite edit the newest match in place: by id if one is given, else by agent among the unresolved, else the newest of all; fields are replaced only by what the edit brings |
| SharedState.SharedWorkingState.MarkDangerResolved | core/shared_state.py:389-405 | What is returned is resolved; nothing is returned exactly when nothing matches |
| SharedState.SharedWorkingState.DispatchRescueTask | core/shared_state.py:360-387 | A rescue task is added exactly when a report matches |
| SharedState.SharedWorkingState.SetSettlementObjectives | core/shared_state.py:449-468 | Stores the first twelve, sorted and normalised |
| SharedState.SharedWorkingState.AssignSettlementObjectiveOwner | core/shared_state.py:490-517 | Assigns the first objective of that id unless completed |
| SharedState.SharedWorkingState.AdvanceSettlementObjective | core/shared_state.py:519-560 | Advances it, with the demotion guard and the positive latch |
| RateLimiter.AtMostTwicePerWindow | core/public_routes.py:60-72 | With INCR and EXPIRE as separate steps and any timing, any half-open interval as long as the window holds at most twice the limit of granted requests |
| RateLimiter.AtMostMaxPerLifetime | core/public_routes.py:60-72 | No counter lifetime grants more than the limit |
| RateLimiter.DeniedNeverExtend | core/public_routes.py:69-72 | As long as no new counter is created, no step of any kind moves the deadline of a counter, and no EXPIRE is outstanding |
| RateLimiter.NoNewCounterBeforeDeadline | core/public_routes.py:69-72 | Until its deadline a counter is not replaced, whoever calls |
| RateLimiter.ExpireReopens | core/public_routes.py:70-72 | One window after EXPIRE the next request is granted, whatever steps came between |
| RateLimiter.WithoutExpireLockedForever | core/public_routes.py:69-71 | An exhausted counter that never gets its EXPIRE grants nothing ever again |
| RateLimiter.RunInv | core/public_routes.py:60-72 | Lifetimes start at least one window apart and every grant lies in its lifetime |
| RateLimiter.RateLimiter.CheckRateLimit | core/public_routes.py:60-72 | The uninterrupted call: allowed without Redis, else exactly up to the limit, touching its own key only |
| Management.FailingCallsAreBounded | core/management.py:423-494 | Over any sequential run of length D with s answered calls at most 3·(s+1) + floor(D/60) LLM calls fail |
| Management.ApprovalNeedsAnAnswer | core/management.py:425-494 | Content is approved exactly when the breaker lets the call through and the LLM answers with an approval |
| Management.AttemptKeepsInv | core/management.py:473-494 | Every review keeps the breaker's accounting |
| Management.BlockedKeyword | core/management.py:415-421 | None exactly when no blocklist word occurs in the lower-cased content |
| Management.Management.Review | core/management.py:96-198 | The whole outcome under each policy. Under `enforce`, a verdict that the LLM gives keeps its severity, brought to 1 to 5, and its approval; a muted agent, a keyword, an open breaker, a failed call and an answer without JSON are rejected with severity 3 and say why |
| Management.Management.LlmReview | core/management.py:423-494 | An open breaker blocks with severity 3 and changes nothing; an answer closes it and its severity is kept, brought to 1 to 5; a third failure in a row opens it for a minute |
| Management.Management.Mute | core/management.py:400-402 | The agent is muted exactly until its duration has passed, whatever mute this replaces; nobody else is affected |
| Management.Management.Unmute | core/management.py:409-411 | The agent is muted at no time any more; nobody else is affected |
| Management.Management.Intervene | core/management.py:222-273 | What each severity mutes, kills and announces |
| Utterances.SpokenExactlyWhenJustPassed | core/conversation_engine.py:394-426 | In a governed timeline a line is spoken by the engine exactly when it comes straight after the review that passed exactly its words for its speaker |
| Utterances.PassedIsSpoken | core/conversation_engine.py:682-688 | A line that passes review is the next thing that happens |
| Utterances.EveryUtteranceReviewedExactlyWhen | README.md:32-33 | In a governed timeline every AGENT_SPEAK event comes straight after its review if and only if no agent sent a message with the tool |
| Utterances.SendingKeepsGoverned | tools/messaging.py:42-51 | Messages sent during tool rounds leave the engine's lines governed |
| ConversationEngine.ConversationEngine.Run | core/conversation_engine.py:262-286 | Over any number of beats, exceptions included, whatever time passes and whatever others do to mutes and breaker meanwhile, with Management on and `enforce`, every engine line, and nothing else, comes straight after its own review, and every utterance does if no agent has the messaging tool; the timeline only grows; the history of the conversation is what was spoken, with rising turn numbers |
| ConversationEngine.ConversationEngine.OneBeat | core/conversation_engine.py:262-286 | One pass of the loop keeps the record and what was heard before |
| ConversationEngine.UnreviewedRun | tools/messaging.py:42-51 | For every agent with the messaging tool, every blocklist and every assignment of tools there is a run of one turn under `enforce` with an utterance that was not reviewed |
| ConversationEngine.OpenAndGoOn | core/conversation_engine.py:1343-1350 | A trigger's tool is forced in the first request of the opening turn and again in that of the next, each exactly if the speaker has the tool |
| ConversationEngine.ConversationEngine.StartConversation | core/conversation_engine.py:295-433 | The opener speaks turn 1 and nothing else is spoken, or the conversation does not exist, with or without an exception, or an exception leaves it silent; what was heard before stays; the turn's first request |
| ConversationEngine.ConversationEngine.ContinueConversation | core/conversation_engine.py:633-691 | A middle turn speaks exactly its one line, by the selected agent at the next turn and last of all, or none; what was heard before stays; a skipped turn gives its number back, an exception does not; the answer in each case; the turn's first request |
| ConversationEngine.ConversationEngine.PostTurnUpdates | core/conversation_engine.py:517-571 | Speaks the line, counts the turn and nudges after every fourth turn of talk alone |
| ConversationEngine.ConversationEngine.EndConversation | core/conversation_engine.py:694-827 | The closer speaks at most one line, which comes last, and what was heard before stays; the conversation ends unless wrapping up raises |
| ConversationEngine.ConversationEngine.GenerateTurn | core/conversation_engine.py:1540-1695 | The outcome is that of the first attempt that asks for no other, or nothing after three. A rejection of severity 4 or 5 ends the turn at that attempt, without a line and without a further model call; after a milder one, or one without a verdict, there is another attempt while fewer than three were made. A line returned has just passed review, repeats no recent output and joins them; nothing is spoken meanwhile; at most 21 model calls |
| ConversationEngine.ConversationEngine.TryInTurn | core/conversation_engine.py:1570-1695 | The retry loop: each attempt goes as its prompt, its replies and its review say, and the first that asks for no other decides, after at most three |
| ConversationEngine.ConversationEngine.RejectionsDecide | core/conversation_engine.py:1535-1538 | Whatever the attempts were: a rejection of severity 4 or 5 was the last and left no line; any other, and a caught exception, was followed by another attempt unless it was the third; an exception that is not caught ends the turn |
| ConversationEngine.ConversationEngine.ApplyPostProcessing | core/conversation_engine.py:1461-1538 | The text, or what one regeneration makes of a repetition, is put to review if it repeats no recent output: an approved one is the line, a rejection of severity 4 or 5 skips the turn, and any other asks for another attempt |
| ConversationEngine.ConversationEngine.PutToReview | core/conversation_engine.py:1513-1538 | What follows from a review: the line, a skip, another attempt or an exception; a rejection is answered with the intervention of its severity |
| ConversationEngine.ConversationEngine.Regenerate | core/conversation_engine.py:1477-1511 | The text that goes to review: the content, or what one regeneration makes of a repetition, or nothing |
| ConversationEngine.ConversationEngine.AskModel | core/conversation_engine.py:1614-1628 | Tool rounds speak no line and leave nothing due; the first request forces the trigger's tool exactly if the agent has it; what comes back is what the rounds gave |
| ConversationEngine.ConversationEngine.IsRepetitive | core/conversation_engine.py:1699-1715 | Found exactly when some recent output is repeated |
| ConversationEngine.ConversationEngine.Review | core/conversation_engine.py:1513-1522 | A review leaves its line due exactly when approved |
| ConversationEngine.ConversationEngine.OneAttempt | core/conversation_engine.py:1570-1680 | One pass of the retry loop: its tool rounds from the prompt on, an empty reply, a repetition, the review, and the outcome of each |
| TurnRecord.LaterLinesHaveLaterTurns | core/conversation_engine.py:681-685 | In one conversation later lines carry later turn numbers |
| TurnRecord.SpeakingKeepsRecord | core/conversation_engine.py:528-571 | Writing a line down and speaking it keeps history and events equal |
| TurnRecord.LinesInOrder | core/conversation_engine.py:528-571 | Each line written down is in the record once, after those before it |
| TurnRecord.SpokenInOrder | core/conversation_engine.py:528-571 | Each line spoken since the conversation began is counted once, after those before it |
| TurnRecord.QuietKeepsRecord | core/conversation_engine.py:682-685 | A turn without a line changes neither |
| TurnRecord.PushKeepsNoRepeats | core/conversation_engine.py:1670-1672 | The queue of 50 never comes to hold an output that repeats an earlier one |
| TurnRecord.WithoutMessagesAllIsReviewed | README.md:32-33 | If the agents heard lack the messaging tool, every utterance comes straight after its review |
| TurnRecord.FullReviewExactlyWhen | README.md:32-33 | The rules the engine keeps guarantee full review if and only if no agent has the messaging tool |
| ToolRounds.Outside.ExecuteToolRounds | core/conversation_engine.py:1325-1459 | The transcript grows by exactly the blocks of the rounds, the totals are the sums over all replies, and the rounds end without calls or at the limit |
| ToolRounds.RoundsAreBounded | core/conversation_engine.py:1352-1452 | At most six model calls, each with a well-formed message list that extends the first, and only the first forces a tool |
| ToolRounds.LimitExceededExactlyWhen | core/conversation_engine.py:1352-1452 | Tools run in more rounds than the constant exactly when as many requests as there may be were made and the last reply still has calls |
| ToolRounds.LimitCanBeExceeded | core/tool_executor.py:31 | There are turns, with any tool, whose tools run in six rounds |
| ToolRounds.RequestsWellFormed | core/conversation_engine.py:1420-1444 | Every message list shown to the model is well formed and extends the first; only the first request of a turn forces a tool |
| ToolRounds.BlockKeepsForm | core/conversation_engine.py:1420-1444 | An assistant message followed by one result for each call, in order, keeps a list well formed |
| ToolRounds.ForcedToolIsInFirstBlock | core/conversation_engine.py:1374-1405 | A forced tool the agent has is called in the first block, whatever the model answered |
| ToolRounds.Outside.EnsureForced | core/conversation_engine.py:1374-1405 | The forced call is put in front exactly when the model left it out |
| ToolRounds.Outside.ExecuteToolCalls | core/tool_executor.py:145-181 | Each call is answered with its tool's value, with what the tool raised, or with the name of a tool that does not exist; it ends in an exception exactly if a tool is cancelled. The tools run in order, and messages go out as they run |
| ToolRounds.Outside.AppendBlock | core/conversation_engine.py:1420-1444 | The tool phase appends one block |
| ToolRounds.Outside.OneRound | core/conversation_engine.py:1352-1444 | One round: one request, and either an exception, a last reply, or one block more with its tools' results |
| ToolRounds.ResultsAnswer | core/tool_executor.py:154-181 | The results answer the calls one by one, with their ids and in order |
| ToolRounds.ResultTells | core/tool_executor.py:153-180 | The result of each call says what its tool returned or raised, or that there is no such tool |
| ToolRounds.KnownAsOften | core/tool_executor.py:154-158 | Exactly the calls of tools the agent has are run, each as often as it is called |
| ToolRounds.KnownInOrder | core/tool_executor.py:154-158 | They are run in the order of the calls |
| ToolRounds.SendsInOrder | tools/messaging.py:42-51 | Each message that goes out is heard once, with its own arguments and in order |
| ToolRounds.TotalsAreSums | core/conversation_engine.py:1333-1366 | Tokens, cost and latency of a turn are the sums over all its replies, and its text is that of the last |
| ModelConfig.ResolutionIsExact | core/model_config.py:145-262 | Resolution returns the answer of the plain chase when that meets no reference twice, and reports a cycle exactly when some reference is met again; it ends for every environment, by a lexicographic measure |
| ModelConfig.FewerSeenSameAnswer | core/model_config.py:161-166 | Shrinking `seen` never changes an answer |
| ModelConfig.AnswersAreConcrete | core/model_config.py:145-262 | Whatever is returned is a non-empty name and no reference |
| ModelConfig.RulesAreValid | core/model_config.py:265-270 | Every environment yields values that are stripped, not blank and known |
| ModelConfig.RulesAreSound | core/model_config.py:17-18 | Fallback models and plain values are concrete |
| ModelConfig.FirstSetWins | core/model_config.py:195-209 | The first candidate variable that is set wins |
| ModelConfig.NoneSet | core/model_config.py:211-220 | The configured value or the default is used exactly when no candidate is set |
| ModelConfig.AgentModelIs | core/model_config.py:223-262 | For any environment: the first of the agent's variables that is set to a model decides, the agent's own, the default of the tier, then those of the tier itself; else the configured model; else the table, else the model of the tier |
| ModelConfig.RoleModelIs | core/model_config.py:184-220 | The same for a role: its own variable, then that of its tier, then the configured model, then that of the tier |
| ModelConfig.ReferenceLeadsTo | core/model_config.py:158-183 | Where a reference leads: to a model of the agent it names or of the asker, or to a role; a repeated one is an error |
| ModelConfig.BlankLeadsTo | core/model_config.py:152-160 | A blank value stands for its default role, if there is one |
| ModelConfig.WantsOneWord | core/model_config.py:175-183 | A reference without a colon speaks of the asker's own models or of a role |
| ModelConfig.WantsModelOf | core/model_config.py:169-173 | One with an agent and a tier speaks of that agent's model |
| ModelConfig.ValueIsRead | core/model_config.py:151-160 | A value is blank, a model name, or a reference, with any space around it |
| ModelConfig.NormalizedRoleSays | core/model_config.py:273-274 | A role is read without outer space, in small letters and with underscores for hyphens |
| ModelConfig.SafeUpperEach | core/model_config.py:107-109 | In a variable's name letters stand as capitals, digits as they are, and all else as underscores |
| ModelConfig.BareAgentIsRejected | core/model_config.py:169-181 | The branch for `model:agent` is never taken |
| ModelConfig.SpuriousCycle | core/model_config.py:164-178 | Wherever a's talk is b's building model, b's building model is one's own talk, and b's talk is a model, the chain ends in that model but is reported as cyclic |
| ModelConfig.SpuriousCycleIn | core/model_config.py:164-178 | Every environment with three such variables has that cycle, whatever else is set |
| ModelConfig.DetourExists | core/model_config.py:107-109 | For any two agents with variables of their own there is an environment with exactly these three |
| ModelCycles.NeverEndsExactlyWhen | core/model_config.py:145-262 | The plain chase never ends exactly if some reference is met twice by the same asker, where the asker counts only for references to its own models |
| ModelCycles.ReportIsRightExactlyWhen | core/model_config.py:161-178 | In every environment every endless chase is reported, and a report is right exactly under that condition |
| ModelCycles.ReportsAreRight | core/model_config.py:161-178 | Where neither a variable that is set nor the starting value refers to the asker's own models, a cycle is reported if and only if the chase never ends |
| ReferenceChase.DetectionIsExact | core/model_config.py:161-169 | A chase that keeps a record of references stops exactly when the plain chase meets one again |
| ReferenceChase.ForgettingIsHarmless | core/model_config.py:161-169 | A smaller record gives the same answer |
| ReferenceChase.EndlessExactlyWhen | core/model_config.py:161-169 | Where a reference says how the chase goes on and every move descends, it never ends exactly if it meets a reference twice |
| Migrations.SchemaIsTheReplay | db/migrate.py:66-116 | After any run of `up`, failing anywhere, `down` and appended migrations, exactly a prefix of the discovered list is recorded, each under its name, and the schema is its replay in order |
| Migrations.UpKeepsStep | db/migrate.py:66-86 | `up` goes from a prefix to a longer one, succeeds exactly when it is the whole list, and else stops where the next script fails |
| Migrations.SecondUpChangesNothing | db/migrate.py:72-74 | After an `up`, whether it went through or stopped at a failure, a second one changes nothing and ends the same way |
| Migrations.DownKeepsStep | db/migrate.py:89-116 | `down` goes back by one migration or not at all |
| Migrations.LastIsLatestExactlyWhen | db/migrate.py:97 | The highest version is the one applied last, at every stage, exactly when discovery lists versions in increasing order |
| Migrations.Runner.constructor | db/migrate.py:39-46 | Starts with nothing recorded |
| Migrations.Runner.Up | db/migrate.py:66-86 | The loop applies what is pending up to the first failure |
| Migrations.Runner.Down | db/migrate.py:89-116 | Rolls back the highest version with the down script of its file, or reports what is missing or failed and changes nothing |
| MigrationFiles.AppendedIsLast | db/migrate.py:49-58 | A file of the same width with a higher number is discovered last, wherever the directory lists it and whatever else lies there |
| MigrationFiles.SameWidthIsInOrder | db/migrate.py:49-58 | With different numbers of one width every directory, in any order and with any other files, is discovered in version order and completely |
| MigrationFiles.WiderNumberComesFirst | db/migrate.py:52 | `1000_` is discovered before `999_` |
| MigrationFiles.WidthOrder | db/migrate.py:52-56 | For numbers of one width string order is value order |
| MigrationFiles.NamedIsRead | db/migrate.py:27 | A file named by digits, title and suffix is read with exactly these digits and this title |
| MigrationFiles.ReadIsNamed | db/migrate.py:27 | And only files named like that are read |
| MigrationFiles.ValueOfOneMore | db/migrate.py:55 | Another digit makes a version ten times the number, and the digit |
| AgentNeeds.TicksCompose | core/agent_needs.py:156-166 | Ticking m then n is ticking m + n in value, critical flag and critical events; the warnings differ exactly when an unflagged need passes only its warning line in the first part and its critical one in the second |
| AgentNeeds.DecayIsLinear | core/agent_needs.py:161-164 | n ticks lower a need by n times its rate, down to zero and no further; a rate of zero or less changes nothing |
| AgentNeeds.StateTicksCompose | core/agent_needs.py:156-166 | The same for every need of an agent and its `last_tick` |
| AgentNeeds.CriticalsAreLifts | core/agent_needs.py:174-191 | Over any run the critical events are as many as the effects that lifted the need strictly above its threshold, corrected by the flag at both ends |
| AgentNeeds.NoCriticalWithoutLift | core/agent_needs.py:212-227 | After a critical event none fires until such a lift |
| AgentNeeds.FlagIsTrue | core/agent_needs.py:212-227 | A flagged need is at or below its threshold; after a tick the flag says exactly that |
| AgentNeeds.RecoveryCanWarn | core/agent_needs.py:228-244 | A warning can fire on the way up |
| AgentNeeds.UpwardWarningExactlyWhen | core/agent_needs.py:17-20 | Between two ticks without a lift above the warning line, a warning fires exactly when the first tick left the need flagged as critical but not as warned and it now stands above its critical threshold; all other warnings after a tick are downward crossings |
| AgentNeeds.FirstEventExactlyWhen | core/agent_needs.py:141-146 | A new agent's first tick gives an event without a crossing exactly if the threshold is 100 or more, for a warning with the need still above its critical one |
| AgentNeeds.WarningCanBeSkipped | core/agent_needs.py:228-244 | One tick can skip a warning that two give |
| AgentNeeds.NewState | core/agent_needs.py:141-146 | A new agent has every need, full |
| AgentNeeds.NeedsManager.Tick | core/agent_needs.py:156-166 | Every need decayed and tested, the ticks counted, and the events in the order of the configuration; nothing for no ticks |
| AgentNeeds.NeedsManager.TickAll | core/agent_needs.py:168-172 | Ticks the agents one after the other and joins their events |
| AgentNeeds.ListedIsTicked | core/agent_needs.py:168-172 | An agent listed once is ticked once, from its own state, whoever is listed beside it |
| AgentNeeds.OthersStay | core/agent_needs.py:168-172 | An agent not listed keeps its state |
| AgentNeeds.NeedsManager.Decay | core/agent_needs.py:161-164 | The decay loop |
| AgentNeeds.NeedsManager.ThresholdEvents | core/agent_needs.py:212-245 | The threshold loop: flags and events |
| AgentNeeds.NeedsManager.TestThresholds | core/agent_needs.py:214-244 | At or below its critical threshold an unflagged need gives a critical event with its value and threshold; else, at or below the warning one and flagged as neither, a warning |
| AgentNeeds.EventsInOrder | core/agent_needs.py:214 | Events come in the order of the configuration |
| AgentNeeds.NeedsManager.ApplyEffect | core/agent_needs.py:174-191 | Clamped change, and flags cleared strictly above their thresholds |
| AgentNeeds.EffectSays | core/agent_needs.py:179-190 | An effect moves the value by its amount within 0 to 100; a flag stays unless the value is above its threshold |
| AgentEconomy.AgentEconomyManager.BooksBalanceExactlyWhen | core/agent_economy.py:117-263 | balance = opening + earned − spent − transferred, and = opening + signed journal, each exactly when the agent was never debited at a tie; no balance is negative |
| AgentEconomy.DebitBalancesExactlyWhen | core/agent_economy.py:134-140 | A debit keeps the account's equation exactly when its amount is not an odd multiple of 0.00005 |
| AgentEconomy.DebitRounding | db/migrations/024_agent_accounts.up.sql:4-8 | Rounding a difference is the difference of the roundings, but for one unit at a tie |
| AgentEconomy.StoredExactlyWhen | db/migrations/024_agent_accounts.up.sql:4-8 | A column takes an amount exactly if it rounds to less than a million, up or down, and stores the nearest, away from zero at a tie |
| AgentEconomy.PostingKeepsSound | core/agent_economy.py:129-153 | Writing an account and its journal row keeps the whole ledger sound |
| AgentEconomy.AgentEconomyManager.DeductCost | core/agent_economy.py:117-154 | Succeeds exactly when the balance covers it, and then balance and spent change by the amount that is journalled; otherwise nothing changes |
| AgentEconomy.AgentEconomyManager.TransferFunds | core/agent_economy.py:156-222 | Succeeds exactly when covered and the receiver exists, otherwise nothing changes; the sender's transferred and the receiver's earned go up by what is journalled; the total is conserved but for a tie, to oneself too |
| AgentEconomy.AgentEconomyManager.WeeklyAllocation | core/agent_economy.py:224-263 | Every selected agent is credited once or, on overflow, none |
| AgentEconomy.AgentEconomyManager.Pay | core/agent_economy.py:242-263 | One row of the allocation |
| AgentEconomy.AgentEconomyManager.CreateAccount | core/agent_economy.py:59-89 | An account is opened once |
| AgentEconomy.AgentEconomyManager.InitializeAccounts | core/agent_economy.py:36-57 | Every listed agent has an account; existing ones stay |
| ScopedRedis.Isolation | core/redis_keys.py:47-99 | Under any interleaving of several simulations at any times, values expiring in between, each one's part of the store, and every reply, is that of a private store |
| ScopedRedis.GlobalKeysUntouched | core/redis_keys.py:7-8 | Keys outside every simulation are untouched |
| ScopedRedis.KeyIsInjective | core/redis_keys.py:40-48 | Prefixed keys are equal only for the same simulation and raw key |
| ScopedRedis.KeyForms | core/redis_keys.py:42-48 | Keys of the live simulation begin with `live:`, those of any other with `sim:`, its id and a colon |
| ScopedRedis.ScanWithPattern | core/redis_keys.py:103-119 | A scan with a pattern covers exactly the simulation's keys whose raw form matches, and stripping inverts the prefix |
| ScopedRedis.GlobOfPlain | core/redis_keys.py:110-115 | A pattern without special characters matches itself only, and with an asterisk at its end all that begins with it |
| ScopedRedis.ScanWithoutPattern | core/redis_keys.py:110-119 | A scan without a pattern covers every key: reading what it shows leads back to what was scanned exactly when all keys are the simulation's own, and the names shown are all different exactly when no raw form of an own key is itself a foreign key |
| ScopedRedis.RedisClient.Run | core/redis_keys.py:52-99 | A command on a key leaves there what the server makes of it and nothing else changes; a deletion removes its keys and counts those that were there and had not expired |
| ScopedRedis.ScopedRedis.Run | core/redis_keys.py:52-99 | The proxy sends the prefixed command |
| ScopedRedis.ScopedRedis.Scan | core/redis_keys.py:116-119 | Prefix stripping of a page |
| ContextBuffer.TruncateBuffer | core/context_assembly.py:431-460 | For a positive budget, the suffix whose length is the larger of min(5, n) and the longest fit; else the last five |
| ContextBuffer.ChooseMessages | core/context_assembly.py:351-359 | The call site: best fit for every positive budget, truncated or not |
| ContextBuffer.BestFitExactlyWhen | core/context_assembly.py:440-441 | When the choice is the best fit for a budget that is not positive |
| ContextBuffer.OverBudgetOnlyAtMinimum | core/context_assembly.py:436-460 | The budget is exceeded only at the minimum length |
| ContextBuffer.TokensAddUp | core/context_assembly.py:427-429 | The tokens of a stretch of messages are those of its parts, down to the single message |
| SpeechParser.RenderedParsesBack | core/speech_parser.py:61-91 | Rendering clean segments and parsing them gives the same list, and the same actions in order |
| SpeechParser.TaggedReassembles | core/speech_parser.py:13 | For arbitrary text, the matched tags put back between the pieces restore it |
| SpeechParser.NothingUnsaid | core/speech_parser.py:61-91 | For arbitrary text, the segments spoken one after the other say every word outside the tags, in order |
| SpeechParser.ParsedSays | core/speech_parser.py:44-58 | `parse_speech` keeps the raw text, every word outside the tags, and the stripped inside of every tag |
| SpeechParser.ParseSpeechSegments | core/speech_parser.py:61-91 | The segments of a text, each speakable, each action stripped and not empty |
| SpeechParser.CleanPart | core/speech_parser.py:82-84 | The cleaning of a stretch of dialogue |
| SpeechParser.KeptExactlyWhen | core/speech_parser.py:82-84 | Dialogue comes through unchanged exactly when stripped, single-spaced and free of markdown |
| Segments.PartsAgree | core/speech_parser.py:52-53 | The split list agrees with what `parse_speech` extracts and removes |
| Segments.SegmentsByPart | core/speech_parser.py:80-91 | The segments are the stretches of dialogue that cleaning leaves something of, each with the action right before it |
| Segments.SegmentParts | core/speech_parser.py:80-91 | The loop with its pending action computes the segments |
| Segments.RoundTrip | core/speech_parser.py:61-91 | The round trip for any pair of literal tags and any cleaning |
| Segments.CleanedIsSpeakable | core/speech_parser.py:82-84 | Cleaned dialogue has no outer or double space and no stray mark |
| TextScan.FirstMatchIsLeftmost | core/speech_parser.py:13 | The match is the leftmost and, from there, the shortest |
| TextScan.CutOfJoined | core/speech_parser.py:13 | A tagged text is cut exactly at its tags |
| Markdown.StripMarkdown | core/speech_parser.py:28-32 | The loop over the patterns; no asterisk, underscore or outer space is left in any text |
| Markdown.KeptExactlyWhen | core/speech_parser.py:16-32 | A text is left alone exactly when it is stripped and no pattern occurs in it |
| Markdown.EachPatternCounts | core/speech_parser.py:16-25 | None of the eight patterns is left out: a text in which one occurs gets shorter |
| Markdown.LineMarksAre | core/speech_parser.py:22-23 | A header mark is one to six hashes and a space, a rule three or more marks up to the end of the line |
| Markdown.SubAllShortens | core/speech_parser.py:30-31 | The patterns shorten a text unless none occurs |
| Wording.MarkdownKeepsWords | core/speech_parser.py:28-32 | Removing markdown takes nothing but marks and space, and leaves the rest in order |

## Left out

- HTTP, WebSocket, TTS, ffmpeg, YAML loading, CLI scripts, video, YouTube and Minecraft bridging: plumbing; their outcomes are inputs.
- core/public_routes.py beyond the rate limiter, context text assembly, registries and clamped mood arithmetic: easy members only.
- SpendGovernor.OvershootBound: bounds recorded spend; a cost row that is lost after four attempts is spend the governor never sees.
- SpendGovernor.CostGovernor.IsAllowed: the simulation filter of the query is not modelled; `get_agent_spend_since` is the sum of the agent's rows.
- RateLimiter.AtMostTwicePerWindow: a grant counts at the moment of its INCR, since the answer follows without a further decision.
- TaskClaims.AtMostOneHolder: starts from the empty board; `TaskClaims.ExclusiveExactlyWhen` says for which other boards it holds.
- SharedState.SharedWorkingState.DispatchRescueTask: task titles are not modelled; no claim and no pruning depends on them.
- SharedState.SharedWorkingState.ClaimTask: one call without interruption; the branch for a vanished marker is in `TaskClaims`, where markers never vanish because nothing deletes them.
- Concurrency inside danger and settlement rewrites, economy transactions and the breaker: each method or transaction is one step.
- Management.Management.Review: the JSON of a verdict is taken as parsed, with Python truthiness (the text "false" counts as an approval); a reply that parses to something else is an exception.
- Management.BlockedKeyword: case mapping is modelled for ASCII letters.
- ConversationEngine.ConversationEngine.GenerateTurn: the prompt hint only reaches prompt assembly, which is an input here; the similarity ratio is an arbitrary test on texts of twenty characters or more.
- ConversationEngine.ConversationEngine.StartConversation: proximity, topic detection, trigger text and alliance pairs are inputs or left out.
- ConversationEngine.ConversationEngine.EndConversation: closing the record, compaction, relationships and productivity events are one possible exception.
- ConversationEngine.ConversationEngine.Run: emitting an event is atomic, and cancellation during an emit is not modelled.
- ToolRounds.Outside.ExecuteToolCalls: what a tool does beyond its result, and beyond a message sent, is not modelled.
- ModelConfig.ResolutionIsExact: the tables of roles and defaults are inputs; the public wrappers that start with an empty record are not repeated.
- Migrations.SchemaIsTheReplay: assumes that a down script that runs undoes its up script and that new migrations are appended in version order.
- MigrationFiles.SameWidthIsInOrder: digits are the ASCII ones, and a newline at the very end of a file name is not skipped.
- Migrations.Runner.Down: a down file is named by version and name, the three-digit padding of its file name is not spelled out.
- AgentNeeds.NeedsManager.Tick: configurations are fixed and name the five needs, so the error for an unknown need cannot arise; snapshots to Redis are left out.
- AgentEconomy.AgentEconomyManager.CreateAccount: opening balances are not negative; division of `Decimal` at 28 digits is exact here.
- ScopedRedis.Isolation: what Redis does to the value at a key, and when a value expires, are parameters; publish and subscribe are not scoped in the code either.
- ContextBuffer.TruncateBuffer: the kept list is built oldest first instead of reversed at the end.
- SpeechParser.RenderedParsesBack: segments after the first need an action, since two stretches of dialogue without one between them are one stretch.
- The stale-goal pruners: the Redis one and the database one keep opposite ends of the priority order (core/agent_goals.py:324-329, core/agent_goals.py:351-357), so there is no equivalence to prove.
- Floating-point rounding and NaN: floats are exact reals.
