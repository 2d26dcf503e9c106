# Task pilot: verified models of its state machines

A Dafny model of the parts of the task-pilot agent service that keep state over time, and proofs
about whole runs of them. One module stands for one component:

| module | component |
|---|---|
| `BackgroundDispatch` | the lease on one task row: starts, heartbeats, finishes, and the snapshot / compare-and-swap of recovery sweeps, under every interleaving |
| `RecoverySessions` | the same over the whole table, with the database session of each sweep: a lost race rolls it back and makes it read its other candidates again |
| `StaleWrites` | a consume of an OAuth state and a renewal of a lease, each with its read and its write apart |
| `TaskStore` | the task table, its two recovery sweeps as loops over rows, and one recovery pass |
| `PlanState`, `PlanDriver` | the plan object with its four parallel lists, and the automatic driver that moves its running step |
| `PlanSnapshots`, `PlanCache`, `Sanitization` | closing a plan, the cached latest plan beside the replay of the event log, and the redaction both go through |
| `SessionEvents`, `MessagePaging` | event numbering, mirroring, the predicted number, the resumable stream, and backward paging |
| `Compressor`, `ContextBudget` | history compression around an arbitrary summariser, and the character budget |
| `ReActLoop` | the think-act loop with its guard against repeated tool calls |
| `RateLimit`, `AuthSessions` | the sliding-window limiter, and sessions and OAuth states of the account service |

`dafny verify dfyconfig.toml` checks everything.

Components that update fields are classes whose methods are proved against specification functions;
what the service promises is then proved of those functions over all runs. Time readings, generated
tokens, model decisions, tool results, summaries and token costs are arguments, so a theorem holds for
every clock, model and tool. Where an assumption about the clock or about mirroring is needed it is a
named hypothesis, and a lemma with a concrete run shows what breaks without it.

Results that differ from what the code or its comments suggest:

* A claim or fail is safe only if plain writes raise `updated_at`; two writes in one tick let a sweep
  take a lease that has just started (`SameTickStartIsClaimedAway`).
* A lost race rolls the session back, which expires the rows it holds (SQLAlchemy expires all loaded
  instances on a rollback, whatever `expire_on_commit` says). The remaining candidates are read again
  without the status filter of the query, so a task that has completed meanwhile can be queued again
  (`LostRaceReopensFinishedTask`). Without a lost race this cannot happen (`FinalStatusIsKept`); after
  one, the lease and the attempts alone decide (`RereadWinsExactlyWhen`).
* Finishing a dispatch is not owner-checked: a worker that lost a task ends the new holder's lease
  (`StaleFinishReopensTheTask`).
* A restarted claim costs two attempts, so a limit of three allows one recovery (`RestartedClaimsCostTwo`).
* After a failed tool call or a wait for input no step runs, so no later tool success moves the automatic
  plan again until the summary (`FailureStallsThePlan`).
* The fallback of the compressor for an empty head is dead code, and an over-budget list of system
  messages makes the recursion repeat its own input; the docstring promises that it runs until the
  budget fits (`HeadIsNeverEmpty`, `EndsFittingOrStuck`). A caller can tell beforehand which calls return
  whatever the summaries say (`ReturnsExactlyWhen`).
* Truncating twice differs from truncating once only for limits of one to three, and then exactly when
  the cut leaves a blank at the end (`TruncateTwice`).
* One task event left unmirrored makes the stream send it twice and skip another
  (`UnmirroredEventBreaksDelivery`); delivery holds exactly while no poll reaches such an event
  (`DeliveredExactlyWhen`).
* Consuming a state and renewing a lease write without comparing versions, so requests that overlap can
  both consume one state, and a renewal that read the row before a claim takes the dispatch back; the
  exact conditions are `SecondConsumeSucceedsExactlyWhen` and `LostDispatchComesBackExactlyWhen`.
* Beyond the query limit every call that closes a plan adds another event (`SynchroniseTwice`).

## Model

| member | source | states |
|---|---|---|
| BackgroundDispatch.SnapshotsStayConsistent | task-pilot-agent/brain/core/tasks.py:689-857 | in every interleaving of all writers whose plain writes raise `updated_at`, a snapshot with the version of the row is the row |
| BackgroundDispatch.CommitIsSafe | task-pilot-agent/brain/core/tasks.py:726-763 | every commit replaces the very row it last read: no lease later than its timestamp is broken, other metadata is kept, the version rises, the attempt grows by one for a claim only |
| BackgroundDispatch.WritesHideSnapshotExactlyWhen | task-pilot-agent/brain/core/tasks.py:745-750 | after any run of plain writes a commit still passes exactly when none changed the row or the last one that did has the version of the snapshot |
| BackgroundDispatch.SameTickStartIsClaimedAway | task-pilot-agent/brain/core/tasks.py:550-587 | a run that violates the clock assumption and loses a live lease |
| BackgroundDispatch.AttemptsAreConserved | task-pilot-agent/brain/core/tasks.py:570-582 | the final attempt is the first one plus the successful claims plus the dispatch starts: no increment is lost |
| BackgroundDispatch.CommitsFormOneChain | task-pilot-agent/brain/core/tasks.py:736-763 | between sweeps alone, with no assumption on clocks, the committed versions form one strictly rising chain from the first row version to the last |
| BackgroundDispatch.ChainConsumesOnce | task-pilot-agent/brain/core/tasks.py:824-857 | in such a chain no version is consumed by two commits |
| BackgroundDispatch.SweepsLoseNoClaim | task-pilot-agent/brain/core/tasks.py:737-744 | between sweeps alone, with no assumption on clocks, attempts grow by exactly the claims that committed |
| BackgroundDispatch.LostDispatchIsNeverRenewed | task-pilot-agent/brain/core/tasks.py:639-687 | once another owner holds the dispatch this owner cannot renew it, over any run in which it neither starts nor sweeps the task |
| StaleWrites.LostDispatchComesBackExactlyWhen | task-pilot-agent/brain/core/tasks.py:639-687 | with the read and the write of a renewal apart, an owner that lost the dispatch can have it back, without starting or sweeping, exactly when one of its renewals had read the row before and is not saved yet |
| StaleWrites.RenewAtOnce | task-pilot-agent/brain/core/tasks.py:639-687 | read and saved at once, the divided renewal is the whole transaction |
| BackgroundDispatch.LiveLeaseSurvives | task-pilot-agent/brain/core/tasks.py:721-727 | over any run without a start, a finish, a shortening renewal or a sweep by a clock that is ahead, a live lease, its owner and its attempt stay |
| BackgroundDispatch.GrantedLeaseIsHeld | task-pilot-agent/brain/core/tasks.py:550-763 | from a start, an allowed renewal or a claim on, after any such run, its owner holds a live lease at every time before the end it was given |
| BackgroundDispatch.FinalIsAbsorbing | task-pilot-agent/brain/core/tasks.py:521-687 | in every rising run without rereads, a final status, its end time and its error change by a status update only |
| BackgroundDispatch.FailedTaskStaysFailed | task-pilot-agent/brain/core/tasks.py:824-857 | a task failed by recovery stays failed with its reason and end time over every such run |
| BackgroundDispatch.StaleFinishReopensTheTask | task-pilot-agent/brain/core/tasks.py:595-637 | after a finish by anyone, a claim sweep selects an unfinished task exactly when attempts are left, while the owner entry still names the holder |
| BackgroundDispatch.TaskTimesAreKept | task-pilot-agent/brain/core/tasks.py:482-548 | in every run the first start time never changes, and a task in a final status has an end time |
| BackgroundDispatch.ColumnsHoldLastWrites | task-pilot-agent/brain/core/tasks.py:482-687 | over any run of plain writes the status is the last one set, or running from the last start of a task not final then; the error, the other metadata, the first start, the last end and the dispatch error are likewise those of their last writers |
| BackgroundDispatch.StartedTaskRuns | task-pilot-agent/brain/core/tasks.py:521-548 | after any run of plain writes that leaves the task not final, a start makes it running at that time and gives it a start time if it has none |
| BackgroundDispatch.FinishIsRecorded | task-pilot-agent/brain/core/tasks.py:595-637 | a finish after any such run leaves the dispatch under the given status, or under that of the task, with the last error, no lease and the owner it had |
| BackgroundDispatch.FinishedDispatchIsNotRenewed | task-pilot-agent/brain/core/tasks.py:639-687 | a dispatch that is over stays as it is over any run of plain writes without a start or a finish, whoever tries to renew it |
| BackgroundDispatch.LeaseLastsExactly | task-pilot-agent/brain/core/tasks.py:550-687 | a start, or a renewal by the owner of an active dispatch of an unfinished task, is held exactly for the time asked for, at least one millisecond |
| BackgroundDispatch.SelectsExactlyWhen | task-pilot-agent/brain/core/tasks.py:700-735 | a sweep takes a listed task exactly when its lease is over and its attempts are below the limit, or for a fail have reached it, a limit below one counting as one |
| BackgroundDispatch.CommitLeaves | task-pilot-agent/brain/core/tasks.py:736-857 | a claim requeues the task under a fresh lease that records the status it had; a fail ends it for the stated reason and frees it; both at the later of their own time and the next version |
| BackgroundDispatch.ClaimsAreBounded | task-pilot-agent/brain/core/tasks.py:700-735 | over any interleaving of workers with one limit, a task is claimed at most as often as attempts were left |
| BackgroundDispatch.ExhaustedIsNeverClaimed | task-pilot-agent/brain/core/tasks.py:817-822 | a task at its limit is never claimed again |
| BackgroundDispatch.AttemptOvershoot | task-pilot-agent/brain/core/tasks.py:576-582 | the attempt exceeds the limit at most by the starts since the last claim |
| BackgroundDispatch.RestartedClaimsCostTwo | task-pilot-agent/brain/core/task_recovery.py:98-125 | when each claim is restarted before the next, twice the claims fit into the attempts left plus one |
| RecoverySessions.TableRefinesProtocol | task-pilot-agent/brain/core/tasks.py:706-773 | every run of the whole table, with its sessions and lost races, is on each row a run of the one-row protocol under the same clock assumption |
| RecoverySessions.WinIsSafe | task-pilot-agent/brain/core/tasks.py:714-763 | over every rising interleaving on the table, a commit replaces the very row its session last read, breaks no live lease and touches no other row |
| RecoverySessions.FinalStatusIsKept | task-pilot-agent/brain/core/tasks.py:706-763 | as long as a sweep has lost no race, its commits take queued and running tasks only |
| RecoverySessions.SweepHoldsExactly | task-pilot-agent/brain/core/tasks.py:706-713 | an opening sweep holds exactly the queued and running rows its query found, as they are |
| RecoverySessions.TrySettlesOne | task-pilot-agent/brain/core/tasks.py:714-763 | a try commits a wanted candidate whose version stands, loses the race exactly for a wanted one whose version has moved, and skips the rest without a rollback; other rows, other sessions and, unless lost, other candidates stay |
| RecoverySessions.RereadWinsExactlyWhen | task-pilot-agent/brain/core/tasks.py:714-763 | in every run, a candidate read again commits exactly when its lease is over and its attempts allow it, whatever its status has become; only a session that lost a race has one |
| RecoverySessions.LostRaceDecides | task-pilot-agent/brain/core/tasks.py:714-763 | after a lost race in any run, each other candidate of the session commits next exactly when lease and attempts allow it; no row has changed |
| RecoverySessions.LostRaceReopensFinishedTask | task-pilot-agent/brain/core/tasks.py:714-763 | a run with two tasks: the sweep loses the race for the first, and queues the second again after it completed |
| RecoverySessions.ClaimsOfATaskAreBounded | task-pilot-agent/brain/core/tasks.py:700-735 | on the table too, lost races included, a task is claimed at most as often as attempts were left |
| TaskStore.TaskStore.WriteRow | task-pilot-agent/brain/core/tasks.py:482-548 | a plain transaction changes its own row as specified and no other; a missing task changes nothing |
| TaskStore.TaskStore.QueryRecoverable | task-pilot-agent/brain/core/tasks.py:707-713 | the answer of the recovery query: queued and running rows, by `updated_at` then id, the earliest ones if the bound cuts |
| TaskStore.QueryIsOrdered | task-pilot-agent/brain/core/tasks.py:707-713 | the answer holds queued and running rows, those with the oldest `updated_at` first and ties by id, and a cut leaves out later ones only |
| TaskStore.TaskStore.RunSweep | task-pilot-agent/brain/core/tasks.py:689-872 | an undisturbed sweep commits the selected candidates in query order, as many as there are up to its limit, which is 1 below one, 500 above that and otherwise the number given, and leaves every other row |
| TaskStore.TaskStore.CommitCandidates | task-pilot-agent/brain/core/tasks.py:714-773 | the loop of a sweep takes a prefix of the selected candidates and rewrites exactly those rows |
| TaskStore.SweepTakesAll | task-pilot-agent/brain/core/tasks.py:699-716 | with no more eligible rows than the limit a sweep takes exactly the selected ones |
| TaskStore.RestartAll | task-pilot-agent/brain/app.py:145-180 | restarting the claimed tasks starts each dispatch once, at its own time, and touches no other row |
| TaskStore.RecoverBackgroundTasks | task-pilot-agent/brain/core/task_recovery.py:45-139 | on a quiet table, with a limit of 1 to 500 that is not below the number of recoverable tasks, one pass fails exactly the exhausted tasks, restarts exactly the other ones without a lease, and leaves all other rows |
| TaskStore.ClaimedMeanwhile | task-pilot-agent/brain/core/task_recovery.py:82-100 | between its claim and its restart a task is held by the sweep for exactly the lease asked for |
| TaskStore.RecoveryIsTotal | task-pilot-agent/brain/core/task_recovery.py:56-100 | row by row: a queued or running task without a live lease ends failed exactly when its attempts are used up, and otherwise runs under the runner with a fresh lease of five minutes and two attempts more; a lease that ends between the two sweeps leaves an exhausted task alone and any other restarted; all other rows stay |
| PlanState.PlanState.Update | task-pilot-agent/brain/core/tools/plan_state.py:26-47 | a new step list keeps status, note and evidence of the positions whose step stays, and resets the others |
| PlanState.PlanState.MarkStep | task-pilot-agent/brain/core/tools/plan_state.py:49-65 | marks exactly the named step, or changes nothing where the source raises |
| PlanState.PlanState.AddStep | task-pilot-agent/brain/core/tools/plan_state.py:67-86 | inserts one entry at the same clamped place into all four lists, with the entries before it in place and the later ones moved by one, or rejects a blank step |
| PlanState.PlanState.SkipStep | task-pilot-agent/brain/core/tools/plan_state.py:88-100 | a skip is a mark with a default note |
| PlanState.PlanState.SyncLengths | task-pilot-agent/brain/core/tools/plan_state.py:105-118 | afterwards the four lists have one length, padded or cut at the end |
| PlanDriver.DriverIsDisciplined | task-pilot-agent/brain/core/agents/ReActAgentImp.py:353-428 | over any sequence of tool results, waits, skips and appended steps at most one step runs and it precedes every step not started |
| PlanDriver.AutomaticPlanIsDisciplined | task-pilot-agent/brain/core/handlers/react.py:205-251 | so it is from the automatically created plan on, and the summary phase then leaves nothing running |
| PlanDriver.SummaryIdlesExactlyWhen | task-pilot-agent/brain/core/handlers/react.py:111-176 | from any statuses, the summary phase leaves nothing running exactly when at most one step ran and no step not started preceded it |
| PlanDriver.SettledStepsStay | task-pilot-agent/brain/core/agents/ReActAgentImp.py:353-428 | a finished, failed or waiting step changes only by an explicit skip of it |
| PlanDriver.SkipsAndAppends | task-pilot-agent/brain/core/tools/plan_state.py:67-100 | a skip changes the named step and no other; an appended step comes last and is not started |
| PlanDriver.SuccessesAdvance | task-pilot-agent/brain/core/agents/ReActAgentImp.py:366-404 | n successes complete exactly the first n steps of the automatic plan and leave the next one running |
| PlanDriver.FailureStallsThePlan | task-pilot-agent/brain/core/agents/ReActAgentImp.py:366-404 | after a failed tool or a wait no later tool result or wait moves the plan again |
| PlanDriver.SummaryStepCloses | task-pilot-agent/brain/core/handlers/react.py:154-176 | the step of the summary ends completed or failed as the summary did, and there is none exactly when every step is settled |
| PlanDriver.SyncPlanStepFromToolResult | task-pilot-agent/brain/core/agents/ReActAgentImp.py:353-428 | one tool result closes the running step and, on success, starts the first step not started |
| PlanDriver.SyncRunningPlanStep | task-pilot-agent/brain/core/tools/builtin_request_input_tool.py:84-117 | a request for input parks the running step |
| PlanDriver.SummaryPhase | task-pilot-agent/brain/core/handlers/react.py:111-176 | the two halves of the summary phase as one change of the plan object |
| Sanitization.SanitizeTwice | task-pilot-agent/brain/core/sanitization.py:28-44 | redacting a payload twice is redacting it once, if redacting a text is |
| Sanitization.SensitiveExactlyWhen | task-pilot-agent/brain/core/sanitization.py:8-34 | a key is sensitive exactly when one of seven words stands in it somewhere, in any case |
| Sanitization.SanitizeRedacts | task-pilot-agent/brain/core/sanitization.py:28-44 | at every depth a key that names a secret gets three stars, every text is redacted, and keys, order and all other leaves stay |
| PlanSnapshots.ClosedPlanIsSettled | task-pilot-agent/brain/core/plan_snapshots.py:59-95 | a plan closed as failed or cancelled runs nothing, keeps every completed step and shows a failed or cancelled step unless all are completed |
| PlanSnapshots.CompletedClosesAll | task-pilot-agent/brain/core/plan_snapshots.py:80-82 | a plan closed as completed has every step completed |
| PlanSnapshots.TerminalPlanStamps | task-pilot-agent/brain/core/plan_snapshots.py:64-75 | the closed payload names the closing status in three fields, its event type and the reason, and every field but these and `step_status` is as before |
| PlanSnapshots.PlanIsFound | task-pilot-agent/brain/core/plan_snapshots.py:15-26 | a plan put into a payload is found: under its own name first, inside the result next |
| PlanSnapshots.PayloadIsPlanExactlyWhen | task-pilot-agent/brain/core/plan_snapshots.py:24-26 | a payload with no plan inside is a plan itself exactly when it names steps or their statuses |
| PlanSnapshots.ClosingIsStable | task-pilot-agent/brain/core/plan_snapshots.py:76-95 | closing a status list again, with either status, leaves it |
| PlanSnapshots.ClosingPayloadIsStable | task-pilot-agent/brain/core/plan_snapshots.py:59-95 | closing a closed payload again, with either status and any reason, leaves its `step_status` field, if every given value has a text |
| PlanSnapshots.TerminalStepStatus | task-pilot-agent/brain/core/plan_snapshots.py:76-95 | the loops over the status list compute the closed statuses |
| PlanSnapshots.TerminalPlanStatuses | task-pilot-agent/brain/core/plan_snapshots.py:59-95 | the closed payload keeps its steps and carries one status a step, that of the closed list; without steps its statuses stay, or become the empty list when it completes |
| PlanSnapshots.StatusIsNamed | task-pilot-agent/brain/core/plan_snapshots.py:74-95 | each status has its own name in a payload |
| PlanCache.CacheAgreesWithReplay | task-pilot-agent/brain/core/tasks.py:157-173 | after any run of event and metadata writes the cached plan and event type are the fold of the whole log, and of the replayed log within the query limit |
| PlanCache.CacheMirrorsLog | task-pilot-agent/brain/core/tasks.py:1026-1068 | the invariant behind it, kept by every writer: the cached entries are sanitized already and those of the last plan event |
| PlanCache.LatestPlanPayload | task-pilot-agent/brain/core/session_view_service.py:364-376 | the loop returns the last event that carries a plan |
| PlanCache.ClosingPayloadSays | task-pilot-agent/brain/core/session_view_service.py:379-412 | the closing event names its type and reason and carries the closed plan |
| PlanCache.SynchroniseTwice | task-pilot-agent/brain/core/session_view_service.py:379-412 | closing twice with one status adds at most one event exactly while the query sees the end of the log |
| PlanCache.TaskRecord.RecordEvent | task-pilot-agent/brain/core/tasks.py:1026-1068 | an event is appended sanitized and the cache follows it |
| PlanCache.TaskRecord.SyncPlanTerminalStatus | task-pilot-agent/brain/core/session_view_service.py:379-412 | at most one closing event is added |
| SessionEvents.NumbersAreGapFree | task-pilot-agent/brain/core/sessions.py:782-840 | when no caller supplies numbers each event id is stored once and the log is numbered 1 to n in insertion order |
| SessionEvents.NumberGiven | task-pilot-agent/brain/core/sessions.py:782-840 | a number a caller gives is kept, raised to one at least |
| SessionEvents.NumberChosen | task-pilot-agent/brain/core/sessions.py:782-840 | without one the new event gets a number above all others of the log, at its end |
| SessionEvents.EverySessionIsNumbered | task-pilot-agent/brain/core/sessions.py:782-845 | in every run of calls without supplied numbers, over any sessions and with ids shared between them, each session's log is numbered 1 to n and holds no id twice |
| SessionEvents.PredictionIsExact | task-pilot-agent/brain/core/session_view_service.py:595-625 | the number stamped on live output is the one the store assigns exactly when every task event so far is in the log |
| SessionEvents.DeliveredOnceInOrder | task-pilot-agent/brain/app.py:1924-1983 | in every interleaving of writes and polls, all mirrored, what was sent followed by what the cursor has still to read is the log after `afterSeq` |
| SessionEvents.PollDrainsExactlyWhen | task-pilot-agent/brain/app.py:1941-1962 | a poll has sent everything so far exactly when what remained fits one page |
| SessionEvents.DeliveredExactlyWhen | task-pilot-agent/brain/core/session_view_service.py:524-592 | over every run, mirrored or not, delivery is exactly once and in order at every moment exactly when no poll reaches an unmirrored event |
| SessionEvents.PollKeepsStepExactlyWhen | task-pilot-agent/brain/app.py:1941-1962 | a poll keeps the stream on the log exactly when nothing is unmirrored, the page fills before it gets there, or the cursor is past it |
| SessionEvents.InFlightEventIsDelivered | task-pilot-agent/brain/core/tasks.py:1026-1094 | polls between the two transactions of one event do no harm if its mirror is the next event stored: it gets the number it was sent under |
| SessionEvents.OvertakenEventIsDeliveredExactlyWhen | task-pilot-agent/brain/core/tasks.py:1026-1094 | if another event is stored between the two transactions, delivery is whole in the end exactly when no poll in between had reached the event in flight |
| SessionEvents.UnmirroredEventBreaksDelivery | task-pilot-agent/brain/core/session_view_service.py:542-550 | a run with one unmirrored event that is sent twice while another is never sent |
| SessionEvents.SessionStore.AddRunEvent | task-pilot-agent/brain/core/sessions.py:782-845 | an event id is stored once over all sessions, at the end of its session, and no other session changes |
| SessionEvents.CollectSessionEvents | task-pilot-agent/brain/core/session_view_service.py:524-592 | the page and its flag are the slice at the offset of the merged log, filtered and cut at the cursor |
| SessionEvents.SliceAt | task-pilot-agent/brain/core/session_view_service.py:524-592 | a page at an offset holds the items from there on, in order, as many as the limit allows |
| SessionEvents.VisibleIsFirst | task-pilot-agent/brain/core/session_view_service.py:532-542 | readers see the first ten thousand stored events |
| SessionEvents.CollectedIsNumbered | task-pilot-agent/brain/core/session_view_service.py:537-554 | the merged list is the log followed by the unmirrored events, numbered without gaps, so the sort leaves it |
| SessionEvents.SendPage | task-pilot-agent/brain/app.py:1941-1962 | one turn of the stream sends the page and moves the cursor past it |
| MessagePaging.PagesBack | task-pilot-agent/brain/core/sessions.py:494-545 | following `before` back until `hasMore` is false yields every earlier message once and in order, all pages but the last full |
| MessagePaging.PageBeforeMessage | task-pilot-agent/brain/app.py:1826-1842 | a page is the stretch just before its message, and `hasMore` holds exactly when that stretch starts later than the history |
| MessagePaging.PageForward | task-pilot-agent/brain/core/sessions.py:494-545 | a page forward holds the messages from the offset on, in order, as many as the limit allows |
| MessagePaging.PageBackward | task-pilot-agent/brain/core/sessions.py:494-578 | a page backward at an offset is the stretch that ends that many messages before the given one |
| MessagePaging.UnknownMessage | task-pilot-agent/brain/core/sessions.py:494-578 | an unknown `before` yields an empty page and no more |
| MessagePaging.ArrivalsDoNotDisturb | task-pilot-agent/brain/core/sessions.py:494-578 | messages that arrive later never change a page behind `before` nor its flag |
| MessagePaging.HasMoreForward | task-pilot-agent/brain/core/sessions.py:547-578 | without `before` the flag tells exactly whether messages remain past the page |
| Compressor.HistoryIsConserved | task-pilot-agent/llm/compressor.py:36-84 | over all levels, for any summariser, the summarised heads and the final tail are the original non-system messages in order, and the result is the original system messages, the summaries, the tail |
| Compressor.SummariesStandForHeads | task-pilot-agent/llm/compressor.py:65-84 | in the result the i-th message after the system messages is what the summariser made of exactly the i-th head, behind the prefix |
| Compressor.TailIsLongest | task-pilot-agent/llm/compressor.py:42-53 | the kept tail is exactly the longest suffix that fits beside the system messages |
| Compressor.HeadIsNeverEmpty | task-pilot-agent/llm/compressor.py:54-63 | over budget with a non-system message the head is not empty, so the fallback never runs |
| Compressor.LevelShrinks | task-pilot-agent/llm/compressor.py:65-83 | every level hands on strictly fewer non-system messages |
| Compressor.EndsFittingOrStuck | task-pilot-agent/llm/compressor.py:80-84 | every run ends within budget or with one message, or reaches an over-budget list of several system messages and repeats it for ever; it uses at most one summary a message |
| Compressor.ReturnsExactlyWhen | task-pilot-agent/llm/compressor.py:33-84 | the exact condition on the input: a call returns whatever the summaries say exactly when it is not over budget, has one message, or has no system message and a newest message over budget alone |
| Compressor.SafeCallReturns | task-pilot-agent/llm/compressor.py:33-84 | such a call returns, for every summariser |
| Compressor.RiskyCallSticks | task-pilot-agent/llm/compressor.py:65-84 | any other call never returns when each summary is over budget alone |
| Compressor.EndlessCall | task-pilot-agent/llm/compressor.py:65-84 | two short messages, a budget and a summariser with which the call never returns |
| Compressor.OversizedSystemAlwaysSticks | task-pilot-agent/llm/compressor.py:80-84 | system messages over budget on their own make every such call endless, whatever the summaries |
| Compressor.ShortSummariesReturn | task-pilot-agent/llm/compressor.py:65-84 | with room for a bounded summary per message the call returns |
| Compressor.CompressMessages | task-pilot-agent/llm/compressor.py:19-84 | the loop and recursion compute the specified result |
| Compressor.KeepTail | task-pilot-agent/llm/compressor.py:39-53 | the loop over the reversed messages splits them where the longest fitting tail starts |
| Compressor.EstimateTokens | task-pilot-agent/llm/tokenizer.py:29-36 | the cost is additive: the text costs plus four a message |
| Compressor.OneMessageCosts | task-pilot-agent/llm/tokenizer.py:29-36 | one message costs its text and four |
| ContextBudget.FitIsWithinBudget | task-pilot-agent/brain/core/context_budget.py:48-79 | the kept characters never exceed the capped budget |
| ContextBudget.FitIsGreedySuffix | task-pilot-agent/brain/core/context_budget.py:48-79 | the result is a suffix with at most one shortened message before it, and keeps verbatim exactly the messages the budget reaches |
| ContextBudget.NewestIsKept | task-pilot-agent/brain/core/context_budget.py:56-79 | the newest message is kept as it is exactly when it fits a positive budget |
| ContextBudget.FitMessagesToCharBudget | task-pilot-agent/brain/core/context_budget.py:48-79 | the loop from the newest message computes the specified fit |
| ContextBudget.NormalizeIsNormal | task-pilot-agent/brain/core/context_budget.py:13-15 | a normalized text has single blanks only, inside only, and normalizing it again changes nothing |
| ContextBudget.SpacesAre | task-pilot-agent/brain/core/context_budget.py:13-15 | white space is 29 code points, those that splitting and stripping a text treat so |
| ContextBudget.StripExactly | task-pilot-agent/brain/core/context_budget.py:13-15 | stripping keeps exactly the stretch from the first to the last character that is not white space |
| ContextBudget.WordsAreRuns | task-pilot-agent/brain/core/context_budget.py:13-15 | splitting yields exactly the runs of other characters: a text is its words woven between stretches of white space, of which only the outer two may be empty |
| ContextBudget.TruncateWithinLimit | task-pilot-agent/brain/core/context_budget.py:18-29 | a truncated text is never longer than its limit, and a text within it is only normalized |
| ContextBudget.TruncateIsPrefix | task-pilot-agent/brain/core/context_budget.py:18-29 | a text that is too long has exactly the length of the limit: its first characters, from four on with three dots at the end |
| ContextBudget.ClipKeepsRole | task-pilot-agent/brain/core/context_budget.py:68-77 | a clipped message keeps its role and has the truncated text, unless that is empty |
| ContextBudget.TruncateTwice | task-pilot-agent/brain/core/context_budget.py:18-29 | truncating twice is truncating once exactly outside the limits of one to three whose cut leaves a trailing blank |
| ContextBudget.TruncateTwiceFails | task-pilot-agent/brain/core/context_budget.py:18-29 | the witness: "a b" at two characters becomes "a " and then "a" |
| ReActLoop.ReActAgent.Run | task-pilot-agent/brain/core/agents/base_agent.py:48-66 | against any model and tools a run takes one step after another, one recorded call each, until the model gives no decision, or concludes, reuses, fails or waits, with the state and answer of that turn, or until `maxSteps` calls are made; no guarded call is made whose key already has a reusable observation |
| ReActLoop.ReActAgent.Act | task-pilot-agent/brain/core/agents/ReActAgentImp.py:77-165 | one decision concludes, is refused, reuses a result, stops for an approval or makes one recorded call, each with its state |
| ReActLoop.FindPreviousSuccessfulToolCall | task-pilot-agent/brain/core/agents/ReActAgentImp.py:444-459 | finds the newest reusable item of the same call exactly when a guarded duplicate exists |
| ReActLoop.FinishingExactlyWhen | task-pilot-agent/brain/core/agents/ReActAgentImp.py:93 | a decision concludes exactly when its action is empty or one of six words, in any case |
| ReActLoop.GuardedExactlyWhen | task-pilot-agent/brain/core/agents/ReActAgentImp.py:461-464 | a tool is guarded exactly when one of seven tokens stands in its name, in any case and with a dash or a colon for an underscore |
| ReActLoop.ReusableExactlyWhen | task-pilot-agent/brain/core/agents/ReActAgentImp.py:470-476 | an observation is reusable exactly when it is not blank and none of five markers stands in it, in any case |
| ReActLoop.KeyTellsArguments | task-pilot-agent/brain/core/agents/ReActAgentImp.py:466-467 | calls of one tool have one key exactly when their arguments are one text |
| ReActLoop.CallIsGuarded | task-pilot-agent/brain/core/agents/ReActAgentImp.py:126-152 | a turn never adds a guarded call whose key has a reusable observation |
| ReActLoop.FailedCallMayBeRepeated | task-pilot-agent/brain/core/agents/ReActAgentImp.py:324-351 | the observation left by a call that raised is never reusable, whatever the message |
| RateLimit.WindowBound | task-pilot-agent/auth/rate_limit.py:19-27 | with a clock that does not run back every window of every key holds at most `max_attempts` accepted calls, over every run |
| RateLimit.RejectedExactlyWhenFull | task-pilot-agent/auth/rate_limit.py:19-27 | a call is rejected exactly when the window ending at it already holds that many |
| RateLimit.BucketsAreIndependent | task-pilot-agent/auth/rate_limit.py:19-27 | calls under other keys change neither state nor answers of a key |
| RateLimit.KeysAreIndependent | task-pilot-agent/auth/rate_limit.py:19-27 | the answer to a call depends on the earlier calls with the same key alone |
| RateLimit.BackwardClockBreaksTheBound | task-pilot-agent/auth/rate_limit.py:20-27 | a run with one step back in time that has three calls in a window of two |
| RateLimit.InMemoryRateLimiter.Check | task-pilot-agent/auth/rate_limit.py:19-27 | prunes the bucket, then accepts and records or rejects |
| AuthSessions.AuthenticatesExactlyWhen | task-pilot-agent/auth/service.py:230-291 | over every run, a session authenticates its owner exactly until it expires or the first revoke, disable, delete or covering cleanup; reactivating the owner does not bring it back |
| AuthSessions.RunsStaySound | task-pilot-agent/auth/service.py:192-228 | in every run each session has an owner and the owner of an unrevoked session is active |
| AuthSessions.LoginLasts | task-pilot-agent/auth/service.py:192-253 | after a successful login the token authenticates its user exactly within the lifetime and before the first ending operation |
| AuthSessions.LoginSucceedsExactlyWhen | task-pilot-agent/auth/service.py:192-228 | in every run a login succeeds exactly for a user who is active then, with a fresh token; otherwise it says which is wrong |
| AuthSessions.RegistersExactlyOnce | task-pilot-agent/auth/service.py:379-417 | a registration succeeds exactly for a user who is not there |
| AuthSessions.EndIsRecorded | task-pilot-agent/auth/service.py:255-291 | over every run the time of the first operation that revoked a session stays on record |
| AuthSessions.UsersFollowTheRun | task-pilot-agent/auth/service.py:379-656 | in every run the status of a user is the one the last operation on that user gave |
| AuthSessions.ConsumedAtMostOnce | task-pilot-agent/auth/service.py:330-367 | in every run two consumes of one issued state never both succeed |
| AuthSessions.ConsumeSucceedsExactlyWhen | task-pilot-agent/auth/service.py:330-367 | a consume succeeds exactly when its ticket fits in time and nothing used or cleaned the state before |
| AuthSessions.ConsumeTellsWhy | task-pilot-agent/auth/service.py:346-357 | a refused consume names the first thing wrong: unknown state, other provider, other purpose, consumed, expired, other nonce |
| AuthSessions.ConsumeIsRecorded | task-pilot-agent/auth/service.py:358-360 | over every run the time of the consume stays on record and the rest of the state is as issued |
| AuthSessions.SameProviderExactly | task-pilot-agent/auth/providers/base.py:71-72 | provider names agree exactly when, without outer white space, they have one length and equal characters up to ASCII case and a dash for an underscore |
| AuthSessions.IssuedStateIsRedeemed | task-pilot-agent/auth/service.py:293-367 | after an issue, a consume succeeds exactly when its ticket carries the issued nonce, the same provider up to spelling and the purpose or none, in time, and no fitting one or late cleanup came before |
| StaleWrites.SecondConsumeSucceedsExactlyWhen | task-pilot-agent/auth/service.py:330-367 | with reads and writes of requests interleaved, a second consume of one state succeeds exactly when it had passed its checks before the first one saved |
| StaleWrites.ConsumedOnceOneAtATime | task-pilot-agent/auth/service.py:330-367 | if requests check and save one at a time a state is consumed at most once, whatever is deleted meanwhile |
| StaleWrites.TwoOverlappingConsumes | task-pilot-agent/auth/service.py:340-358 | two overlapping requests with one fitting ticket both succeed |
| StaleWrites.PassesAsConsume | task-pilot-agent/auth/service.py:340-357 | the checks of the divided transaction pass exactly when the whole one would raise nothing |
| AuthSessions.CleanupIsInvisible | task-pilot-agent/auth/service.py:828-863 | two runs that differ only in where cleanups stand, with rising clocks and fresh tokens, give the same authentications and the same consume successes |
| AuthSessions.EarlyCleanupLogsOut | task-pilot-agent/auth/service.py:828-843 | a cleanup with a time of its own changes an authentication exactly for the sessions that expire by that time |
| AuthSessions.AuthService.CreateSession | task-pilot-agent/auth/service.py:192-228 | a session is added for an existing user who may log in, with the given or default lifetime, and otherwise nothing changes |
| AuthSessions.AuthService.GetUserBySessionToken | task-pilot-agent/auth/service.py:230-253 | the checks decide authentication |
| AuthSessions.AuthService.RevokeSession | task-pilot-agent/auth/service.py:255-274 | revokes the session of the token, once |
| AuthSessions.AuthService.RevokeAllSessions | task-pilot-agent/auth/service.py:276-291 | revokes exactly the unrevoked sessions of the user and counts them |
| AuthSessions.AuthService.DisableUser | task-pilot-agent/auth/service.py:608-628 | disables an existing user and revokes every session of that user |
| AuthSessions.AuthService.SoftDeleteUser | task-pilot-agent/auth/service.py:630-656 | likewise for a deletion |
| AuthSessions.AuthService.EnsureDevUser | task-pilot-agent/auth/service.py:484-518 | the user exists and is active afterwards; no session changes |
| AuthSessions.AuthService.CreateUser | task-pilot-agent/auth/service.py:379-417 | a new user is active; an existing one is a conflict that changes nothing |
| AuthSessions.AuthService.CreateOAuthState | task-pilot-agent/auth/service.py:293-328 | the state is stored with its nonce, canonical provider, purpose and end |
| AuthSessions.AuthService.ConsumeOAuthState | task-pilot-agent/auth/service.py:330-367 | the checks in their order, then the state is marked consumed |
| AuthSessions.AuthService.CleanupExpiredSessions | task-pilot-agent/auth/service.py:828-843 | removes exactly the expired sessions |
| AuthSessions.AuthService.CleanupExpiredOAuthStates | task-pilot-agent/auth/service.py:845-863 | removes exactly the expired or consumed states |

## Left out

General

- FastAPI routes, server-sent events, WebSockets, HTTP clients, model and OAuth adapters, file workspaces: plumbing without an invariant of its own.
- SQLAlchemy and JSON encoding: tables are maps and sequences of rows, and a value read back is the value written.
- Interleavings inside one transaction: each store method is one atomic step, except recovery sweeps (reads and commits), the addition of a task event (its mirror is a second transaction: a `TaskEvent` left unmirrored, then a `DirectEvent` of the same id), and a consume or a renewal in `StaleWrites`. What a database's isolation level forbids is not modelled, nor are other lost updates between two plain writers.

Background dispatch

- The audit stamps `renewedAt`, `finishedAt`, `failedAt` and `maxAttempts`, `output_text`, and recorded recovery events.
- Redaction of the dispatch entry and of the other metadata on a dispatch write: `rest` stands for it unchanged.
- `InProcessTaskRunner` with its registry and heartbeat task: its callbacks appear as the steps that start, renew and finish a dispatch.
- Deletion and creation of tasks during a run.

Plans and events

- The regexes that redact a text: an arbitrary idempotent function, assumed to leave the plan event types alone.
- Unicode case folding: lower-casing acts on ASCII letters. Tuples in payloads.
- The wording of notes and evidence that the driver writes, and arbitrary marks or mid-list insertions by a model: the driver invariant does not hold of them.
- The aliasing of the lists a caller passes to the plan object.
- Session logs beyond the query limits, events numbered by callers, numbering by several processes (the lock is per process), and the list limits of 200 and 2000 on tasks.
- The text of event type and source filters (any predicate on events), the stop of a stream whose session is not running, and heartbeats.

Models and accounts

- `build_session_model_messages` and session summaries: they compose the paging query and the budget fit.
- The evidence list of the agent, tool collection and gateway: resolution of tool names is a fixed function of the name.
- External identities, profiles, audit events, `last_seen_at` and `last_login_at`, and CSRF tokens.
- Token hashing, taken as injective, and the generator of tokens, taken as an argument.
