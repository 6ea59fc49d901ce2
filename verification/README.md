# Verification of the LUMI runtime

LUMI runs agent work as *runs*: an API and a chat bot create them, workers execute them, a scheduler publishes and
recovers them, and a browser follows their events.  This project models the parts of that system whose correctness does
not show in any single function, and proves what they promise together.

| file | what it models |
|---|---|
| `Types.dfy` | run statuses, the policy engine |
| `Protocol.dfy` | API, scheduler and any number of workers over four tables and one Redis stream, as a transition system: a step is one database transaction, one Redis command or one external call; crashes, redelivery, duplicate publishing and time are steps as well |
| `Frames.dfy` | what a step leaves alone |
| `Transitions.dfy` | exactly when a step takes a row, in every reachable state, and what it then writes, in numbers |
| `Effects.dfy` | at most one external effect per approval; provenance of every gated call |
| `Promises.dfy` | exactly when an approved action is carried out; what COMPLETED says about the call |
| `Coverage.dfy` | no run is stranded |
| `Leases.dfy` | lease mutual exclusion and late heartbeats |
| `Recovery.dfy` | recovery is bounded and backs off |
| `LostApproval.dfy` | two concrete schedules on which an approved action is not carried out |
| `Store.dfy` | the same tables as a class updated in place; each method is proved equal to the steps of the protocol |
| `EventLog.dfy` | the append-only event log under its advisory lock, and the writer with its retry loop |
| `Sse.dfy` | the wire format of the event stream and the browser's incremental parser (section 9.2 of the WHATWG HTML Living Standard) |
| `SseDelivery.dfy` | the browser's connection object, the server's generator, and exactly-once delivery across reconnects |
| `Windows.dfy` | circuit breaker and in-memory rate limiter, the latter also under a clock that is set back |
| `Coordinator.dfy`, `Outcomes.dfy` | the coordinator's loop and what its results mean |
| `Conformance.dfy` | the coordinator stays within what the protocol lets a worker do |
| `Assembler.dfy` | the budgeted context assembler |
| `Memory.dfy` | the memory lifecycle and its supersedes graph, under calls that overlap |
| `Like.dfy` | the escaping of search texts |
| `Canonical.dfy`, `Nonce.dfy` | the signed text of a room message, and its nonces |
| `Retry.dfy` | concurrent retries of one run |

`dafny verify dfyconfig.toml` checks everything.

## How the protocol is read

* A database row is named by its position in its table; positions grow with creation time, which stands for
  `created_at`.
* A step whose guard does not hold changes nothing, so every sequence of actions is a schedule, and a theorem about all
  sequences is a theorem about all interleavings.
* The worker's clock is read after the run was loaded and before the claiming UPDATE (`Load` or a later `ReadClock`
  records it, `Claim` uses it), the heartbeat may carry an old reading, and the scheduler decides on rows it selected
  without a lock.
* A recovery round is one transaction in the source (apps/scheduler/scheduler.py:92-166); here each run it recovers is a
  step of its own, which takes its clock and commits in one instant.  So a round may stop after some of its runs, and
  the time between the first write of a round and its commit is not modelled.
* An outbox key is a text in a unique column.  In the protocol a client's retry key clashes with the key of a recovered
  successor it names; `Retry.dfy` spells the texts out.
* Row locks follow section 13.2.1 (Read Committed) of the PostgreSQL manual.  Where a lock only narrows what can happen
  (the lock on a consumed approval while its run is closed) the model leaves it out and proves more.
* The final status write of a worker has no guard on the row, and the object mapper sends changed columns only: it
  compares with the row as loaded *before* the claim (sessions are opened with `expire_on_commit=False`).  So the write
  may be skipped when the new status equals the one seen then; `Finish` carries a flag for it.
* The event stream is ASCII, because `json.dumps` escapes everything else; bytes and characters therefore coincide.

## Where the code does not keep a promise

* An approved action is not always carried out.  `Promises.ApprovedActionIsCarriedOutExactly` gives the condition, which
  can be read before deciding: the run waits or could be claimed at once, and no newer approval of the run was given.
  An approval given while the run executes under a live lease misses the first half and can be lost for ever
  (`LostApproval.ApprovalCanBeLost`); with two approvals of one run the newer one is carried out in place of the older
  (`LostApproval.NewerApprovalWins`).
* `append_run_event_safe` called with `max_retries=0` returns without having written anything
  (`EventWriter.EventTable.AppendSafe` states both cases).  No present caller passes `max_retries`.
* Memory calls read without a lock and write when they commit, so calls can overlap.  The supersedes relation is acyclic
  exactly when no edge was written whose old item already reached its new one (`Memory.AcyclicExactly`), and it is so
  whenever every late write still decides what it had decided (`Memory.SupersedesIsAcyclic`).  Two overlapping
  `supersede` calls make a cycle (`Memory.RaceMakesCycle`), and so does a late `mark_active` together with two
  `supersede` calls that nothing overlaps (`Memory.StaleActivationMakesCycle`).
* A rejected, expired or superseded item comes back exactly by a late write that approves or activates it
  (`Memory.RetiredForEver`, an equivalence); a promotion that selected a candidate does that to a rejection
  (`Memory.StalePromotionRevives`).
* `retrieve_for_context` says that it returns ACTIVE items only; it returns exactly the unexpired active and approved
  ones (`Memory.RetrievedExactly`, `Memory.RetrievesMoreThanActive`).
* The retry endpoint is a get-or-create that fails in three cases, and `Retry.AnswerOfAHandler` says exactly when.  The
  insert of the run is flushed outside the `try`, so the loser of a race gets an error instead of the winner's run
  (`Retry.RaceLosesOne`).  The outbox key `retry:run:key` shares its unique column with the scheduler's
  `retry:run:successor`, so a client key that is the identifier of a recovered successor of the same run is refused at
  commit (`Retry.RecoveredKeyFails`; `Retry.OutboxKeyIsTaken` is the equivalence).  And the key is cut to 128 characters
  while its column, which also holds the prefix and the identifier, has room for 85.
* The clamp of `_MonotonicNonce.next` does not clamp: from the largest 19-digit number on it hands out longer ones
  (`Nonce.ClampFits`, an equivalence).  `ensure_greater` with a text that is no number calls `next` while holding the
  non-reentrant lock and waits for ever (`Nonce.MonotonicNonce.Ensure`).  Its one present caller matches the nonce
  pattern first (packages/connectors/technocore.py:480-482), so this is reached only by calling the method itself.
* `technocore_nonces.last_nonce` is a 32-bit column, and a clock in milliseconds left that range in January 1970:
  with any later clock no transaction of the database lane commits (`Nonce.NoNonceFitsTheColumn`).  For a column of any
  width, `Nonce.WriteIsAccepted` and `Nonce.OneCallCommits` say exactly when a number is accepted and committed.
* The patterns for rooms and nonces end in `$`, which also matches before a final line feed
  (`Canonical.LineFeedPasses`); that is all it lets through (`Canonical.LineFeedOnlyAtTheEnd`), and the signed text stays
  unambiguous.
* The rate limiter reads the wall clock.  When that is set back an interval as long as the window can hold more
  admissions than the limit (`Windows.ClockSetBackExceedsLimit`).  `Windows.WithinLimitExactly` says exactly when an
  interval stays within it, under any clock: when at each request admitted in it the admissions forgotten inside the
  interval are fewer than the free places seen plus the remembered ones that count from outside.  It is enough that no
  request is admitted while an admission of its window is forgotten (`Windows.NeverOverLimit`), as under a clock that
  never runs back (`Windows.SteadyNeverOverLimit`), but that is not necessary (`Windows.ForgettingMayBeHarmless`).
  What one reading sees is another question: it is the full history exactly when no admission of its window was
  forgotten (`Windows.SeesFullHistory`).  A refusal is justified under any clock (`Windows.RefusalsAreJustified`).

## Model

| member | source | states |
|---|---|---|
| `Store.Tables.CreateTaskRun` | apps/api/app.py:241-262 | a new run is queued exactly together with its outbox row, and a used key aborts both |
| `Store.Tables.CreateApproval` | packages/policy/approval.py:20-46 | the parked action is stored pending with exactly the planned tool and arguments, and expires an hour later |
| `Store.Tables.DecideWithContinuation` | packages/policy/approval.py:48-119 | approval, run transition and outbox row in one transaction; decided exactly when pending, unexpired and a known decision; then a waiting run is queued or failed, any other row of a run is untouched, and an outbox row is added exactly by an approval; every refusal leaves all tables alone, except that lateness is recorded |
| `Store.Tables.ConsumeAndRecord` | packages/policy/approval.py:146-201 | consumed exactly when approved, unexpired and without a record, together with one record; an existing record raises and writes nothing; a refusal reports the record of a consumed row and changes nothing but a pending row that ran out |
| `Store.Tables.ClaimRun` | apps/worker/worker.py:117-139 | the atomic claim: one row exactly when the run was queued or executing without a live lease, and only then does the worker go on |
| `Store.Tables.LookApproved` | apps/worker/worker.py:387-400 | the newest approved row decides: consumed and to be called, refused, or none |
| `Store.Tables.LookConsumed` | apps/worker/worker.py:315-327 | the newest consumed row decides whether a run is settled without a call or planned anew |
| `Store.Tables.SettleConsumed` | apps/worker/worker.py:328-383 | a run over a consumed approval is closed by its record, only while still executing: completed over SUCCEEDED, failed otherwise; an unfinished record becomes AMBIGUOUS, and nothing is called |
| `Store.Tables.Newest` | apps/worker/worker.py:306-312 | the loop finds the newest row of the run with the status, if any |
| `Protocol.Latest` | apps/worker/worker.py:306-312 | the row found has run and status, and every other such row is older |
| `Store.Tables.Heartbeat` | apps/worker/worker.py:237-253 | a row that names this worker gets a lease of 30 seconds from the reading, one that names another is unchanged, and no status or holder ever changes |
| `Store.Tables.FinishRun` | apps/worker/worker.py:278-295 | the unguarded final write: one row at most, never its holder or lease, whatever its status was |
| `Store.Tables.SelectUnprocessed` | apps/scheduler/scheduler.py:52-58 | the select yields the first unprocessed rows |
| `Store.FirstUnprocessedAreInOrder` | apps/scheduler/scheduler.py:52-57 | the selected rows are unprocessed, in order and at most the limit |
| `Store.FirstUnprocessedAreOldest` | apps/scheduler/scheduler.py:52-57 | an unprocessed row is passed over only behind a full page of older ones |
| `Store.Tables.PublishRow` | apps/scheduler/scheduler.py:59-87 | a row goes out after at most ten earlier tries and not before its time; an entry is added whenever Redis takes it, also when the answer is lost; only an answered one is marked, and each try is counted |
| `Store.Tables.PublishOutbox` | apps/scheduler/scheduler.py:47-90 | a round equals the protocol's publish steps, with lost answers and with a commit that succeeds or fails; a row is processed afterwards exactly when it was before or an answered send was committed |
| `Store.Tables.ScanExecuting` | apps/scheduler/scheduler.py:98-103 | the unlocked select: exactly the executing runs as they are then |
| `Store.Tables.RecoverScanned` | apps/scheduler/scheduler.py:104-165 | a run is recovered by the row as it was selected, exactly when its heartbeat was more than 900 seconds before the select or its lease has passed; otherwise runs, outbox and dead letters stay as they are |
| `Store.Tables.RecoverRun` | apps/scheduler/scheduler.py:104-165 | with nothing in between, an executing run fails exactly when its heartbeat is more than 900 seconds old or its lease has passed, and gets one retry counted |
| `Store.Tables.RecoverStuckRuns` | apps/scheduler/scheduler.py:92-166 | a round that nothing interrupts fails exactly the executing runs with a heartbeat more than 900 seconds old or a passed lease, leaves all others as they are, and counts the changed rows |
| `Store.Tables.ReadGroup` | packages/observability/queue.py:40-42 | an entry is handed out at most once by reading |
| `Store.Tables.AckEntry` | packages/observability/queue.py:45-46 | the entry handled is acknowledged, and no other |
| `Store.Tables.ClaimPending` | packages/observability/queue.py:64-81 | reclaimed entries are pending, idle long enough and at most the count; nothing else changes |
| `Transitions.RecoveryTakes` | apps/scheduler/scheduler.py:104-165 | in every reachable state: a selected run with a heartbeat of the last 900 seconds and a lease that holds is left alone; any other fails, with one successor held back 30, 60 or 120 seconds, or into the dead letters after three retries |
| `Transitions.RecoveredWasStuck` | apps/scheduler/scheduler.py:92-165 | whenever the scheduler fails a run, an earlier select saw it executing, late or with a lease that has passed by now |
| `Transitions.RejectionTakes` | packages/policy/approval.py:113-117 | a rejection in time fails the run exactly when it waits, touches no other run and adds no outbox row, in every reachable state |
| `Transitions.ApprovalTakes` | packages/policy/approval.py:99-112 | an approval in time queues the run exactly when it waits, and in any case adds one outbox row that may go out at once |
| `Transitions.DecisionRefused` | packages/policy/approval.py:60-77 | a late decision only records the expiry; one on a decided row or with an unknown word changes nothing |
| `Transitions.ClaimTakes` | apps/worker/worker.py:117-139 | a claim takes the row exactly when it is queued, or executing without a lease that holds, and gives it to the worker for 30 seconds |
| `Transitions.ExecutingWasQueued` | apps/worker/worker.py:121-130 | a run starts to execute only by a claim out of the queue, so never out of a pause, a wait or an end |
| `Transitions.BeatTakes` | apps/worker/worker.py:237-253 | the holder moves its lease to 30 seconds after its reading, anybody else moves nothing |
| `Transitions.FinishTakes` | apps/worker/worker.py:278-295 | the statuses a worker may end with and what it writes over the row |
| `Transitions.SettleTakes` | apps/worker/worker.py:328-383 | closing over a consumed approval by the record read, and only while the run executes |
| `Transitions.CloseTakes` | apps/worker/worker.py:413-454 | a call that returned completes the run and its record, one that failed leaves FAILED and AMBIGUOUS |
| `Transitions.PublishTakes` | apps/scheduler/scheduler.py:59-75 | a row goes out exactly when unprocessed, tried at most ten times before and due, and adds one undelivered entry for its run |
| `Transitions.CommitTakes` | apps/scheduler/scheduler.py:76-89 | the commit counts every try and marks exactly the answered rows |
| `Transitions.ReadTakes` | packages/observability/queue.py:40-81 | an entry goes to an idle worker when nobody had it, or after 30 seconds without an answer |
| `Transitions.LoadTakes` | apps/worker/worker.py:103-118 | a finished run is only acknowledged, any other goes to the claim |
| `Transitions.CreationTakes` | apps/api/app.py:241-262 | a first run and its outbox row appear exactly when the key is free |
| `Transitions.RetryTakes` | apps/api/app.py:343-370 | a retry needs a finished run and a free key text, and counts one retry more |
| `Transitions.ParkTakes` | apps/worker/worker.py:200-211 | a gated action is parked as planned, pending for one hour, and no other action is |
| `Policy.VerdictByClass` | packages/policy/engine.py:55-69 | without overrides exactly reads and writes to the own database pass, public and privileged writes need approval, everything else is denied |
| `Policy.VerdictByName` | packages/policy/engine.py:23-69 | the verdict of every tool by its name, and that an override decides about its tool alone |
| `Protocol.Backoff` | apps/scheduler/scheduler.py:143 | the first retry waits 30 seconds, the second 60, the third 120 |
| `Effects.AtMostOneCall` | apps/worker/worker.py:387-435 | in every reachable state an approval has at most one call, none before it is consumed, a record exactly when consumed, and SUCCEEDED only of a call that returned |
| `Effects.ConsumedIsFinal` | packages/policy/approval.py:179-201 | a consumed approval whose holder let go of it is never executed again, whatever follows |
| `Effects.ApprovalsMove` | packages/policy/approval.py:60-77 | an approval row only ever moves from pending to approved, rejected or expired, and from approved to consumed; tool and arguments never change |
| `Effects.Provenance` | packages/agent_core/coordinator.py:168-184 | every call of a tool that is not simply allowed was parked with exactly this tool and these arguments, then approved while pending and unexpired, then consumed unexpired by the worker that made the call, in this order |
| `Promises.ApprovedActionIsCarriedOutExactly` | apps/worker/worker.py:304-435 | for every reachable state, every approval that can still be given and every idle worker: deciding, publishing, claiming, consuming and calling carry the parked action out and complete the run exactly when the run waits or could be claimed at once, and no newer approval of it was given |
| `LostApproval.NewerApprovalWins` | apps/worker/worker.py:306-312 | a reachable state with an open approval, a waiting run and an idle worker in which the other, newer action is carried out |
| `Promises.ContinuationTellsTheTruth` | apps/worker/worker.py:411-454 | a run closed over a consumed approval is COMPLETED only if the one call returned; a failed call leaves FAILED and an ambiguous record |
| `Promises.ClosingTellsTheTruth` | apps/worker/worker.py:328-383 | the same for one step, by the record the worker had read |
| `Coverage.NoStrandedRun` | apps/scheduler/scheduler.py:47-166 | every run is terminal, waiting, paused, executing under a lease the recovery can see expire, or queued and covered by an unprocessed outbox row or a stream entry not yet past its claim |
| `Leases.MutualExclusion` | apps/worker/worker.py:117-139 | while no working worker's lease runs out, no two workers execute the same run |
| `Leases.DisplacedHeartbeats` | apps/worker/worker.py:237-253 | with no such assumption, only claims and the holder's own heartbeats ever move a lease |
| `Recovery.RecoveryIsBounded` | apps/scheduler/scheduler.py:126-161 | a submitted run has at most eight runs in its family, also when late workers revive recovered ones; recovery conserves the family's weight |
| `Recovery.BackoffIsRespected` | apps/scheduler/scheduler.py:143-161 | the outbox row of a recovered run waits the backoff of its retry, and its entries are never in the stream earlier |
| `LostApproval.DormantForEver` | packages/policy/approval.py:99-112 | a waiting run without an open decision is never worked on again and its approval never called |
| `LostApproval.ApprovalCanBeLost` | packages/policy/approval.py:99-112 | a concrete schedule: approved while executing, and never carried out under any continuation |
| `EventLog.PrefixVisibility` | packages/observability/events.py:37-59 | later states only append greater numbers, and no open transaction holds a number below a committed one |
| `EventLog.AppendIsVisible` | packages/observability/events.py:24-60 | from every reachable state with a free lock, one append makes exactly its event visible, with the next numbers |
| `EventLog.OnlyCommitShows` | packages/observability/events.py:24-34 | what readers see changes by commits only, and by exactly the rows of the transaction |
| `EventLog.RunsAreNumbered` | packages/observability/events.py:44-57 | the committed events of a run are numbered 0, 1, 2 and so on |
| `EventLog.InsertNeverViolates` | packages/observability/models.py:214-216 | under the lock no insert meets a unique violation |
| `EventWriter.EventTable.SelectMax` | packages/observability/events.py:46-50 | the maximum is the number of the run's events less one |
| `EventWriter.EventTable.AppendOnce` | packages/observability/events.py:24-60 | one event is appended with the next number of its run and the next identity |
| `EventWriter.EventTable.AppendSafe` | packages/observability/events.py:63-84 | with at least one attempt, a call that returns has committed exactly one event and a call that raises none; which of the two is decided by the first attempt that is no unique violation |
| `Text.FindBlank` | apps/web/src/api.ts:85 | the first position of two line feeds in a row |
| `Text.DecimalRoundTrip` | apps/api/app.py:605-606 | reading back a printed number gives the number |
| `SseFrames.DrainEarly` | apps/web/src/api.ts:82-110 | taking out complete frames before more text arrives makes no difference |
| `SseFrames.ChunkIndependence` | apps/web/src/api.ts:79-111 | feeding a stream in chunks cut anywhere ends in the same parser state as feeding it whole |
| `SseFrames.TakeBody` | apps/web/src/api.ts:86-109 | a frame as the server prints it has exactly its meant effect and leaves nothing pending |
| `SseFrames.BodyEnds` | apps/api/app.py:644-656 | the first blank line of the stream is the end of the first frame |
| `SseFrames.RoundTrip` | apps/api/app.py:644-656 | parsing what the server printed has exactly the effect of its frames |
| `SseFrames.DispatchesWhatWasSent` | apps/web/src/api.ts:79-111 | in any chunks, the browser dispatches exactly the messages sent, in order |
| `SseFrames.TextFieldsMean` | apps/web/src/api.ts:90-92 | id and data fields of any sender, with their white space and several data lines |
| `SseFrames.RetryFieldMeans` | apps/web/src/api.ts:93-96 | the wait is at least a second, and what is no number is ignored |
| `SseFrames.FramesEnd` | apps/web/src/api.ts:99-109 | what a complete frame of any sender does to the id kept, the events and the pending fields |
| `EventSource.Connection.Open` | apps/web/src/api.ts:72-78 | a new connection forgets the pending text and keeps id and events |
| `EventSource.Connection.ReadLine` | apps/web/src/api.ts:90-97 | one line never dispatches, never moves the last id, and only extends the data |
| `EventSource.Connection.EndFrame` | apps/web/src/api.ts:99-109 | at most one event, the pending one; the last id moves only to the pending id, and then nothing stays pending |
| `EventSource.Connection.Receive` | apps/web/src/api.ts:80-110 | the nested loops do what the parser's specification says |
| `SseDelivery.Generate` | apps/api/app.py:641-657 | the generator's frames and cursor for any number of turns |
| `SseDelivery.PageOfFinal` | apps/api/app.py:613-620 | a page read at any time is a gap-free slice of the later log, beyond the cursor |
| `SseDelivery.SentIsRange` | apps/api/app.py:646-656 | the pages of a connection together are the committed events between two cursors, each once |
| `SseDelivery.CursorOfId` | apps/api/app.py:602-610 | the server reads back exactly the id it sent |
| `SseDelivery.CursorStarts` | apps/api/app.py:602-610 | a number in the header decides, else one in the query, its second spelling only when the first is empty, else the stream starts at the beginning |
| `SseDelivery.PageIsFull` | apps/api/app.py:613-620 | a turn sends at most 50 events, and fewer only when it sends all that are there |
| `SseDelivery.CutStream` | apps/web/src/api.ts:79-111 | a stream cut at any byte has the effect of its complete frames |
| `SseDelivery.OneConnection` | apps/web/src/api.ts:59-111 | one connection dispatches exactly the committed events between the old and the new id |
| `SseDelivery.ExactlyOnce` | apps/web/src/api.ts:59-121 | for every schedule of writers and any number of cut connections: exactly the committed events between first cursor and last id, strictly increasing, none skipped, none repeated, and the id kept is that of the last |
| `SseDelivery.FirstVisitGetsAll` | apps/web/src/api.ts:59-121 | a browser without a stored id gets the committed events from the very first one on, none left out, up to the id it keeps |
| `Windows.Prune` | packages/agent_core/coordinator.py:31 | the comprehension keeps exactly the times within the window |
| `Windows.StoredIsHistory` | packages/agent_core/coordinator.py:28-37 | the pruned list has the same window as all failures since the last reset |
| `Windows.CircuitBreaker.RecordFailure` | packages/agent_core/coordinator.py:28-34 | opens exactly when the failures since the last reset that lie within the cooldown reach five |
| `Windows.CircuitBreaker.ResetKey` | packages/agent_core/coordinator.py:36-37 | a success forgets the key's failures |
| `Windows.WithinLimitExactly` | packages/observability/auth.py:129-146 | under any clock, an interval as long as the window holds at most the limit of admissions exactly when at each request admitted in it the forgotten admissions inside are fewer than the free places seen plus the remembered ones outside |
| `Windows.NeverOverLimit` | packages/observability/auth.py:129-146 | under any clock, no such interval exceeds the limit when no request was admitted while an admission of its window was forgotten |
| `Windows.SteadyNeverOverLimit` | packages/observability/auth.py:140-146 | in particular none does while the clock does not run back |
| `Windows.ForgettingMayBeHarmless` | packages/observability/auth.py:129-146 | a schedule in which a request is admitted over a forgotten admission and still no interval exceeds the limit |
| `Windows.RateLimiter.Check` | packages/observability/auth.py:139-146 | under any clock admitted exactly when fewer than the limit are remembered within the window, and when none of the window was forgotten exactly when fewer were admitted |
| `Windows.RememberedSurvives` | packages/observability/auth.py:140-146 | under any clock the list holds exactly the admissions that no later check forgot |
| `Windows.SeesFullHistory` | packages/observability/auth.py:140-146 | the remembered and all admissions of the window are the same, and equally many, exactly when none of them was forgotten by a check that read a later clock |
| `Windows.RefusalsAreJustified` | packages/observability/auth.py:141-143 | a refused request did have as many admissions within its window, under any clock |
| `Windows.ClockSetBackExceedsLimit` | packages/observability/auth.py:129-146 | a clock set back admits three requests in an interval under a limit of two |
| `Coordinator.Verify` | packages/agent_core/verifier.py:21-39 | passes exactly when all checks do, or without checks when the evidence does |
| `Coordinator.RunCoordinator.CanContinue` | packages/agent_core/coordinator.py:79-100 | goes on exactly while no flag is set and every limit and budget has room; otherwise the first exceeded limit is emitted |
| `Coordinator.RunCoordinator.Execute` | packages/agent_core/coordinator.py:186-205 | one call with its evidence, counters, events and breaker, also when the event sink fails after the call |
| `Coordinator.RunCoordinator.Check` | packages/agent_core/coordinator.py:155-164 | the checks at the head of a turn: the pause check pauses, else the stop check cancels, else flags and limits decide |
| `Coordinator.RunCoordinator.Perform` | packages/agent_core/coordinator.py:165-205 | one action under the policy's verdict |
| `Coordinator.RunCoordinator.Finalize` | packages/agent_core/coordinator.py:207-230 | the status after the loop |
| `Coordinator.RunCoordinator.Run` | packages/agent_core/coordinator.py:120-232 | a whole run on a new coordinator equals the loop's specification, for every plan and every course of events outside |
| `Outcomes.EvidenceIsNoError` | packages/agent_core/verifier.py:46-52 | the default check passes exactly on a non-empty list without an error |
| `Outcomes.EndsFinalWithinBudget` | packages/agent_core/coordinator.py:207-232 | every run ends COMPLETED, FAILED, CANCELLED, PAUSED or WAITING_APPROVAL, within its iteration and call budgets |
| `Outcomes.OnlyAllowedCalls` | packages/agent_core/coordinator.py:168-187 | nothing is called, with or without success, that the policy does not allow |
| `Outcomes.CompletedMeans` | packages/agent_core/coordinator.py:149-229 | COMPLETED only after a non-empty in-order prefix of the plan's actions, each once, each allowed, each ok; a proper prefix only after a limit, or a pause that was withdrawn |
| `Outcomes.WaitingMeans` | packages/agent_core/coordinator.py:177-184 | WAITING_APPROVAL exactly when the loop met a gated action and nobody stopped or paused the run; that action is the last looked at |
| `Outcomes.TurnIsTaken` | packages/agent_core/coordinator.py:154-164 | the policy is asked at a turn exactly when no check and no flag stands against it and every budget has room; otherwise the loop ends there and the event names the first exceeded limit |
| `Outcomes.PausedMeans` | packages/agent_core/coordinator.py:155-158 | PAUSED exactly when the pause flag is up at the end, or the pause check said yes at a turn that was reached and no stop was asked for before or at the end |
| `Outcomes.CancelledMeans` | packages/agent_core/coordinator.py:159-164 | CANCELLED exactly when the pause flag is down at the end and a stop was asked for before, at the end, or at a turn that was reached, by the check or by the flag |
| `Outcomes.CompletedExactly` | packages/agent_core/coordinator.py:149-229 | COMPLETED exactly when nobody paused or stopped, every action asked about is allowed, something was called and nothing failed |
| `Outcomes.BreakerTrips` | packages/agent_core/coordinator.py:197-205 | a failed call ends the run exactly when it is the fifth of its tool within 30 seconds without a success of the tool in between |
| `Outcomes.EndingEvents` | packages/agent_core/coordinator.py:207-231 | the list ends with the status, and before it with the outcome of the verification exactly when one took place |
| `Outcomes.EventsBegin` | packages/agent_core/coordinator.py:126-138 | every run begins with the same three events, and none is taken back |
| `Outcomes.OldPlans` | packages/agent_core/coordinator.py:143-147 | a plan of the old format stands for one action without arguments for each tool |
| `Outcomes.CalmRunCompletes` | packages/agent_core/coordinator.py:149-229 | left in peace, a run executes as much of its plan as its two counters admit and completes |
| `Conformance.CoordinatorConforms` | apps/worker/worker.py:255-289 | for every plan and course, stopped and paused runs included, calls, parked action and final status of the coordinator are steps the protocol allows, with the same effect on the tables |
| `Assembler.OrderIsSorted` | packages/context_engine/assembler.py:161-180 | the processing order is a permutation of the added segments: known types in sequence and stable, the others by relevance, then by first appearance of their type, then by addition |
| `Assembler.LayersInOrder` | packages/context_engine/assembler.py:65-75 | the nine known layers by name in their order, then the unknown types by descending relevance; equals stay in order of addition |
| `Assembler.SelectionIsBudgetedAndMaximal` | packages/context_engine/assembler.py:182-195 | the output is a subsequence of that order, totals at most the budget or the critical tokens, holds at most a quarter of the budget untrusted, and no segment left out would still fit |
| `Assembler.CriticalIsTaken` | packages/context_engine/assembler.py:188-191 | policy and goal segments are always taken, unless they come from outside |
| `Assembler.ReasonsStand` | packages/context_engine/assembler.py:183-195 | a segment is taken exactly when no reason refused it in its turn, and a reason given still holds at the end |
| `Assembler.Fenced` | packages/context_engine/assembler.py:127-132 | untrusted content stands between both marks unless it already holds the opening one; other content is kept as it is |
| `Assembler.FencedWith` | packages/context_engine/assembler.py:86-87 | the two marks spelled out |
| `Assembler.MarkedAll` | packages/context_engine/assembler.py:182-195 | segments left out carry the reason of their refusal, and nothing else has changed |
| `Assembler.ContextAssembler.Add` | packages/context_engine/assembler.py:117-151 | one segment is appended, nothing is overwritten |
| `Assembler.ContextAssembler.Group` | packages/context_engine/assembler.py:166-169 | the dictionary of positions by type, with its keys in order of first appearance |
| `Assembler.ContextAssembler.Arrange` | packages/context_engine/assembler.py:163-180 | the loops over the dictionary compute the processing order |
| `Assembler.ContextAssembler.Assemble` | packages/context_engine/assembler.py:153-195 | the loop takes the specified selection under the limit less 2048 tokens and marks the refused segments |
| `Memory.StepRetires` | packages/memory/service.py:79-125 | a retired item leaves retirement exactly by a late write that approves or activates it |
| `Memory.RetiredForEver` | packages/memory/service.py:79-125 | a retired item stays retired along a schedule exactly when no late write brings it back |
| `Memory.StalePromotionRevives` | packages/memory/service.py:236-270 | a promotion writes over a rejection committed after its select |
| `Memory.AcyclicExactly` | packages/memory/service.py:106-125 | under any overlapping of calls the supersedes relation is acyclic exactly when no edge was written whose old item already reached its new one |
| `Memory.LateWrite` | packages/memory/service.py:108-125 | the same for one supersede call that writes late |
| `Memory.SupersedesIsAcyclic` | packages/memory/service.py:106-125 | no cycle after any sequence of whole calls, and of overlapping calls that would decide the same when they write, although the code rejects self-loops only |
| `Memory.ActiveIsNotReached` | packages/memory/service.py:106-125 | as long as no late write brings a retired item back, nothing leads to an active item |
| `Memory.RaceMakesCycle` | packages/memory/service.py:106-125 | two overlapping supersede calls on two active items make a cycle |
| `Memory.StaleActivationMakesCycle` | packages/memory/service.py:97-125 | a late activation and two supersede calls that nothing overlaps make a cycle |
| `Memory.AlwaysHonest` | packages/memory/service.py:79-104 | in every reachable state, whatever overlapped, an item with a retrievable status is verified |
| `Memory.RetrievedExactly` | packages/memory/service.py:131-172 | in every reachable state, whatever overlapped, exactly the active and approved items with time left are retrieved |
| `Memory.RetrievesMoreThanActive` | packages/memory/service.py:170-172 | retrieval does return an item that never was active |
| `Memory.SupersededIsNeverRetrieved` | packages/memory/service.py:131-168 | an item that anything supersedes is never retrieved again as long as no late write brings it back |
| `Memory.SweepTakes` | packages/memory/service.py:216-234 | after a sweep nothing still in use is past its time, whatever had time left is as before, and a changed item only became EXPIRED |
| `Memory.PromoteTakes` | packages/memory/service.py:236-270 | exactly the candidates above the threshold with time left are approved, once enough runs completed |
| `Memory.NamedItemTakes` | packages/memory/service.py:79-104 | approve, reject and mark_active: the status each needs and what it leaves of the item |
| `Memory.LinkTakes` | packages/memory/service.py:106-129 | when an item supersedes another, and what is written; a contradiction changes no item |
| `Memory.CreateTakes` | packages/memory/service.py:33-77 | a new item is an unverified candidate with its confidence cut to the unit interval and no lifetime for zero |
| `Memory.OnlyDifferences` | packages/memory/service.py:91-95 | a call plans no status that an item already has when it is read |
| `Memory.MemoryService.CreateCandidate` | packages/memory/service.py:33-77 | a new unverified candidate; a time to live of zero is none |
| `Memory.MemoryService.ApproveItem` | packages/memory/service.py:79-89 | exactly a candidate is approved and verified, and nothing else changes |
| `Memory.MemoryService.RejectItem` | packages/memory/service.py:91-95 | the item is rejected whatever it was, and no other changes |
| `Memory.MemoryService.Activate` | packages/memory/service.py:97-104 | the active items afterwards are exactly those before and the one meant, if it was approved |
| `Memory.MemoryService.SupersedeItem` | packages/memory/service.py:106-125 | edge from the new to the old item and retirement of the old one, exactly when the new one is active and the old one another existing item |
| `Memory.MemoryService.ExpireSweep` | packages/memory/service.py:216-234 | exactly the items whose time has come expire, unless expired, deleted or superseded already; the count is the number of changed items |
| `Memory.MemoryService.AutoPromote` | packages/memory/service.py:236-270 | exactly the unexpired candidates above the threshold are approved and verified, once enough runs completed; the count is the number of changed items |
| `Like.EscapeIsOnePass` | packages/memory/service.py:24-26 | the three successive replacements equal one pass |
| `Like.SearchFindsTheQuery` | packages/memory/service.py:139-141 | under the like predicate of ISO/IEC 9075-2, section 8.5, with backslash as escape, the pattern matches exactly the texts holding the query, up to case |
| `Like.SearchNeverFails` | packages/memory/service.py:139-141 | every escape in the pattern stands before a special character |
| `Canonical.SweepText` | packages/connectors/technocore.py:66-91 | the loop sweeps exactly the invisible characters |
| `Canonical.Swept` | packages/connectors/technocore.py:66-91 | sweeping keeps the length and every visible character |
| `Canonical.SweptCodes` | packages/connectors/technocore.py:71-88 | the code points replaced whatever their category |
| `Canonical.SweepTwice` | packages/connectors/technocore.py:471-476 | sweeping again changes nothing, also after a cut |
| `Canonical.CanonicalIsUnambiguous` | packages/connectors/technocore.py:94-101 | equal signed texts exactly for equal room, nonce and swept text, on all accepted triples |
| `Canonical.SignedIsWhatIsSent` | packages/connectors/technocore.py:456-508 | a signature made here covers exactly room, nonce and text of the body that is sent, and a peer rebuilds the same text; it is made here exactly when the caller passed none or an empty one |
| `Canonical.BodyIsSwept` | packages/connectors/technocore.py:470-476 | the text sent is the whole swept text, or its first 4096 characters |
| `Canonical.SentExactly` | packages/connectors/technocore.py:450-508 | when a message is sent, and which check refuses it otherwise |
| `Canonical.PatternsMean` | packages/connectors/technocore.py:24-27 | what the patterns for rooms, nonces and signatures mean without a final line feed |
| `Canonical.LineFeedOnlyAtTheEnd` | packages/connectors/technocore.py:24-27 | an accepted room or nonce holds a line feed exactly as its last character, and with one it is accepted exactly when the rest meets the whole pattern |
| `Canonical.LineFeedPasses` | packages/connectors/technocore.py:24-27 | a final line feed does pass both patterns |
| `Nonce.AnswersIncrease` | packages/connectors/technocore.py:107-138 | mixed calls hand out strictly increasing numbers for any clock |
| `Nonce.NextStaysClose` | packages/connectors/technocore.py:116-126 | after n calls of next alone the number is at most the greatest of start and readings, plus n |
| `Nonce.AnswersMean` | packages/connectors/technocore.py:116-138 | a reading or candidate beyond the last number is handed out as it is, anything else gives its successor |
| `Nonce.ClampFits` | packages/connectors/technocore.py:122-124 | a number fits 19 digits exactly while the last one was below the greatest |
| `Nonce.MonotonicNonce.NextNonce` | packages/connectors/technocore.py:116-126 | the reading when that is above the last number and has at most 19 digits, else the successor of the last |
| `Nonce.MonotonicNonce.Ensure` | packages/connectors/technocore.py:128-138 | the candidate when that is above the last number, else the successor of the last; no answer ever again after a candidate that is no number |
| `Nonce.CommittedNoncesIncrease` | packages/connectors/technocore.py:290-324 | for a column of any width, committed numbers of a room and identity strictly increase in commit order, across processes with any clocks |
| `Nonce.WriteIsAccepted` | packages/connectors/technocore.py:313-324 | a write that need not wait is accepted exactly when its number fits the column and no first row was committed meanwhile |
| `Nonce.DrawsMoveTheLane` | packages/connectors/technocore.py:313-324 | a draw moves the lane of its process, and a rollback does not move it back |
| `Nonce.OneCallCommits` | packages/connectors/technocore.py:290-324 | from every reachable state with a free row, one call commits the greater of clock and successor exactly when that fits |
| `Nonce.NoNonceFitsTheColumn` | packages/observability/models.py:426 | for the 32-bit column nothing is ever committed with a clock after January 1970 |
| `Retry.AtMostOneRetry` | apps/api/app.py:346-386 | under any interleaving and crashes: one run at most for a source and key, one outbox row committed with it, and every successful answer names it |
| `Retry.TextIsUnambiguous` | apps/api/app.py:353 | the text of an outbox key determines source run and key |
| `Retry.OutboxKeyIsTaken` | apps/scheduler/scheduler.py:154-161 | the unique column is taken at commit exactly when the client's key is the identifier of a recovered successor of the same run |
| `Retry.AnswerOfAHandler` | apps/api/app.py:354-386 | a handler that found nothing makes the run exactly when none with its key was committed since, the key fits the column and is no recovered successor; otherwise it gets an error, never another run |
| `Retry.AnswerOfALook` | apps/api/app.py:341-352 | refused exactly when the run is not finished, found exactly when a run with the key is committed |
| `Retry.ClientKeyKeeps` | apps/api/app.py:336-337 | the key is what was sent, without the white space around it and cut to 128 characters, or a default |
| `Retry.ClientKeysDiffer` | apps/api/app.py:336-337 | two keys count as the same exactly when they agree so far |
| `Retry.RaceLosesOne` | apps/api/app.py:346-386 | two requests, one run, one error |
| `Retry.RecoveredKeyFails` | apps/scheduler/scheduler.py:145-161 | a lone request with the identifier of a recovered successor as its key is refused |
| `Retry.Endpoint.RecoverRun` | apps/scheduler/scheduler.py:145-161 | the scheduler's successor with its row in the same unique column |
| `Retry.Endpoint.Request` | apps/api/app.py:336-386 | alone, a request is answered with the existing run, makes run and outbox row when its key is usable, and fails otherwise |

## Left out

* The chat bot's commands, which commit and publish by themselves: `/ask` and `/task` create runs without an outbox row,
  `/resume` writes PAUSED to QUEUED.  Their stream entries are the `ForeignAdd` step; their writes to runs are not steps,
  so "every reachable state" means every state the API, the scheduler and the workers reach.
* The agent scorer and the room cursor.
* The legacy list queue, trimming of the stream, malformed stream entries.
* Liveness of the outbox: the head of 20 rows and the skip after ten attempts can block a row; only safety is proved.
* Commits whose outcome the client does not learn; a second scheduler running at the same time.
* SQLite fallbacks: `updated_at` in place of the heartbeat, `MAX + 1` in place of the identity column.
* The branch for a deleted task; run rows are never deleted.
* `control_request` is not a column of the model: the pause and stop checks answer arbitrarily.
* Time zones, JSON encoding (payloads are opaque texts), redaction, hashes.
* Event bodies are any one-line JSON object, given as a function of the event.  The id in the browser's storage is
  any text; digits outside ASCII in a cursor are not modelled.
* The reconnect delay of the browser (random and fractional) and its state callbacks.  The event callback is one that
  does not throw: when it throws, the source hands it the same event a second time in raw form.
* Widths of columns other than the outbox key and the nonce; texts that hold a NUL character, which the database
  refuses (a client's retry key may hold one).
* Overrides of the policy with a text that is none of the three verdicts.
* An event sink that fails at PLAN, POLICY_CHECK or AWAITING_APPROVAL: the exception leaves the coordinator.
* The text of the assembled prompt, titles, freshness; tokens are counted by a function that is not modelled.
* Conversion of relevance, confidence and cost from floating point: they are reals.
- Memory.MemoryService.ApproveItem: the class runs one call at a time; overlapping calls are the steps `Look` and `Write`.
- Store.Tables.RecoverStuckRuns: the loop is the round that nothing interrupts; an interrupted one is `ScanExecuting` and
  `RecoverScanned` with other methods in between.
- Promises.ContinuationTellsTheTruth: speaks of the record as the settling worker read it; the lock that orders two
  settling workers is not modelled.
- Store.Tables.ClaimPending: models the XPENDING and XCLAIM path; XAUTOCLAIM is the protocol's `Reclaim` step.
- Canonical.SignedIsWhatIsSent: the key, the bytes of the signature and the request itself are not modelled.
- Nonce.CommittedNoncesIncrease: one transaction uses one room and identity.
- Windows.RateLimiter.Check: the Redis counter is not modelled, only the window in memory.
