# Verification of the run coordination core

Agent runs are shared by any number of service instances. Redis holds their state; eleven Lua
scripts change it, each one atomically. Around that core sit the event stream that clients replay
and follow, the text format it travels in, the audit outbox and its relay, and a few small
protocols: the publish script, the per-thread lock slots, the token budgets, the candidate
aggregation and the single-process registry.

Each component has a specification over plain values (a state, its steps, and every sequence of
steps), a class or method in the form of the source that is proved equal to that specification, and
theorems over all inputs, all runs or all reachable states. `dafny verify dfyconfig.toml` checks
everything.

| file | what it holds |
|---|---|
| `Registry.dfy` | the shared store and the scripts as atomic steps |
| `RedisRunRegistry.dfy` | the scripts command by command on the shared hashes, proved equal to those steps |
| `RegistryInvariant.dfy` | the inductive invariant over every interleaving |
| `RegistryHistory.dfy`, `RegistryFencing.dfy`, `RegistryIndexes.dfy`, `RegistryInteractions.dfy`, `RegistryLog.dfy` | what follows from it |
| `RegistryProgress.dfy`, `RegistryEvents.dfy` | exactly what each script accepts, and what callers can count on: leases, takeover, no run stuck, final results, appends that happen once |
| `InMemoryRegistry.dfy` | the single-process registry, and exactly where it agrees with the scripts |
| `Subscriber.dfy`, `SubscriberLoop.dfy`, `SubscriberEnding.dfy`, `SubscriberTheorems.dfy`, `SubscriberNotices.dfy`, `Reconnects.dfy` | the replay loop against a run that changes between its calls: what it delivers, how it ends, when its gap notices are true, what clients that come back receive |
| `SseParser.dfy`, `SsePrinter.dfy`, `SseRoundTrip.dfy`, `SseBreaks.dfy`, `SseFields.dfy` | the text format, in both directions |
| `KafkaRelay.dfy`, `AuditPipeline.dfy` | the outbox relay, and the audit trail from script to Kafka |
| `DurableEventStream.dfy`, `EventReader.dfy`, `RunCoordination.dfy`, `TokenLedger.dfy`, `Collector.dfy`, `CollectorTimes.dfy` | the companions |

A step is one script, one Redis call of a reader, one transaction or one guarded block. Clocks,
replies of providers and brokers, and what other processes do in between are parameters, so a theorem
about all sequences of steps is a theorem about all schedules and all crashes.

## What the code does not guarantee

Each of these is stated by the lemmas named with it: the failing runs, and the exact condition under
which the code does what it should.

- The heartbeat script does not test whether the lease it renews has expired. A late heartbeat revives a
  run whose slot was given away, and the cap is exceeded (`LateHeartbeatBreaksCap`); nothing else can
  exceed it (`CapBrokenOnlyByLateHeartbeat`).
- `start` reads the fence of its new execution from a handle loaded after the script replied. Two
  executions of a run present one fence exactly when no takeover, resume or cancel lies between the
  moments at which their handles took it (`ShareAFenceIff`); fences are distinct when every handle is
  loaded before the next such step (`FencesAreDistinct`). Both may write only if they belong to the
  one instance that owns the run, and the first loaded its handle after the second was granted
  (`BothMayWriteIff`), which does happen (`TwoTasksCanShareAFence`).
- A marker written at the current fence just before a pause holds every reader at that marker, so the
  question behind it is not delivered while the run waits (`QuestionBehindMarkerIsHeld`). A subscription
  to a run that has come to rest ends by itself exactly when no buffered event after its start is such a
  marker (`SettledEndsIff`).
- A reply that is not empty is never checked for a gap, so events trimmed between the gap check and the
  read are passed over without a notice (`OverrunIsSilent`). No event is missed exactly when every read
  finds no more events behind its cursor than the run buffers (`ReplayIsExact`, `NeverOverrunIff`).
- `_replay_gap` reads the stream and, when it is empty, `last_event_id` in a second call. A client that
  subscribes to a fresh run while its first event is appended between the two is told that its position
  is gone although nothing is missing (`FreshRunIsRefused`); the browser takes that for final
  (`frontend/types/chat.ts:928-932`). A gap that ends a subscription is true exactly when this did not
  happen (`GapIsTrueIff`; for one probe, `ProbeReportsIff` and `NoticeIsTrueIff`).
- Notices carry an id as events do, behind everything delivered. A client that comes back after one with
  the last id it was sent skips what lies up to it (`ResumesFromLastEventIff`) and never gets it again
  (`NothingComesBack`), even when the notice was not true (`RefusedClientMissesFirstEvent`). A client that
  stops at notices, as the browser does, receives the log exactly (`ReconnectsReplayExactly`).
- Texts that hold a character Python splits lines at do not survive printing (`GrpcRecoversIff`,
  `BrowserRecoversIff`): JSON printed with its non-ASCII characters kept may hold U+2028. A printed event
  counts as DONE exactly when some line of its body is the marker (`DoneEventIff`), which an ordinary text
  can bring about (`OrdinaryEventCountsAsDone`).
- Two publishes in one microsecond can leave the newer record in the stream but forgotten
  (`TieForgetsARecord`), or later evict the wrong one of the two, so that a repeat is swallowed
  (`TieEvictsTheWrongRecord`). Over a whole run the three structures stay aligned exactly when every new
  record ranks last (`StayAlignedIff`), and hold the same records exactly when every eviction takes the
  oldest in the stream (`StayInStepIff`).
- Cancelling a caller again while it waits for the guard in `_drop_slot_user` leaves its slot listed for good
  (`LeakIsForever`).
- A completion may use more than its estimate, so the charge can pass the limit by exactly such overruns
  (`OverrunBreaksLimit`, `ChargeIsBounded`). A provider reply that is not text is charged before it is
  refused (`Budgets.Complete`).
- A takeover or a resume does not reset `stream_failed` (`StreamFailureStays`), and `set_run_id` is accepted
  on a run that has ended (`EndedRunTakesARunId`; `TerminalIsAbsorbing` therefore excepts the run id).
- A candidate describes itself by the latest evidence of the project whose evidence began last
  (`RepresentativeIsFromNewestProject`), which need not be the latest evidence overall
  (`RepresentativeNeedNotBeLatest`).

## Model

| member | source | states |
|---|---|---|
| RedisRunRegistry.RunRegistry.CreateOrGet | src/service/redis_run_registry.py:238-328 | the create script: refusals, a repeat, a takeover of an expired lease, admission by ZCOUNT, with every write and the reply |
| RedisRunRegistry.RunRegistry.AppendEvent | src/service/redis_run_registry.py:333-355 | the append script: fencing, the DONE refusal while waiting, the dedupe reply, id, trim and mark |
| RedisRunRegistry.RunRegistry.AcquireRunning | src/service/redis_run_registry.py:360-394 | the slot script: the ZCOUNT test, and run, both ZSETs, counters and audit together |
| RedisRunRegistry.RunRegistry.RenewLease | src/service/redis_run_registry.py:399-416 | the heartbeat script: the lease and the scores of the ZSETs that hold the run |
| RedisRunRegistry.RunRegistry.ReleaseLease | src/service/redis_run_registry.py:426-440 | the release script: zero leases, a no-op success while waiting, a refusal once ended |
| RedisRunRegistry.RunRegistry.FinishRun | src/service/redis_run_registry.py:446-488 | the transition script: codes for a repeat, an ended run and a target that is not terminal, and the removal from both ZSETs |
| RedisRunRegistry.RunRegistry.CancelRun | src/service/redis_run_registry.py:494-541 | the cancel script: a new fence, and for a stream an error event and a marker at that fence before the trim |
| RedisRunRegistry.RunRegistry.AssignRunId | src/service/redis_run_registry.py:546-564 | the run id script, which any owner may use at any time |
| RedisRunRegistry.RunRegistry.MarkFailed | src/service/redis_run_registry.py:569-593 | the stream failure script: failure fields set without ending the run |
| RedisRunRegistry.RunRegistry.PauseForInput | src/service/redis_run_registry.py:599-638 | the pause script: idempotent for the same question, conflict for another, event, marks, ZSETs, counters and audit |
| RedisRunRegistry.RunRegistry.ResumeRun | src/service/redis_run_registry.py:644-693 | the resume script: recorded responses, the comparison with the pending question, and the new fence |
| RegistryInvariant.ReachableInv | src/service/redis_run_registry.py:238-693 | after any sequence of scripts by any instances: gapless trimmed logs, exact ZSETs, exact counters, and an outbox that describes every run |
| RegistryInvariant.StepKeepsInv | src/service/redis_run_registry.py:238-693 | each script keeps that invariant |
| RegistryHistory.StepEvolves | src/service/redis_run_registry.py:267-297 | one step: the log only grows, fence and version never fall, an owner change raises the fence, a status change raises the version by exactly one |
| RegistryHistory.TerminalIsAbsorbing | src/service/redis_run_registry.py:262-265 | an ended run never changes again, except for its run id |
| RegistryHistory.EndedRunTakesARunId | src/service/redis_run_registry.py:546-564 | and the run id of an ended run can still be changed by its owner |
| RegistryHistory.StreamFailureStays | src/service/redis_run_registry.py:272-282 | a stream failure is never taken back, neither by a takeover nor by a resume |
| RegistryHistory.OthersUntouched | src/service/redis_run_registry.py:238-693 | a script changes no run but its own |
| RegistryFencing.GrantsIncrease | src/service/redis_run_registry.py:267-297 | every fence handed out for a run exceeds all handed out before |
| RegistryFencing.StaleWriterIsFenced | src/service/redis_run_registry.py:334-338 | once a write passed at a fence, any owner-checked script at a smaller fence changes nothing and gets the refusal code, after any interleaving |
| RegistryFencing.OwnerChangeFences | src/service/redis_run_registry.py:267-297 | a changed owner means a higher fence |
| RegistryFencing.FenceCountsBumps | src/service/redis_run_registry.py:504 | the fence counts accepted takeovers, resumes and cancels and nothing else |
| RegistryFencing.StartedTaskHoldsItsGrant | src/service/redis_run_registry.py:811-820 | the handle loaded by `start` carries the granted fence if and only if no such step came in between |
| RegistryFencing.ShareAFenceIff | src/service/redis_run_registry.py:811-820 | two started executions present the same fence if and only if nothing bumped it between the moments at which their handles took it |
| RegistryFencing.FencesAreDistinct | src/service/redis_run_registry.py:811-820 | executions whose handles are loaded, or overwritten, before the next such step all hold different fences, in the order of their grants |
| RegistryFencing.MayWriteIff | src/service/redis_run_registry.py:334-338 | an execution passes the owner check at a moment if and only if nothing has bumped the fence it read and its instance owns the run |
| RegistryFencing.BothMayWriteIff | src/service/redis_run_registry.py:811-820 | two executions pass at the same moment if and only if one instance owns the run and started both, and nothing bumped the fence since the earlier handle took it; the first handle was then loaded after the second grant |
| RegistryFencing.TwoTasksCanShareAFence | src/service/redis_run_registry.py:811-820 | a run of three steps after which two executions of one instance present fence 2 and may both write |
| RegistryIndexes.ActiveIsExact | src/service/redis_run_registry.py:302-316 | `active` maps exactly the queued and running runs to their leases |
| RegistryIndexes.LiveRunningIsExact | src/service/redis_run_registry.py:371-379 | the unexpired members of `running` are the running runs with an unexpired lease |
| RegistryIndexes.CountsEqualScan | src/service/redis_run_registry.py:302-303 | in one state both ZCOUNTs equal a scan of all runs, and their difference is the live queue |
| RegistryIndexes.ReportedLoadIsScans | src/service/redis_run_registry.py:1252-1273 | the reported load is two scans, each of the runs at its own call, against the clock read before; with no script in between, the queue length is the number of live queued runs |
| RegistryIndexes.AdmissionEqualsScan | src/service/run_registry.py:213-217 | the Redis admission count equals the in-memory scan if and only if no pending lease has expired |
| RegistryIndexes.CountersAreConserved | src/service/redis_run_registry.py:317-318 | each counter is the number of runs in that state, and the seven sum to `retained` |
| RegistryIndexes.CapBrokenOnlyByLateHeartbeat | src/service/redis_run_registry.py:405-414 | one step takes the live running runs past the cap if and only if it is a late heartbeat at the cap |
| RegistryIndexes.CapHolds | src/service/redis_run_registry.py:371-379 | with prompt heartbeats the cap holds at every moment of every run |
| RegistryIndexes.LateHeartbeatBreaksCap | src/service/redis_run_registry.py:405-414 | a run with two live executions under a cap of one |
| RegistryInteractions.PausesAndResumesAlternate | src/service/redis_run_registry.py:605-622 | resumes <= pauses <= resumes + 1, and a run still going is waiting exactly when it owes one answer |
| RegistryInteractions.EachAnswerUsesOneAsking | src/service/redis_run_registry.py:648-678 | an accepted answer uses up one accepted asking of the same question |
| RegistryInteractions.RetriedResponse | src/service/redis_run_registry.py:648-664 | a repeated response starts a second execution if and only if its question is pending again, and otherwise changes nothing |
| RegistryInteractions.StartNeverTakesOverAWaitingRun | src/service/redis_run_registry.py:259-265 | `start` on a waiting run changes nothing |
| RegistryLog.BufferIsContiguous | src/service/redis_run_registry.py:347-350 | the buffer holds exactly the last min(last_event_id, n) ids in order |
| RegistryLog.NoGapMeansAllBuffered | src/service/redis_run_registry.py:1712-1724 | no gap is reported if and only if every id after the cursor is buffered |
| RegistryLog.AcceptedStepsAreAudited | src/service/redis_run_registry.py:384-392 | an accepted lifecycle step appends exactly one lifecycle entry, about its run and its new state; other steps append none |
| RegistryLog.AuditTrailRebuildsEveryRun | src/service/redis_run_registry.py:291-296 | replaying the outbox alone yields status, owner, fence and version of every run |
| RegistryProgress.DeadOwnersRunIsRecovered | src/service/redis_run_registry.py:267-297 | in every reachable state a queued or running run can be recovered: once its lease has ended a matching start by any instance requeues it at the next fence, error cleared and history kept, and with a free slot that instance's execution runs |
| RegistryProgress.NoRunIsStuck | src/service/redis_run_registry.py:238-693 | in every reachable state any instance can bring a run that has not ended to any end in four accepted steps |
| RegistryProgress.TakeoverIff | src/service/redis_run_registry.py:250-300 | a start takes over if and only if it asks for that run, the run is queued or running and its lease has ended; otherwise it gets the run's fence |
| RegistryProgress.AdmittedIff | src/service/redis_run_registry.py:302-328 | a new run is admitted if and only if fewer runs than the limit hold an unexpired lease, and how it begins |
| RegistryProgress.AcquireAcceptedIff | src/service/redis_run_registry.py:361-376 | a slot is given if and only if the owner's run is queued and fewer runs than the cap are live |
| RegistryProgress.LeaseLastsExactly | src/service/redis_run_registry.py:399-416 | a lease given by a start, slot, heartbeat or answer lasts exactly as long as it was asked for |
| RegistryProgress.HeartbeatAcceptedIff | src/service/redis_run_registry.py:399-416 | a heartbeat is accepted if and only if it comes from the run's execution while the run is queued or running, and changes only the lease |
| RegistryProgress.ReleasedIsUpForTakeover | src/service/redis_run_registry.py:426-440 | when a release is accepted, and that the released run can be taken over at once |
| RegistryProgress.TransitionAcceptedIff | src/service/redis_run_registry.py:446-458 | a transition is accepted if and only if it ends, from its own execution, a run that has not ended |
| RegistryProgress.ResultIsFinal | src/service/redis_run_registry.py:446-488 | whatever happens later, an ended run reports the status, result, failure and http status that ended it |
| RegistryProgress.CancelAcceptedIff | src/service/redis_run_registry.py:494-503 | a cancel is accepted if and only if the user may see the run and it has not ended |
| RegistryProgress.CancelIsFinal | src/service/redis_run_registry.py:504-519 | a cancelled run stays cancelled and reports it, and a stream has gained the error event and a marker at the new fence |
| RegistryProgress.RunIdAcceptedIff | src/service/redis_run_registry.py:546-564 | the run id is set if and only if the caller holds the run, and nothing else changes |
| RegistryProgress.StreamFailureAcceptedIff | src/service/redis_run_registry.py:569-593 | a stream failure is recorded if and only if the caller holds a run that has not ended |
| RegistryProgress.OwnerRefusals | src/service/redis_run_registry.py:333-342 | what each refusal of the scripts that check their owner means, in both directions |
| RegistryProgress.UserRefusals | src/service/redis_run_registry.py:249-257 | what each refusal of the scripts that check their user means, in both directions |
| RegistryProgress.RefusalChangesNothing | src/service/redis_run_registry.py:238-693 | a step that is not accepted leaves the store as it was |
| RegistryEvents.AppendAcceptedIff | src/service/redis_run_registry.py:333-355 | when an append is accepted, and that it adds one event with its payload and fence and replies with that event's id |
| RegistryEvents.RepeatedAppendAddsNothing | src/service/redis_run_registry.py:341-344 | after an accepted keyed append and any steps, repeating it adds nothing and gets the id of the first event, as long as the caller may append at all |
| RegistryEvents.PauseAcceptedIff | src/service/redis_run_registry.py:599-622 | when a pause is accepted, and that the run then waits without a lease behind the question event |
| RegistryEvents.RepeatedPauseAddsNothing | src/service/redis_run_registry.py:605-610 | a pause repeated while its question is pending adds nothing and gets the id of the question |
| RegistryEvents.ResumeAcceptedIff | src/service/redis_run_registry.py:644-678 | an answer is accepted if and only if the user may see the run, it waits on that question and the response was not given to another one; and how the run goes on |
| RegistryEvents.NotesAreExact | src/service/redis_run_registry.py:353 | what appends, run ids and stream failures add to the outbox, and that heartbeats and releases add nothing |
| RegistryEvents.PauseNotes | src/service/redis_run_registry.py:623-637 | what a pause adds to the outbox |
| InMemoryRegistry.RunRegistry.CountPending | src/service/run_registry.py:213-217 | the admission scan counts the runs that are neither ended nor waiting |
| InMemoryRegistry.RunRegistry.StartRun | src/service/run_registry.py:194-241 | access and conflict refusals, a repeat, the overload refusal, or a new record |
| InMemoryRegistry.RunRegistry.Pause | src/service/run_registry.py:258-280 | the in-memory pause: repeat, conflict, wrong state, or the new state with its numbered event |
| InMemoryRegistry.RunRegistry.Resume | src/service/run_registry.py:296-328 | the in-memory resume: recorded responses, comparison with the pending question, a new generation |
| InMemoryRegistry.StartAgrees | src/service/run_registry.py:206-241 | while no pending lease has expired both registries decide alike and stay alike |
| InMemoryRegistry.PauseAgrees | src/service/run_registry.py:258-280 | an execution that owns its run gets the same answer from both, and they stay alike |
| InMemoryRegistry.ResumeAgreesIff | src/service/run_registry.py:296-328 | both answer alike if and only if the call is not a recorded response whose question is pending again; there Redis resumes and the in-memory registry does not |
| Subscriber.RegistryIsObserved | src/service/redis_run_registry.py:994-1081 | whatever scripts execute between its calls, a reader sees one run whose log only grows |
| Subscriber.XReadIsSlice | src/service/redis_run_registry.py:1044-1049 | a read returns a contiguous piece of the log, starting at the cursor or at the oldest buffered event |
| Subscriber.ActionOf | src/service/redis_run_registry.py:103-133 | a marker is held exactly at the current fence of a run that goes on, and delivered exactly as the last event of an ended run, at its fence or without one; other events are always delivered |
| Subscriber.DeliverBatch | src/service/redis_run_registry.py:1050-1081 | the inner loop computes where a batch stops and which frames it yields |
| Subscriber.YieldedForm | src/service/redis_run_registry.py:1059-1078 | a processed piece of the log yields its events without markers, and a final marker only at the end; every other marker can never be final |
| SubscriberLoop.Subscribe | src/service/redis_run_registry.py:994-1103 | the whole loop, call by call, computes the specified subscription |
| SubscriberLoop.SubscribedLeads | src/service/redis_run_registry.py:994-1103 | whatever its calls observe: what it has delivered, that nothing is missing exactly when no read was overrun, and how it may end |
| SubscriberEnding.SettledEndsIff | src/service/redis_run_registry.py:1034-1103 | a subscription to a run that has ended or rests in waiting, given time, drains it if and only if no buffered event after its start is a marker at the current fence of a waiting run |
| SubscriberEnding.EndedRunEnds | src/service/redis_run_registry.py:1096-1103 | so a subscription to an ended run always ends by itself |
| SubscriberTheorems.DoneIsFinal | src/service/redis_run_registry.py:103-133 | DONE is emitted only for an ended run, for its last event, as the last frame |
| SubscriberTheorems.NothingFollowsDone | src/service/redis_run_registry.py:339-342 | no later state of the run has an event after an emitted DONE |
| SubscriberTheorems.ReplayIsExact | src/service/redis_run_registry.py:1050-1081 | no event up to the cursor is missing if and only if no read was overrun, however much was trimmed behind the cursor; and then what was emitted is the log after the start, in order, without superseded markers |
| SubscriberTheorems.EveryEventIsDelivered | src/service/redis_run_registry.py:1050-1078 | event by event: a subscription that was not overrun has sent every event it passed, with its id and payload, and of the markers only the one it stopped at |
| SubscriberTheorems.IdleStreamBeats | src/service/redis_run_registry.py:1082-1094 | a client that has everything of a run that goes on gets a heartbeat every four or five calls, and nothing else |
| SubscriberTheorems.NeverOverrunIff | src/service/redis_run_registry.py:1712-1724 | no read was overrun if and only if each found no more events behind its cursor than the run buffers |
| SubscriberTheorems.LargeBufferReplaysExactly | src/service/redis_run_registry.py:1050-1081 | in particular when the buffer holds everything after the start |
| SubscriberTheorems.DrainedMeansComplete | src/service/redis_run_registry.py:1096-1103 | a drained ended run was delivered completely after the start, with DONE if its last event is a marker at its fence; nothing was delivered if nothing came after the start |
| SubscriberTheorems.CancelEndsStream | src/service/redis_run_registry.py:511-518 | a cancelled stream ends with such a marker |
| SubscriberTheorems.ReadSkipsIffGap | src/service/redis_run_registry.py:1712-1724 | a read passes over events exactly when a gap check at that moment reports one |
| SubscriberTheorems.OverrunIsSilent | src/service/redis_run_registry.py:1018-1081 | a subscription that drains an ended run without its first event and without a notice |
| SubscriberTheorems.QuestionBehindMarkerIsHeld | src/service/redis_run_registry.py:1072-1081 | a subscription of any length that never delivers the question behind a held marker |
| SubscriberNotices.ProbeReportsIff | src/service/redis_run_registry.py:1712-1724 | the probe reports a gap if and only if an event after the cursor is missing in the state of its last call, or its first call found the stream empty and its second a new event |
| SubscriberNotices.NoticeIsTrueIff | src/service/redis_run_registry.py:1712-1724 | a reported gap is true, that is an event is missing in the state of the last call, if and only if the first call found entries or the cursor is behind by more than the run buffers |
| SubscriberNotices.NoticesAreLast | src/service/redis_run_registry.py:1006-1028 | a subscription sends a notice exactly when it ends for it, as its last frame, with an id after everything delivered |
| SubscriberNotices.NoticeNamesOldest | src/service/redis_run_registry.py:1018-1028 | a gap found by one call on a stream in use names the id before the oldest buffered event, so that it writes off exactly the ids after the cursor that are not buffered; found on an empty stream it names the newest id |
| SubscriberNotices.GapIsTrueIff | src/service/redis_run_registry.py:1018-1093 | a subscription that ends with a gap has missed an event if and only if the run's first events were not appended between the two calls of the probe; so always if the run had an event at the start |
| SubscriberNotices.FreshRunIsRefused | src/service/redis_run_registry.py:1717-1722 | a subscription to a fresh run that ends with a gap although nothing is missing in any state its calls saw |
| Reconnects.ResumesFromLastEventIff | src/service/redis_run_registry.py:1018-1028 | the last id a client was sent is that of the last event delivered to it if and only if it got no notice, and lies behind it otherwise |
| Reconnects.ReconnectsReplayExactly | src/service/redis_run_registry.py:994-1103 | for any number of subscriptions, each from the last id sent to the client, to a run that goes on between them, none overrun and none resumed after a notice: the client gets the log after its start once and in order |
| Reconnects.NothingComesBack | src/service/redis_run_registry.py:1001-1028 | a client that also resumes after notices gets no event twice, and none up to the id it resumed from |
| Reconnects.NoticeSkipsExactlyTrimmed | src/service/redis_run_registry.py:1018-1028 | a client that comes back with the id of a gap found on a stream in use skips exactly the events that were no longer buffered |
| Reconnects.RefusedClientMissesFirstEvent | src/service/redis_run_registry.py:1018-1028 | a client refused as in FreshRunIsRefused that comes back with the id of the notice never gets the run's first event, whatever happens later |
| SseParser.Parser.Feed | frontend/lib/sse.ts:14-21 | after each chunk the parser has emitted the events of all complete blocks of the text so far and kept the rest |
| SseParser.Parser.Finish | frontend/lib/sse.ts:23-29 | at the end it has emitted exactly the events of the whole text |
| SseParser.Parser.Drain | frontend/lib/sse.ts:31-49 | the boundary loop and the flush of an unterminated block |
| SseParser.Parser.ParseBlock | frontend/lib/sse.ts:51-78 | the line loop equals field-by-field interpretation of the block |
| SseParser.ReadStream | frontend/lib/sse.ts:81-104 | for every way of cutting a text into chunks the events are those of the whole text |
| SseParser.ChunkingIsInvisible | frontend/lib/sse.ts:14-49 | two ways of cutting one text give the same events |
| SseParser.HoldBack | frontend/lib/sse.ts:15-17 | keeping a final carriage return back loses nothing and splits no line ending |
| SseFields.FieldsRoundTrip | frontend/lib/sse.ts:51-78 | a stream of blocks of any field lines means what the lines say: texts, last event name and retry time of the block, last id of the whole stream so far, nothing from remarks, unknown fields and malformed values |
| SseFields.BrowserReadsFields | frontend/lib/sse.ts:81-104 | in whatever chunks it arrives |
| SsePrinter.FormatBufferedSse | src/service/sse.py:6-20 | the loop over lines prints the specified text |
| SsePrinter.StampedAt | src/service/sse.py:6-20 | line by line: the first data line that is not the marker may be rewritten, and no other line is |
| SseRoundTrip.StreamRoundTrip | src/service/sse.py:6-20 | a printed stream with heartbeats means exactly its ids and texts in order |
| SseRoundTrip.BrowserRoundTrip | frontend/lib/sse.ts:81-104 | the browser recovers them from any chunks of the printed stream |
| SseRoundTrip.EventMessage | src/service/grpc_runtime.py:185-230 | the bridge's line loop, with its malformed id and unverified DONE |
| SseRoundTrip.ScanMalformedIff | src/service/grpc_runtime.py:193-200 | the bridge gives up on a chunk if and only if the number of some id line cannot be read |
| SseRoundTrip.ScanReadsData | src/service/grpc_runtime.py:201-204 | otherwise it reads the texts of all data lines, in order |
| SseRoundTrip.ScanReadsLastId | src/service/grpc_runtime.py:195-200 | and the number of the last id line |
| SseRoundTrip.GrpcRoundTrip | src/service/grpc_runtime.py:191-207 | the bridge recovers id and text of a printed event, and forwards DONE only for an ended run |
| SseBreaks.GrpcRecoversIff | src/service/grpc_runtime.py:193-203 | the bridge recovers a printed text if and only if it holds no line break of any kind |
| SseBreaks.BrowserRecoversIff | src/service/sse.py:6-20 | the browser gets back what is carried for a text, rewritten or not, if and only if the text is one line |
| SseBreaks.DoneEventIff | src/service/grpc_runtime.py:233-234 | a printed event counts as DONE if and only if some line of its body is the marker |
| SseBreaks.OrdinaryEventCountsAsDone | src/service/grpc_runtime.py:233-234 | any text that holds the marker line between two breaks such as U+2028 and goes on after it counts as DONE once printed, while its message is another one |
| KafkaRelay.AtLeastOnce | src/service/kafka_relay.py:206-249 | whatever relays crash, every entry is acknowledged by Kafka or still in the outbox where it can be fetched or claimed; malformed entries always stay |
| KafkaRelay.NothingInvented | src/service/kafka_relay.py:206-249 | Kafka receives only written, well-formed entries |
| KafkaRelay.PendingEntryIsRecoverable | src/service/kafka_relay.py:206-217 | any relay that is not busy can finish an entry that another fetched |
| KafkaRelay.EveryEntryCanBePublished | src/service/kafka_relay.py:148-249 | in every reachable state any relay that is not busy can bring a well-formed entry to Kafka by its own steps |
| KafkaRelay.SlowRelayDuplicates | src/service/kafka_relay.py:219-249 | a run in which an entry is published twice |
| KafkaRelay.Broker.PublishOne | src/service/kafka_relay.py:236-248 | it succeeds if and only if the send does and nobody else has acknowledged the entry by then, and leaves it in Kafka and gone from the outbox; a send that succeeds adds the entry to Kafka in any case; what happened is a run of the relays' steps |
| KafkaRelay.Broker.PublishEntries | src/service/kafka_relay.py:219-249 | the batch ends early only at a failed send or an entry acknowledged by somebody else; the count is that of the well-formed entries before it, all settled; a relay left alone publishes its whole batch |
| AuditPipeline.AuditedAtLeastOnce | src/service/kafka_relay.py:148-249 | scripts and relays together: every accepted lifecycle step of any run writes one entry in its own step, and whatever follows, that entry is acknowledged by Kafka or still in the outbox |
| DurableEventStream.EventChannel.PublishOnce | src/service/durable_event_stream.py:61-82 | the script's whole effect and reply |
| DurableEventStream.PublishesStayAligned | src/service/durable_event_stream.py:61-82 | under a strictly increasing clock, any publishes with repeats keep stream, hash and order in step, no record twice |
| DurableEventStream.AlignedAgree | src/service/durable_event_stream.py:61-82 | in step means the same record ids in all three |
| DurableEventStream.SizeIsBounded | src/service/durable_event_stream.py:64-77 | none of them exceeds a fixed bound |
| DurableEventStream.RepeatReturnsOriginalIff | src/service/durable_event_stream.py:61-63 | after any publishes under any clock, a repeat of a record in the stream returns the id of its newest item if and only if the hash still holds the record, and then changes nothing |
| DurableEventStream.RepeatReturnsOriginal | src/service/durable_event_stream.py:61-63 | so it always does while stream, hash and order hold the same records |
| DurableEventStream.IncreasingClockInStep | src/service/durable_event_stream.py:61-82 | as they do throughout under a strictly increasing clock |
| DurableEventStream.RecentRecordIsRemembered | src/service/durable_event_stream.py:61-77 | under such a clock a record is remembered, with the id it was first published under, while fewer requests than the bound follow |
| DurableEventStream.StaysAlignedIff | src/service/durable_event_stream.py:64-77 | one publish keeps stream, hash and order aligned if and only if the new record ranks last |
| DurableEventStream.StayAlignedIff | src/service/durable_event_stream.py:61-82 | over a whole run they stay aligned throughout if and only if every new record ranks last |
| DurableEventStream.StaysInStepIff | src/service/durable_event_stream.py:64-77 | one publish keeps the same records in all three, in whatever order, if and only if the channel is not full or the record that ranks lowest is the oldest in the stream |
| DurableEventStream.StayInStepIff | src/service/durable_event_stream.py:61-82 | over a whole run with one bound they hold the same records throughout if and only if every eviction takes the oldest |
| DurableEventStream.TieForgetsARecord | src/service/durable_event_stream.py:64-77 | two publishes in one microsecond after which a record is in the stream but forgotten |
| DurableEventStream.TieEvictsTheWrongRecord | src/service/durable_event_stream.py:64-77 | three publishes, no new record evicted, after which one record is forgotten and a repeat of another is swallowed |
| EventReader.DecodeResponse | src/service/durable_event_stream.py:142-165 | the nested loops yield the entries of the expected kind in order, and the id of the last entry of any kind |
| EventReader.ReadAfter | src/service/durable_event_stream.py:207-219 | one poll: the next entries behind the cursor and the new cursor |
| EventReader.PollsDeliverExactly | src/service/durable_event_stream.py:207-219 | a reader that trimming never overtakes gets every entry of its kind once and in order, however polls and publishes interleave |
| EventReader.PollAdvancesIff | src/service/durable_event_stream.py:142-165 | the cursor moves if and only if an entry of any kind lies behind it, so foreign and malformed entries hold nobody up |
| EventReader.PollSkipsIff | src/service/durable_event_stream.py:207-219 | entries are passed over if and only if trimming has overtaken the cursor |
| RunCoordination.SlotTable.EnterSlot | src/service/run_coordination.py:40-47 | the guarded entry: find or create the slot and count the user |
| RunCoordination.SlotTable.DropSlotUser | src/service/run_coordination.py:22-29 | the guarded exit: count out, and unlist the slot when it was the last user's |
| RunCoordination.MutualExclusion | src/service/run_coordination.py:33-58 | users of one key share a slot, and at most one is in the critical section |
| RunCoordination.LockIsGrantedIff | src/service/run_coordination.py:48-52 | a waiting task gets its lock if and only if no task of its key is in the critical section |
| RunCoordination.EveryWaiterGetsIn | src/service/run_coordination.py:48-58 | any waiting task can get in, at most after one release |
| RunCoordination.RunLeavesNoTrace | src/service/run_coordination.py:33-58 | a run on a thread that nobody uses gets in at once and leaves the table as it found it |
| RunCoordination.SameScopeIff | src/service/run_coordination.py:39-40 | runs share a slot key if and only if agent, thread and user agree, no user and an empty one being the same |
| RunCoordination.KeysDoNotShare | src/service/run_coordination.py:41-47 | users of different keys never share one |
| RunCoordination.SlotExistsIff | src/service/run_coordination.py:22-29 | a key has a slot if and only if someone uses it or a user was never counted out |
| RunCoordination.ListedSlotIsOurs | src/service/run_coordination.py:28-29 | the identity test on the way out always succeeds |
| RunCoordination.RemovedOnlyWhenUnused | src/service/run_coordination.py:22-29 | a slot is unlisted only when nobody uses it and its lock is free |
| RunCoordination.LeakIsForever | src/service/run_coordination.py:26-29 | a user never counted out keeps the key listed in every later state |
| RunCoordination.IdleIsEmpty | src/service/run_coordination.py:22-29 | without that, an idle table is empty |
| TokenLedger.Budgets.Preflight | src/repair_executor/a2a_agent.py:345-354 | the reservation transaction: admitted exactly when charge plus estimate fits the limit, and rolled back otherwise |
| TokenLedger.Budgets.Reconcile | src/repair_executor/a2a_agent.py:365-378 | the correction transaction, with the fallbacks for a missing or zero total |
| TokenLedger.Budgets.Complete | src/repair_executor/a2a_agent.py:342-381 | one whole call: its outcome and what it leaves charged |
| TokenLedger.EstimateIsThirdOfText | src/repair_executor/a2a_agent.py:344 | an estimate is a third of the characters, at least one, and 8192 for each image and for the reply |
| TokenLedger.CallCosts | src/repair_executor/a2a_agent.py:365-378 | an admitted call has cost what the usage or else the metadata reports, and its estimate without a report or after a failure |
| TokenLedger.AllAdmittedIff | src/repair_executor/a2a_agent.py:347-354 | reservations in a row are all admitted if and only if together with the charge they fit the limit |
| TokenLedger.ChargeIsConserved | src/repair_executor/a2a_agent.py:345-378 | the charge is the usage of completed calls plus the reservations of in-flight and failed ones, in any interleaving |
| TokenLedger.ChargeIsBounded | src/repair_executor/a2a_agent.py:347-354 | the charge never exceeds the limit plus the overruns of completed calls |
| TokenLedger.OverrunBreaksLimit | src/repair_executor/a2a_agent.py:373-378 | that term is needed |
| TokenLedger.RefusalLiftsByRefund | src/repair_executor/a2a_agent.py:347-354 | a refused request stays refused until some call on its key completes below its estimate |
| TokenLedger.KeysAreIndependent | src/repair_executor/a2a_agent.py:347-378 | whatever a key has been charged, steps that neither reserve on it nor complete its calls leave the charge alone |
| Collector.AggregateCandidates | src/evolution/collector.py:188-256 | the loops list the specified candidates in the order of their keys, and refuse a minimum below two |
| CollectorTimes.CandidatesByTime | src/evolution/collector.py:198-255 | whatever order observations arrive in: a gap is a candidate if and only if some project has evidence observed after all its resolutions; the candidate counts and lists that evidence and those projects |
| CollectorTimes.ProjectCountsIff | src/evolution/collector.py:203-221 | a project counts if and only if it has qualifying evidence after all its resolutions, by time, sequence number, identifier and arrival |
| CollectorTimes.RepresentativeByTime | src/evolution/collector.py:225-228 | a candidate is described by the latest standing evidence of the project whose standing evidence begins last in time |
| CollectorTimes.SortedByTime | src/evolution/collector.py:198-201 | the sort arranges observations by time, and those that sort alike by arrival |
| Collector.KeyBeforeIff | src/evolution/collector.py:224 | gaps are listed by the first part in which their keys differ, and there by the first character |
| Collector.ListIsDetermined | src/evolution/collector.py:223-256 | that order leaves one list for one set of candidates |
| Collector.GroupByGap | src/evolution/collector.py:198-221 | the first loop's dictionaries |
| Collector.ByProjectIsFaithful | src/evolution/collector.py:203-221 | the loop's dictionary lists each project with standing evidence once, with that evidence, in the order in which it began |
| Collector.CandidatesCountStandingEvidence | src/evolution/collector.py:223-255 | a candidate exists if and only if evidence stands after each project's last resolution; it counts that evidence and its projects, and is eligible if and only if the projects reach the minimum |
| Collector.CandidatesListStandingEvidence | src/evolution/collector.py:245-246 | its ids and profiles are those of the standing evidence |
| Collector.RepresentativeIsFromNewestProject | src/evolution/collector.py:225-228 | a candidate is described by the latest evidence of the project whose evidence began last |
| Collector.RepresentativeNeedNotBeLatest | src/evolution/collector.py:225-228 | which is not the latest evidence when an earlier project adds more |
| Collector.ArrivalOrderDoesNotMatter | src/evolution/collector.py:198-201 | permuting observations with distinct sort keys changes nothing |

## Left out

- RedisRunRegistry.RunRegistry.CreateOrGet: agent, thread and timeout fields, timestamps and the lifecycle stream are not modelled; nothing decides on them.
- RedisRunRegistry.RunRegistry.FinishRun: the outbox type of an ended run is one constructor with the status beside it, not the concatenated text; key expiry after retention is left out, so a run has one incarnation.
- RedisRunRegistry.RunRegistry.AppendEvent: the caller's branch for an oversized event is left out; payload texts that strip to the marker are one marker.
- RegistryInteractions.RetriedResponse: assumes that no pause uses a response's dedupe key; pause keys begin with `interaction:` and response keys with `response:`.
- SubscriberLoop.Subscribe: blocking and sleeping are left out; a read that times out is a lost reply, and a state hash that vanished under the reader is not modelled.
- SubscriberTheorems.ReplayIsExact: nothing is claimed of a stream's end marker in general; an execution may append an error after its own DONE.
- InMemoryRegistry.StartAgrees: retention cleanup, timeouts and the execution loop with its generations are left out; only admission, pause and resume are modelled.
- SseParser.ReadStream: texts are sequences of characters, not UTF-16 code units, and `retry` is unbounded where the browser rounds above 2^53.
- SseBreaks.BrowserRecoversIff: asks of the abstract JSON rewriting that it prints no carriage return or newline, and that a text cut at its first break is not carried as the whole text is; a proper piece of a JSON object is no JSON object.
- SsePrinter.FormatBufferedSse: parsing and printing JSON is one abstract function from id and text to an optional text, so the round trips ask that its result be one line.
- SseRoundTrip.EventMessage: the JSON payload and timestamp of the message are left out; Python's `int` is a parameter that must read decimal numbers back.
- KafkaRelay.Broker.PublishEntries: batch sizes, the claim interval and cursor, and shutdown are left out; a relay that stops early is a crash.
- DurableEventStream.EventChannel.PublishOnce: expiry and the configuration checks around the script are left out; the channel's key names are opaque.
- EventReader.DecodeResponse: JSON is abstract, an entry says which kind its payload names; the cursor is a number where the source keeps the stream id as text.
- RunCoordination.SlotTable.EnterSlot: the PostgreSQL advisory lock behind the local lock is left out; slot objects are numbers, so the identity test compares numbers.
- TokenLedger.Budgets.Complete: the key is the text that is hashed, and the hash is taken to be injective; the usage log file and the table of repair jobs are left out.
- Collector.AggregateCandidates: a candidate's identifiers and profiles are sets rather than sorted lists, and its digest, a hash of fields the model keeps, is left out. Digests are ordered as numbers; sorting itself is a specified stable insertion, not Python's algorithm.
- Display projections, status snapshots, `wait_terminal`, cancellation watching and the lease loop's timing: no state beyond the scripts they call.
- Graders, sandboxes, Kubernetes jobs, authentication, frontend components and configuration: other parts of the repository.
