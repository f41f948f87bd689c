# Verification of the agent store, the training worker and their helpers

This project models the parts of the repository whose correctness is a matter of state, order and
crashes, and proves what they promise for every input and every run.

* **The durable Agent Run protocol.** A Run is a directory of small files. Every store operation is a
  plan, the list of its file writes in the order in which the code performs them; a crash or a refused
  write leaves a prefix of the plan. Each write is shown to be guarded (`RunStoreInvariant.Legal`), and
  everything said about histories follows by induction over guarded writes, so a crash may fall between
  any two writes of any operation. The classes `AgentRunStore`, `DevOpsTools`, `AgentExecutionService` and
  `SseStream` are the code itself, step by step, proved to perform exactly these plans; `StoreOutcomes` says
  what each of them answers and leaves behind without naming its plan.
* **Interrupted training.** A worker process is a list of effects (a metric emitted, a directory
  published, `LATEST` moved, a directory half removed, a directory removed). SIGKILL leaves a prefix,
  SIGTERM is noticed at the end of a step, and directories may be damaged between sessions. Any run that
  ever succeeds ends in the state and with the metric list of the uninterrupted run.
* **Algorithms with a specification of their own**: the schema normaliser, the explicit-stack measure, the
  overlapping windows, the tokenizer, the interleaved shards, the thermal guard, the process search,
  publication by rename, and the printing and parsing of server-sent events.

Digests are constructors (`Sha256(x)`), which is the assumption that they do not collide. Instants are
whole microseconds. A training step is any deterministic function.

## Findings

Where the code does not do what one might expect of it, the code is modelled and the exact condition is
proved.

* `append_event` writes its timestamp without validating it: the Run loads back exactly when the timestamp
  lies between creation and deadline (`AppendLoadsBackIff`), and a late one closes the Run for good
  (`LateEventBricksRun`).
* A retry of a crashed creation finds the first Run exactly when its fourth write had landed; after exactly
  three there are two Runs (`RetryAfterCrash`). A Run whose creation crashed before the last write never gets
  a log and cannot expire (`RunWithoutLogIsStuck`), and it aborts recovery as soon as it is due (`Recover`).
* The cursor guard at `src/tinyllm/agent/store.py:232` never fires (`AppendAccepted`).
* A stored approval is resumed exactly when the POST that stored it lived past its last write and no task of
  the Run was executing at that moment (`ResumedIff`). So a crash between storing and resuming is final
  (`CrashBeforeResumeIsFinal`), and so is an approval that arrives while a task still executes: the POST is
  answered with a refusal, the decision stays, and no later POST resumes it (`BusyApprovalIsFinal`).
* A failure that is recorded after the deadline lands its event and then cannot record the failure: the Run
  never loads again (`FailOutcome`, `LateFailureBricksRun`), and every later recovery is abandoned
  (`LateFailureAbortsRecovery`).
* `CheckpointStore.save` refuses an existing directory. So a SIGTERM that is noticed on a save boundary does
  not stop safely, whatever `docs/m1_training_contract.md:166` says of safe boundaries. `SessionOutcome`
  gives every exit as an if-and-only-if. A run can still be completed exactly when nothing was started, or an
  intact checkpoint exists and no directory stands on a save boundary after the newest one or at the last
  step (`CompletableIff`); the three dead ends are a start without a checkpoint (`BareForever`), an occupied
  last step (`LastStepForever`) and a damaged directory ahead of all intact ones (`BlockedForever`).
* `_atomic_new` takes the same steps as `_atomic_replace`; it replaces an existing file
  (`ReplaceIsAtomic` holds for both).
* Normalising a schema loses nulls (`NullIsLost`), and changes the meaning where a nullable node and its
  concrete branch share an assertion key (`SharedKeyIsOverwritten`); `NormalizePreserves` covers the rest.
* The thermal guard writes its log after the signal. A log that cannot be written after STOP or CONT leaves a
  signal without an entry (`SegmentEnds`); when the start entry itself cannot be written, before the guarded
  part, the process is left running and is sent no signal at all (`TerminatesExactlyIfGuarded`).
* The window loop ends exactly when the overlap is smaller than the window or the text fits one window
  (`Chunks.NeverEnds` for the rest). The search for the backend does not remember what it visited: below a
  start that is its own descendant, and without a match, it never ends (`CycleNeverEnds`).
* The tokenizer round trip holds exactly for texts without U+24FF7 to U+24FF9 (`Tokenizer.RoundTrip`).

## Model

| member | source | states |
|---|---|---|
| RunStoreInvariant.WritesKeepInv | src/tinyllm/agent/store.py:227-298 | Guarded writes keep, at every point of a list of writes: logs numbered 1..n, cursor at most n, pointers naming their own Run, one pointer per key, approvals filed under their own id |
| RunStoreInvariant.LegalPrefix | src/tinyllm/agent/store.py:45-70 | Whatever prefix a crash leaves of guarded writes is guarded writes |
| RunStoreHistory.NewerIsSuffix | src/tinyllm/agent/store.py:271-275 | The filter of a replay is the suffix of the log that starts at the cursor, and empty beyond its end |
| RunStoreHistory.ReplayIsSuffix | src/tinyllm/agent/store.py:259-275 | In every sound state a replay fails exactly without a log file, and otherwise gives that suffix |
| RunStoreHistory.AppendAccepted | src/tinyllm/agent/store.py:227-241 | An append is accepted exactly on a live Run with a log file, with the next number; the cursor-ahead guard never fires |
| RunStoreHistory.PlanIsLegal | src/tinyllm/agent/store.py:94-400 | Every write of every operation is made under its guard, also behind the first writes of the same operation |
| RunStoreHistory.HistoryIsLegal | src/tinyllm/agent/store.py:94-400 | Every history of operations, each cut anywhere, is a sequence of guarded writes and ends in a sound state |
| RunStoreTheorems.HistoryGrows | src/tinyllm/agent/store.py:217-298 | Over every history logs only grow at the end, cursors never fall, decisions and sandbox files never change, closed Runs never change |
| RunStoreTheorems.LogsAreGapless | src/tinyllm/agent/store.py:227-257 | In every reachable state each log is exactly 1..n and its cursor at most n |
| RunStoreTheorems.AcknowledgedAppend | src/tinyllm/agent/store.py:235-257 | An append that returned added exactly its event and left cursor and log length equal; no other Run changed |
| RunStoreTheorems.CrashedAppendIsRepaired | src/tinyllm/agent/store.py:243-254 | After a crash between log line and cursor the event is kept and the next append continues the numbering |
| RunStoreTheorems.ClosedRunIsFrozen | src/tinyllm/agent/store.py:227-229 | Once a Run is terminal its record, log and approvals never change again, over every history |
| RunStoreTheorems.AppendLoadsBackIff | src/tinyllm/agent/store.py:249-254 | The record written by an append loads back exactly when the timestamp is within creation and deadline |
| RunStoreTheorems.LateEventBricksRun | src/tinyllm/agent/store.py:249-254 | A late timestamp leaves a Run that never loads again and never changes again |
| RunStoreTheorems.TimelyRecordsLoad | src/tinyllm/agent/schema.py:475-496 | With timely appends every record on disk meets the rules between fields, on which loading depends here, after every history and crash |
| CreationTheorems.CreationDisk | src/tinyllm/agent/store.py:129-160 | The exact disk after each of the first five writes of a creation |
| CreationTheorems.OnePointerPerKey | src/tinyllm/agent/store.py:111-159 | Over every history with crashes no key hash occurs in two pointers |
| CreationTheorems.CreateBindsKey | src/tinyllm/agent/store.py:111-160 | An answered creation leaves the answered Run bound to the key and the request |
| CreationTheorems.RepeatedCreate | src/tinyllm/agent/store.py:111-121 | After any history the same request gets the same run_id with created=False, another one is refused, and nothing is written |
| CreationTheorems.RetryAfterCrash | src/tinyllm/agent/store.py:129-160 | A retry after a crash finds the first Run exactly from the fourth write on; from the third on the first Run has a record |
| CreationTheorems.RunWithoutLogIsStuck | src/tinyllm/agent/store.py:159-160 | A Run whose log was never touched refuses every event, and its expiry, for ever |
| ExpiryTheorems.ExpiryOutcome | src/tinyllm/agent/store.py:313-340 | Expiry is refused exactly without a loadable record, or when due without a log; else its nested writes amount to one step to Expired at the deadline |
| ExpiryTheorems.FailOutcome | src/tinyllm/agent/api.py:151-159 | Recording a failure of a live Run lands the event; the Run ends failed exactly when both readings of the clock lie between creation and deadline, else the call is refused, and the record still loads exactly when the first reading does |
| ExpiryTheorems.LateFailureBricksRun | src/tinyllm/agent/api.py:158-159 | A failure recorded after the deadline leaves a Run that never loads again, over every history |
| StoreOutcomes.CreateOutcome | src/tinyllm/agent/store.py:94-162 | When a creation is refused, when it answers with the Run that holds the key, and the whole directory of a new Run, which expires expires_in after its creation and loads |
| StoreOutcomes.AppendOutcome | src/tinyllm/agent/store.py:217-257 | An event is refused without a write, or ends the log under the next number with the cursor on it; nothing else changes |
| StoreOutcomes.TransitionOutcome | src/tinyllm/agent/store.py:342-390 | For every status: accepted exactly on a live Run, at an instant within its life, with the fields that go with the status; then the record has that status and fields and keeps its identity, life and cursor |
| StoreOutcomes.CancelOutcome | src/tinyllm/agent/store.py:392-400 | A cancelled Run is answered unchanged, a live one becomes cancelled at the given instant within its life, anything else is refused |
| StoreOutcomes.FailElsewhere | src/tinyllm/agent/api.py:151-159 | On a Run that does not load, is terminal or has no log, recording a failure writes nothing |
| StoreOutcomes.DecideOutcome | src/tinyllm/agent/store.py:277-298 | A decision is stored exactly on a Run waiting for its id and call, repeated exactly when it is the stored one, and refused otherwise |
| StoreOutcomes.FirstPost | src/tinyllm/agent/api.py:276-289 | A POST on an undecided id refreshes the Run, and stores the decision about the pending call exactly when the refreshed Run still waits for the id |
| StoreOutcomes.RepeatedPost | src/tinyllm/agent/api.py:266-275 | A POST on a decided id is refused for another decision or key, and otherwise answers the refreshed Run |
| StoreOutcomes.PatchOutcome | src/tinyllm/agent/devops_tools.py:294-366 | A patch is answered exactly with updates, its own approval, a readable source and no conflicting target, and then the sandbox file is the source with the updates; else nothing is written |
| StoreOutcomes.AnsweredPatchStays | src/tinyllm/agent/devops_tools.py:347-366 | The file of an answered patch is there, with that content, after every history |
| ApprovalTheorems.ApprovalIsWriteOnce | src/tinyllm/agent/store.py:284-297 | No history changes or removes a stored decision |
| ApprovalTheorems.ApprovalOrigin | src/tinyllm/agent/store.py:288-297 | Every stored decision was written while its Run waited for that id and that call |
| ApprovalTheorems.SandboxOrigin | src/tinyllm/agent/devops_tools.py:299-358 | Every sandbox file comes from a guarded write of the tool |
| ApprovalTheorems.SandboxWriteWasApproved | src/tinyllm/agent/devops_tools.py:294-365 | End to end: an approved decision for precisely this call was stored while the Run waited for it, and the file is the source of the moment of writing with precisely the approved updates |
| ApprovalTheorems.SandboxIsWriteOnce | src/tinyllm/agent/devops_tools.py:347-358 | A sandbox file once written never changes |
| ApprovalTheorems.OperationsNeverEdit | src/tinyllm/agent/devops_tools.py:342-358 | No write of any operation of the store, the service or the tool edits a source configuration; only maintenance of that very path does |
| ApprovalTheorems.SourcesChangeOnlyByMaintenance | src/tinyllm/agent/devops_tools.py:342-358 | Over every history, cut anywhere, a source configuration that is not maintained is unchanged |
| ApprovalTheorems.PostThatDecides | src/tinyllm/agent/api.py:276-288 | A POST answered as created stored the decision it was asked for, on a Run that had none and still waits |
| ApprovalTheorems.StoredDecisionNeverResumes | src/tinyllm/agent/api.py:266-275 | Once a decision is on disk no POST resumes for it |
| ApprovalTheorems.ResumedAtMostOnce | src/tinyllm/agent/api.py:258-291 | Over every history of POSTs and crashes resume is called at most once per Run and approval |
| ApprovalTheorems.CrashBeforeResumeIsFinal | src/tinyllm/agent/api.py:286-288 | A crash between storing and resuming leaves the decision stored and never resumed |
| ResumptionTheorems.ResumedIff | src/tinyllm/agent/api.py:276-289 | A stored decision is resumed exactly when the step that stored it was a POST that lived past its last write while no task of the Run was executing |
| ResumptionTheorems.BusyApprovalIsFinal | src/tinyllm/agent/api.py:80-86 | A decision stored while a task was executing stays stored and is never resumed, whatever is posted later |
| RunStore.Compose | src/tinyllm/agent/store.py:331-338 | Performing one plan and then the plan made on what it left is performing their composition, with the same crashes |
| RunStore.AgentRunStore.PersistInOrder | src/tinyllm/agent/store.py:146-159 | Exactly the prefix of the writes that the process lives to do lands, and it knows which |
| RunStore.AgentRunStore.Create | src/tinyllm/agent/store.py:94-162 | The scan and the writes perform the creation plan, also when the process dies in between |
| RunStore.AgentRunStore.AppendEvent | src/tinyllm/agent/store.py:217-257 | Performs the append plan: line first, cursor second |
| RunStore.AgentRunStore.Transition | src/tinyllm/agent/store.py:342-390 | Performs the transition plan, with the rules between fields checked before the write |
| RunStore.AgentRunStore.Cancel | src/tinyllm/agent/store.py:392-400 | Performs the cancellation plan, whose outcome is `CancelOutcome`, under any cut |
| RunStore.AgentRunStore.ExpireIfDue | src/tinyllm/agent/store.py:313-340 | Performs the expiry plan: event and transition at the deadline |
| RunStore.AgentRunStore.DecideApproval | src/tinyllm/agent/store.py:277-298 | Performs the decision plan, replays and conflicts included |
| RunStore.DevOpsTools.ApplySandboxConfigPatch | src/tinyllm/agent/devops_tools.py:294-366 | Performs the patch plan, whose outcome is `PatchOutcome`: approval, identity and conflict checks before the one write |
| AgentService.SweepIsPointwise | src/tinyllm/agent/api.py:119-125 | Recovery treats each Run as if it were alone; Runs not listed keep their directories |
| AgentService.ActiveInSweepIff | src/tinyllm/agent/api.py:120-124 | A Run is scheduled exactly when it is created or running and not due; a waiting one stays idle |
| AgentService.SweptTasksAreExact | src/tinyllm/agent/api.py:47-52 | After recovery every scheduled Run has an executing task, a new one where there was none, and no other task is new or changed |
| AgentService.SweptCountExact | src/tinyllm/agent/api.py:119-125 | The answer of recovery is the number of Runs it scheduled |
| AgentService.AgentExecutionService.Recover | src/tinyllm/agent/api.py:116-125 | Over the Runs that have a record: abandoned exactly when some Run cannot be refreshed; disk and tasks are those of the sweep, also up to the Run at which it was abandoned or the process died |
| AgentService.LateFailureAbortsRecovery | src/tinyllm/agent/api.py:119-121 | After a failure recorded late, and any history, every recovery is abandoned |
| AgentService.AgentExecutionService.Resume | src/tinyllm/agent/api.py:80-86 | Refused exactly while a task of the Run executes; else one resuming task |
| AgentService.AgentExecutionService.Cancel | src/tinyllm/agent/api.py:133-137 | Requests cancellation of an executing task and performs the store's cancellation |
| AgentService.AgentExecutionService.FailIfRunning | src/tinyllm/agent/api.py:151-159 | Performs event and failure on a live Run, nothing on a terminal one |
| AgentService.AgentExecutionService.Refresh | src/tinyllm/agent/api.py:127-131 | The answer is the record after expiry, and refusal exactly for a Run that cannot be refreshed |
| AgentService.AgentExecutionService.StoreDecision | src/tinyllm/agent/api.py:266-287 | Performs the approval plan: replay, refresh, pending call and decision |
| AgentService.AgentExecutionService.PostApproval | src/tinyllm/agent/api.py:258-291 | Performs the approval plan, schedules a task exactly when this call stored the decision and none was executing, and is refused when one was |
| EventStream.SseStream.Advance | src/tinyllm/agent/api.py:235-246 | A stream that wakes yields the event of the log behind its cursor, if there is one; with nothing to yield it raises, returns or sleeps exactly as the refreshed record and the connection say |
| EventStream.EveryScheduleKeepsStream | src/tinyllm/agent/api.py:235-246 | Received, in flight and pending events stay one stretch of the log under every interleaving of streams, writers and crashes |
| EventStream.ClientHoldsContiguousEvents | src/tinyllm/agent/api.py:235-246 | From an issued Last-Event-ID, over any interleaving, any lost connections, finished ones included, and any reconnects, the client holds a gapless, repeat-free stretch of the log |
| EventStream.AppendAcknowledges | src/tinyllm/agent/store.py:249-257 | A returned append makes its event acknowledged in the sense of the next theorem |
| EventStream.FinishedStreamMissesNothing | src/tinyllm/agent/api.py:242-243 | A stream that stopped because the Run is terminal has delivered every acknowledged event |
| StreamDelivery.UndisturbedClientDrains | src/tinyllm/agent/api.py:235-240 | A new client that is left alone receives the whole log behind its Last-Event-ID |
| StreamDelivery.EveryClientCatchesUp | src/tinyllm/agent/api.py:235-246 | At any moment of any schedule, a client that reconnects and is left alone ends up with the whole log behind its first Last-Event-ID |
| StreamDelivery.CheckSettles | src/tinyllm/agent/api.py:241-246 | In every schedule a stream with nothing left raises, finishes, is dropped or goes on exactly as the refreshed record and the connection say |
| StreamDelivery.UndisturbedClientFinishes | src/tinyllm/agent/api.py:238-243 | On a terminal Run the stream of an undisturbed client ends, with everything delivered |
| SseRoundTrip.DecimalParses | src/tinyllm/agent/api.py:164-164 | A printed sequence number reads back as itself |
| SseRoundTrip.CutStreamParses | src/tinyllm/agent/api.py:162-164 | A connection cut after any character delivers exactly the frames it carried whole, and the ID of the last one |
| SseRoundTrip.RoundTrip | src/tinyllm/agent/api.py:162-164 | Parsing the printed frames by section 9.2.6 of the WHATWG HTML Living Standard gives the same list of id, type and data |
| SseRoundTrip.ReconnectLosesNothing | src/tinyllm/agent/api.py:233-239 | Cut anywhere and reopened with the Last-Event-ID it left, two connections deliver every frame once |
| SseRoundTrip.EventFrameIsPlain | src/tinyllm/agent/api.py:163-164 | The JSON text of any event is one line, so its frame is always parseable |
| SseRoundTrip.EventsArrive | src/tinyllm/agent/api.py:162-164 | End to end: one message an event, with its number, its type, and data that reads back as the whole event |
| TrainingTheorems.FilterIsPrefix | scripts/run_m1_gpu_interruption_smoke.py:216-218 | Keeping the metrics up to the resumed step is cutting the list there |
| TrainingTheorems.ApplyKeepsSound | scripts/m1_gpu_worker.py:214-266 | Each guarded effect keeps: metrics are the uninterrupted ones 1..n, intact directories hold the uninterrupted states |
| TrainingTheorems.UnpinnedExact | src/tinyllm/training/checkpoint.py:543-553 | The retention list is the unpinned valid directories in ascending order |
| TrainingTheorems.ExpiredAreOlder | src/tinyllm/training/checkpoint.py:554-557 | Retention expires no pinned directory and never the newest valid one |
| Retention.ExpiredIff | src/tinyllm/training/checkpoint.py:542-557 | A directory expires exactly when it is intact, unpinned and has at least keep_last unpinned intact ones above it |
| Retention.RetentionExact | src/tinyllm/training/checkpoint.py:542-557 | Retention leaves everything else as it was, and min(keep_last, count) unpinned intact directories |
| Retention.SaveRetains | src/tinyllm/training/checkpoint.py:190-284 | A completed save adds its directory, moves LATEST and then leaves exactly what retention leaves |
| Retention.BaselineDirectories | scripts/m1_gpu_worker.py:214-295 | The uninterrupted run leaves the unpinned checkpoints of its newest keep_last save boundaries, the pinned one of its last step, and no other directory |
| TrainingTheorems.SaveIsLegal | src/tinyllm/training/checkpoint.py:190-284 | A save to a free name adds its directory, moves LATEST to it and loses only older directories |
| TrainingTheorems.LoopDelivers | scripts/m1_gpu_worker.py:214-295 | Every effect of the loop is guarded; success and safe stop leave a pinned checkpoint of the last reported step |
| TrainingTheorems.LoopEnding | scripts/m1_gpu_worker.py:214-295 | Success and safe stop, each as an if-and-only-if over the directories ahead and the signal |
| TrainingRuns.SessionOutcome | scripts/m1_gpu_worker.py:121-295 | The same for whole processes, fresh and resumed, with the failure to start |
| TrainingRuns.EveryRunIsSound | scripts/m1_gpu_worker.py:175-295 | Over any number of kills, terminations, resumes and damaged directories the controller holds the uninterrupted metrics 1..n, once each |
| TrainingRuns.BaselineSucceeds | scripts/m1_gpu_worker.py:214-295 | The run nobody interrupts succeeds, with the full metric list |
| TrainingRuns.SuccessRefinesBaseline | scripts/run_m1_gpu_interruption_smoke.py:222-260 | A session that succeeds after any history has the metric list, the final state and LATEST of the uninterrupted run |
| TrainingRuns.MergedIsCanonical | scripts/run_m1_gpu_interruption_smoke.py:212-219 | The controller's list is the old metrics up to the resumed step followed by the resumed ones |
| TrainingRuns.LastBoundary | scripts/m1_gpu_worker.py:219-222 | The last save boundary before a step: a multiple of the period at most one period back |
| TrainingRuns.RollbackBound | scripts/run_m1_gpu_interruption_smoke.py:437-439 | Without damage a resume repeats at most one save period, and after more than one period there is a checkpoint |
| TrainingRuns.SafeStopResumesInPlace | scripts/run_m1_gpu_interruption_smoke.py:436-438 | After a completed SIGTERM exit the next resume starts at exactly the last reported step |
| TrainingRuns.BlockedForever | src/tinyllm/training/checkpoint.py:193-198 | A damaged directory on a boundary ahead of all intact ones means that no later session succeeds |
| TrainingRuns.BareForever | scripts/m1_gpu_worker.py:121-175 | Started and without an intact checkpoint: no later session succeeds |
| TrainingRuns.LastStepForever | src/tinyllm/training/checkpoint.py:193-198 | A directory at the last step means that no later session succeeds |
| TrainingRuns.NotCompletableForever | scripts/m1_gpu_worker.py:121-295 | A run outside the condition of the next row never succeeds, whatever is tried, interrupted and damaged |
| TrainingRuns.CompletableIff | scripts/run_m1_gpu_interruption_smoke.py:222-260 | After any history some continuation succeeds exactly when nothing was started, or the newest intact checkpoint has no occupied boundary ahead of it and the last step is free |
| TrainingSpec.LatestValid | src/tinyllm/training/checkpoint.py:483-509 | The highest directory that validates, or none when none does |
| TrainingWorker.Worker.LatestValidStep | src/tinyllm/training/checkpoint.py:495-505 | The descending scan finds it |
| TrainingWorker.Worker.ApplyRetention | src/tinyllm/training/checkpoint.py:542-557 | Performs the removals that `RetentionExact` describes, or the part of them the process lives to do |
| TrainingWorker.Worker.Save | src/tinyllm/training/checkpoint.py:171-284 | Refuses an occupied name without an effect; else performs publish, LATEST, retention |
| TrainingWorker.Worker.TrainFrom | scripts/m1_gpu_worker.py:214-275 | The loop performs exactly the effects of the specification, or the part of them the process lives to do |
| TrainingWorker.Worker.Run | scripts/m1_gpu_worker.py:121-295 | The same for the whole process |
| PublicationTheorems.ReplaceIsAtomic | src/tinyllm/agent/store.py:45-70 | Cut after any step, with or without an I/O error, a reader sees the old or the new file; the new one exactly after a completed success |
| PublicationTheorems.ReplaceOutcome | src/tinyllm/agent/store.py:59-70 | A replacement publishes exactly when its temporary name is free and none of its steps fails |
| PublicationTheorems.CommitIsAtomic | scripts/finalize_m10_devops_content_review.py:60-89 | Cut after any step a reader sees no directory or all three files with matching digests |
| PublicationTheorems.CommitOutcome | scripts/finalize_m10_devops_content_review.py:60-89 | Over a free name a commit publishes exactly when its staging name is free and no step fails; over a taken one it answers, without a step, whether all three files are equal |
| PublicationTheorems.FailureCleansUp | scripts/finalize_m10_devops_content_review.py:86-89 | An I/O error leaves no staging directory |
| PublicationTheorems.AbsentOrComplete | scripts/finalize_m10_devops_content_review.py:72-89 | After any attempts the directory is absent or complete for one of the attempted approvals |
| PublicationTheorems.PublishedIsForever | scripts/finalize_m10_devops_content_review.py:72-78 | Once published it never changes |
| PublicationTheorems.RepeatedCommit | scripts/finalize_m10_devops_content_review.py:72-78 | An equal approval is a no-op, another one is refused, and neither writes |
| Publisher.FileSystem.AtomicReplace | src/tinyllm/agent/store.py:59-70 | The code performs the replacement plan, errors and crashes included |
| Publisher.FileSystem.CommitApprovalDir | scripts/finalize_m10_devops_content_review.py:60-89 | The code performs the commit plan, errors and crashes included |
| JsonMeasure.Measure | src/tinyllm/agent/devops_tools.py:101-116 | The worklist gives the recursive depth, and raises exactly for more than 4096 nodes |
| JsonMeasure.PopAndPush | src/tinyllm/agent/devops_tools.py:106-115 | One round takes one node off what is waiting and loses no depth |
| Json.DumpsIsPrintable | src/tinyllm/agent/api.py:163-163 | Compact JSON text holds no control character |
| JsonReader.DumpsReadsBack | src/tinyllm/agent/api.py:163-163 | The compact text of any JSON value reads back, by the grammar of RFC 8259, as that value with nothing left over |
| SchemaTheorems.UpdateMembers | src/tinyllm/agent/mcp_client.py:181-181 | dict.update: the new fields, and the old ones under other keys |
| SchemaTheorems.PropertyMembers | src/tinyllm/agent/mcp_client.py:165-169 | A map of properties is normalised property by property, also when one is called anyOf |
| SchemaTheorems.NullableNode | src/tinyllm/agent/mcp_client.py:170-182 | A nullable node becomes the conjunction of its siblings and its concrete branch |
| SchemaTheorems.PlainNode | src/tinyllm/agent/mcp_client.py:165-184 | Any other node keeps all its keywords |
| SchemaTheorems.AdditionalPreserved | src/tinyllm/agent/mcp_client.py:165-184 | additionalProperties, read over the sibling properties, keeps its meaning when its schema is normalised |
| SchemaTheorems.NormalizePreserves | src/tinyllm/agent/mcp_client.py:158-184 | Acceptance by the normalised schema implies acceptance by the raw one, and equals it on null-free instances |
| SchemaCalls.PublicCallPassesRaw | src/tinyllm/agent/mcp_client.py:140-156 | A write call that passes the public schema passes the raw one once well-typed internal arguments are added, nulls and additionalProperties included |
| SchemaCases.WriteToolIsCovered | src/tinyllm/agent/devops_server.py:56-64 | The schema of the only write tool, with its free-form updates, is well-formed, has no clash of keys and a plain root, as the previous row assumes |
| SchemaChecks.ReadCallCheck | src/tinyllm/agent/mcp_client.py:140-197 | A tool that only reads has a public schema; what passes it passes the raw one, and without nulls the two agree |
| SchemaChecks.WriteCallCheck | src/tinyllm/agent/mcp_client.py:140-262 | Without nulls a call passes the public schema of the write tool exactly when it passes the raw one with the internal arguments in, and its own values under internal names, if any, are let through as additional properties |
| SchemaCases.NullIsLost | src/tinyllm/agent/mcp_client.py:170-182 | A concrete schema whose null is lost |
| SchemaCases.SharedKeyIsOverwritten | src/tinyllm/agent/mcp_client.py:181-181 | A concrete schema that accepts more once normalised |
| Chunks.Generate | src/tinyllm/agent/evidence.py:119-130 | Where the loop ends, it gives the chunks of the windows, in order |
| Chunks.Chunks | src/tinyllm/agent/evidence.py:116-130 | The same with joined and stripped excerpts |
| Chunks.NeverEnds | src/tinyllm/agent/evidence.py:123-130 | With an overlap not smaller than the window, and more lines than one window, no round of the loop is the last one |
| Chunks.PassageInsideOneWindow | src/tinyllm/agent/evidence.py:123-130 | Any passage of at most overlap + 1 lines lies wholly inside one window |
| Chunks.ConsecutiveWindows | src/tinyllm/agent/evidence.py:124-130 | Neighbours share exactly overlap lines; only the last window reaches the end |
| Chunks.WindowAt | src/tinyllm/agent/evidence.py:124-130 | Where window number i starts and ends |
| Chunks.DefaultCount | src/tinyllm/agent/evidence.py:117-117 | With the defaults, max(1, ceil((n - 5) / 35)) windows |
| Chunks.EveryLineIsIndexed | src/tinyllm/agent/evidence.py:125-127 | Every line that is not blank lies in the range of a chunk whose excerpt contains its stripped text |
| Chunks.EveryChunkIsExact | src/tinyllm/agent/evidence.py:125-127 | The excerpt of every chunk is the stripped text of precisely the lines it names, at most a window of them |
| Chunks.ChunksAreInOrder | src/tinyllm/agent/evidence.py:123-130 | The chunks come in the order of the text |
| Tokenizer.Encode | scripts/run_m2_contamination_smoke.py:59-76 | The loop returns the ids and offsets of the greedy tokens |
| Tokenizer.OffsetsTile | scripts/run_m2_contamination_smoke.py:68-75 | The offsets tile the text in order, without gap or overlap |
| Tokenizer.AtMostOneMatches | scripts/run_m2_contamination_smoke.py:46-50 | At most one special token starts at an index, so table order decides nothing |
| Tokenizer.RoundTrip | scripts/run_m2_contamination_smoke.py:59-76 | Decoding gives the text back exactly when it has none of the three ambiguous characters |
| Sharding.PlacesExact | scripts/run_m5_r3_formal_source.py:138-142 | A shard holds exactly the places of its class, in order |
| Sharding.NoShardIsEmptyIff | scripts/run_m5_r3_formal_source.py:143-144 | No shard is refused as empty exactly when there are at most as many shards as tasks |
| Sharding.EveryPlaceOnce | scripts/run_m5_r3_formal_source.py:138-142 | Every task is in exactly one shard, once |
| Sharding.ShardingKeepsAll | scripts/run_m5_r3_formal_source.py:236-276 | All shards together produce what the tasks produce one by one, whoever takes which task |
| Sharding.RecordsDoNotDependOnShards | scripts/run_m5_r3_formal_source.py:165-276 | The multiset of tasks, stages, stage seeds and records is the same for any two numbers of shards |
| Sharding.MergedRecordsExact | scripts/run_m5_r3_formal_source.py:236-276 | All shards together hold exactly the solver record of each task and the compressor record of each verified one, each under base + index modulo 2^32 of its stage |
| Sharding.SeedsDiffer | src/tinyllm/data/m5_r3_p1.py:184-189 | Fewer than 2^32 tasks have different seeds in the same stage |
| Sharding.RunTask | scripts/run_m5_r3_formal_source.py:236-276 | One task appends its solver record and, when that verifies, the compressor record, each under the seed of its own stage |
| Sharding.RunShard | scripts/run_m5_r3_formal_source.py:138-276 | The worker refuses an empty shard, and otherwise appends the records of its tasks under their global seeds |
| Sharding.ReassemblyIsIdentity | scripts/run_m5_r3_formal_source.py:446-447 | Merging through the id map in canonical order returns the original list |
| Sharding.AcceptedShardsArePermutation | scripts/run_m5_r3_formal_source.py:388-450 | Artifacts that load (src/tinyllm/data/m5_r3_formal_schema.py:234-245) and pass the coverage checks hold each expected task exactly once and no other |
| ThermalGuard.GuardInvariant | scripts/run_m5_formal_campaign.py:88-109 | Pauses and resumes alternate from a pause on, signals match the log, paused is whether the last signal was STOP |
| ThermalGuard.PausesMinusResumes | scripts/run_m5_formal_campaign.py:94-108 | The difference is 1 while stopped and 0 otherwise |
| ThermalGuard.PausedIff | scripts/run_m5_formal_campaign.py:94-108 | Stopped exactly when some sample reached 84 and every later one stayed above 74 |
| ThermalGuard.HotFromPauseToResume | scripts/run_m5_formal_campaign.py:94-108 | Every sample between a pause entry of the log and the resume entry after it is above 74, and the two entries are the samples they were written at |
| ThermalGuard.MaximumExact | scripts/run_m5_formal_campaign.py:93-93 | The reported temperature is the maximum of all samples, floored at 0 |
| ThermalGuard.SegmentEnds | scripts/run_m5_formal_campaign.py:85-114 | Every exit of the guarded part: the polls it completed, then the signal that was sent and not logged, if any, and CONT, TERM and perhaps KILL |
| ThermalGuard.ExceptionContinuesBeforeTerminating | scripts/run_m5_formal_campaign.py:57-67 | Every exception inside the guarded part, at the sensor, the signal or the log, ends with CONT before TERM |
| ThermalGuard.TerminatesExactlyIfGuarded | scripts/run_m5_formal_campaign.py:79-124 | Which exit is taken: it reports exactly when nothing raises and both entries can be logged; TERM is sent exactly after an exception inside the guarded part; when the start entry cannot be logged the process gets no signal |
| ThermalGuard.SegmentGuard.Guarded | scripts/run_m5_formal_campaign.py:87-114 | The loop with its except clause ends in the specified state |
| ThermalGuard.SegmentGuard.RunGuarded | scripts/run_m5_formal_campaign.py:70-124 | The same for the whole segment, with the start and finish entries outside the guarded part |
| ProcessTree.ReadTable | scripts/run_m7_service_validation.py:99-107 | The two dictionaries hold the children and the command of every process |
| ProcessTree.FoundStep | scripts/run_m7_service_validation.py:109-113 | Popping a process and pushing its children finds no process twice and misses none |
| ProcessTree.BackendPid | scripts/run_m7_service_validation.py:91-114 | The search terminates, returns only a matching proper descendant, and raises exactly when none matches |
| ProcessTree.CycleNeverEnds | scripts/run_m7_service_validation.py:108-113 | Below a start that is its own descendant, and without a match, the stack is never empty and what is popped never matches |

## Left out

- RunStore.AgentRunStore.Create: run ids come from the caller, and are refused when their directory exists; the hash prefix and random suffix are not modelled.
- RunStore.DevOpsTools.ApplySandboxConfigPatch: configurations are flat maps of strings; path, symlink, secret and size checks, and the YAML text, are not modelled.
- AgentService.AgentExecutionService.Recover: the order of the listing and the readings of the clock are parameters; what a started task does is left to any caller of the store.
- JsonReader.DumpsReadsBack: how a number prints and reads is a parameter; escaped surrogate pairs, which are never written, are not read.
- EventStream.ClientHoldsContiguousEvents: assumes a Last-Event-ID not beyond the log, as the server issues them; a larger one is not modelled.
- ProcessTree.BackendPid: assumes one row per process, as `ps` prints it, and a start that is not its own descendant; `CycleNeverEnds` shows what happens otherwise without a match, and which of a match and the cycle comes first is not modelled.
- Chunks.Generate: assumes exactly what makes the loop end (`Chunks.Ends`; `Chunks.NeverEnds` covers the rest, without the chunks it yields); line splitting is a parameter.
- SchemaTheorems.NormalizePreserves: covers type, properties, required, additionalProperties, items, anyOf and the independent validation keywords; references, negation and conditionals are outside.
- SchemaCalls.PublicCallPassesRaw: assumes that the root of the raw schema has no anyOf and no independent validation keyword, as the tool servers emit it (`SchemaCases.WriteToolIsCovered`); its properties may have them.
- SseRoundTrip.RoundTrip: starts from characters; UTF-8 encoding and the reconnection time field are not modelled.
- TrainingSpec.LatestValid: damage is always noticed, because every file is hashed; partial bytes of a directory are one damaged state.
- RunStoreTheorems.TimelyRecordsLoad: a record on disk is only known to meet the rules between fields; counters and the patterns of single fields reach the disk unchecked, because an instance passed to `model_validate` is only checked as a whole (`src/tinyllm/agent/store.py:382-384`).
- RunStore.AgentRunStore.Transition: the optional counters it may set are not modelled.
- Record counters, field patterns and time zones of the Run record; the model keeps the cross-field rules of `src/tinyllm/agent/schema.py:475-496`.
- Torn log lines and bit rot: a line is written whole or not at all.
- A failed write is a crash at that write for the disk; that the process goes on afterwards is a further operation of the same history.
- The runtime, the model, LangGraph and MCP sessions: any sequence of store operations.
- The retry loop of MCP calls, secret scrubbing, the UTF-8 size of a JSON payload: they would only add easy members.
- Resume compatibility checks (lineage, configuration, sampler): every resume is of the same configuration.
- Tensors, optimisers, tolerances and GPU queries: a training step is an abstract deterministic function.
- Authentication, routing, HTTP status codes and request validation.
- SQLite ranking, report writers, argument parsing, subprocess launching.
