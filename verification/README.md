# Verified models of the agento framework

Agento runs coding agents as jobs. This project models, in Dafny, the parts of its Python
framework where several threads or several calls must keep a promise together, and proves the
promises. Each module names the file it models.

- **Live deltas.** `SecretRedaction`, `LiveText`: exact-string redaction, and why text that is
  cut into pieces at any moment never shows a secret to a reader who joins them. `DeltaWorker` is
  the bounded queue with its gap markers, live-text buffers and paced batches, as a class proved
  against functions. `DeltaSystem` puts producers and the writer thread around it: drawing a
  number and offering the record are two steps, and every list of events is an interleaving.
  `DeltaLedger`, `DeltaText` and `DeltaContent` are what each step keeps; `DeltaPromises` proves
  from them stream order, loss accounting, what the records show, and bounds on the worker itself.
  `DeltaCalls` says what one call and one pass do, without the worker's functions, and `WriteRate`
  is the amortised rate. `Handover` is the generation-guarded change of writer threads, one step for
  each lock, check, call and return.
- **Orders.** `TopoOrder` says what the least dependency-respecting order is and why choosing the
  least ready node finds it; `Sorting` is Python's sort. `ModuleOrder` (the fixpoint and Kahn's
  algorithm over modules, and the search for dependents) and `PatchOrder` (data patches) are
  proved against it.
- **Copy-back and retention.** `PersistentHome` models a directory as a map from paths to entries
  with bytes and mtimes, and copies what a run left back into `state/`; `ArtifactsRetention` prunes
  run directories over it, with the cached name index and every point of failure.
- **Jobs.** `RetryPolicy`, `Defer` and `JobLifecycle` are the decisions and the transactions on one
  row, `JobCalls` says what each comes to; `JobRuns` is every order of claims, runs, finalizers,
  recoveries, pauses, edits and deferrals of one job.
- **Two smaller ones.** `ConnectionPool` interleaves checkouts of the connection pool with
  `close_idle`, and `PoolCheckouts` follows one of them; `ConfigPath` parses config paths and turns
  them into environment keys and back.

`Wrappers`, `Text` and `JobModels` are shared. Fields named `seq` in the source are `num` here.

## What turned out otherwise

- `resolve_patch_order` also raises its cycle error without a cycle: when a patch names one
  pending requirement twice (`PatchOrder.ResolvedMeans`, `PatchOrder.RepeatIsRefused`).
- `get_transitive_dependents` lists its target when the target is on a cycle, against its docstring
  (`ModuleOrder.TargetListedIffOnCycle`).
- The round trip of config keys needs more than "no hyphens": no upper case and no underscore before
  an underscore or a slash either (`ConfigPath.RoundTripExactly`).
- A finalizer that comes late, after its job was recovered and claimed again, looks at its own attempt
  and not at the row's, so a job can get more attempts than its limit and its resumes
  (`JobRuns.StaleFinalizerAddsAnAttempt`). `JobRuns.AttemptLimitExactly` says by how many, and that
  it takes a retry of a row with no attempt left.
- A run that writes to its row after the job went on can leave a foreign session or a second runtime
  (`JobRuns.StaleSaveIsForeign`, `JobRuns.StaleResolveUnsticks`). `JobRuns.HomelyExactly` says which
  writes do the first, `JobRuns.StickyExactly` which do the second.
- A connection is lost, neither closed nor pooled, when a `BaseException` that is no `Exception`
  leaves the ping, the preparation of an idle connection or the return, and only then
  (`ConnectionPool.ConnectionsAreConserved`, `ConnectionPool.InterruptedReturnLoses`). One that is
  returned after a `close_idle` is out of reach of the next (`ConnectionPool.ReturnAfterCloseStrays`);
  `ConnectionPool.ReachableExactly` says which events put one there, and none does where each
  `close_idle` comes with no checkout outstanding (`ConnectionPool.QuietClosesLeaveNone`).
- A sink that raises past `except Exception` ends the writer thread with its queue unwritten
  (`Handover.ShutdownDrains`).

## Model

| member | source | states |
|---|---|---|
| `SecretRedaction.RedactSecret` | src/agento/framework/secret_redaction.py:13-20 | The loop computes one leftmost, non-overlapping replacement pass per non-empty secret, in order. |
| `SecretRedaction.RedactIsClean` | src/agento/framework/secret_redaction.py:13-20 | No secret occurs in the redacted text, whatever the order and overlaps of the secrets, when none is empty or holds `*`. |
| `SecretRedaction.CleanIsFixed` | src/agento/framework/secret_redaction.py:13-20 | A text without a secret comes back unchanged. |
| `SecretRedaction.RedactBeforeMask` | src/agento/framework/secret_redaction.py:13-20 | Up to the first `*` of the result, the result is the text: the fact the flush relies on. |
| `SecretRedaction.RedactDoesNotGrow` | src/agento/framework/secret_redaction.py:13-20 | With secrets of at least three bytes the result has no more bytes than the text. |
| `SecretRedaction.RedactFirst` | src/agento/framework/secret_redaction.py:10-20 | What one secret becomes: three stars at its first place, and so on in the rest after it. |
| `Text.Utf8Cut` | src/agento/framework/execution_deltas.py:157-161 | The longest prefix of whole characters within the byte limit (sizes as in section 3 of RFC 3629). |
| `LiveText.ComputeHeldBack` | src/agento/framework/execution_deltas.py:79-90 | The two loops, longest candidate first, compute `HeldBack` over all secrets. |
| `LiveText.HeldBackMeans` | src/agento/framework/execution_deltas.py:79-83 | What is held back is a proper prefix of a secret, and no longer suffix is one. |
| `LiveText.FlushKeepsGuarded` | src/agento/framework/execution_deltas.py:168-185 | Whatever arrived, one flush keeps the segment guarded: written text and tail hold no secret, and none can be completed from before the tail. |
| `LiveText.StreamedTextIsClean` | src/agento/framework/execution_deltas.py:79-90 | For every chunking and every choice of flush times the joined pieces of a segment hold no secret. |
| `LiveText.CleanTextIsWritten` | src/agento/framework/execution_deltas.py:168-185 | A segment without secrets is written completely and in order, up to the tail that the final flush drops. |
| `DeltaWorker.Worker.OfferRecord` | src/agento/framework/execution_deltas.py:116-130 | The whole new state: the open segment is settled, a number that a flush overtook is drawn again, the record joins the queue. |
| `DeltaCalls.OfferMeans` | src/agento/framework/execution_deltas.py:116-135 | Told without the worker's functions: the record is last in the queue, itself but for a number a flush has passed; its run has no open segment left; all else that joined is a piece of a segment it does not replace; the oldest record goes only at the ceiling. |
| `DeltaWorker.Worker.AppendLocked` | src/agento/framework/execution_deltas.py:132-135 | A full queue loses its oldest record, which is marked, before the new one joins. |
| `DeltaWorker.Worker.MarkGapLocked` | src/agento/framework/execution_deltas.py:195-213 | One marker per execution, none for partials, the oldest evicted at the ceiling. |
| `DeltaCalls.MarkMeans` | src/agento/framework/execution_deltas.py:195-213 | No second marker for a run and none for a partial; else one with the run and number of the lost record and nothing else, the longest waiting one going at the ceiling. |
| `DeltaWorker.Worker.OpenRun` | src/agento/framework/execution_deltas.py:137-139 | A fresh buffer for the execution, with the run's counter. |
| `DeltaWorker.Worker.CloseRun` | src/agento/framework/execution_deltas.py:141-146 | The open segment is flushed for good and the buffer removed. |
| `DeltaCalls.OpenMeans` | src/agento/framework/execution_deltas.py:137-139 | A run that opens has nothing buffered, its own secrets and counter and the last turn; no other run, queue or marker changes. |
| `DeltaCalls.CloseMeans` | src/agento/framework/execution_deltas.py:141-146 | The run is gone, the buffers and turns of the others stay, and at most one record of its open segment joins the queue. |
| `DeltaWorker.Worker.OfferText` | src/agento/framework/execution_deltas.py:148-166 | A change of kind flushes, the piece is cut and appended, a buffer at its limit is flushed at once. |
| `DeltaCalls.SpeakMeans` | src/agento/framework/execution_deltas.py:148-166 | Told without the worker's functions: the piece joins a buffer of its kind whose wait began with the first piece, another kind's buffer is closed first, and below the limit nothing more happens; at it the buffer is closed or restarted with the start of a secret. |
| `DeltaCalls.CutMeans` | src/agento/framework/execution_deltas.py:157-161 | The piece kept is all of the text if and only if it fits in the limit, else the longest head that does. |
| `DeltaWorker.Worker.FlushLocked` | src/agento/framework/execution_deltas.py:168-185 | The whole new state of a flush; what its text may be is `DeltaPromises.EveryPieceIsClean`, `DeltaPromises.LiveTextIsClean` and `DeltaPromises.LiveTextIsTold`. |
| `DeltaCalls.FlushMeans` | src/agento/framework/execution_deltas.py:168-185 | Nothing else changes and no record leaves; at most one joins, of this run and kind with the next number; the segment is closed or, when it may stay open, restarted with the start of a secret. |
| `DeltaWorker.Worker.FlushDueLocked` | src/agento/framework/execution_deltas.py:187-193 | Every due segment is flushed, in the order the runs were opened. |
| `DeltaWorker.Worker.TakePass` | src/agento/framework/execution_deltas.py:222-250 | One pass of the loop. It waits only if not stopping with less than a batch and nothing due, ends only if stopping with nothing left, and a batch is full, due or of a stop, and moves the deadline. |
| `DeltaCalls.PassDecides` | src/agento/framework/execution_deltas.py:222-250 | Over what waits once the due text has joined: `Wait` if and only if not stopping, less than a batch and nothing or the deadline ahead; the end if and only if stopping and nothing waits; else the head of the line, markers first, up to a batch. |
| `DeltaCalls.PassFlushes` | src/agento/framework/execution_deltas.py:187-193 | A segment that is due by age, size or stop is closed by the pass or restarted with the start of a secret; every other one is left alone. |
| `DeltaCalls.DueTextJoins` | src/agento/framework/execution_deltas.py:222-234 | All that joins the queue in a pass are pieces of segments that were due, behind the rest. |
| `DeltaWorker.Worker.Discard` | src/agento/framework/execution_deltas.py:252-256 | Queue, markers and buffers are emptied, nothing else changes. |
| `DeltaSystem.StepIsTheWorkers` | src/agento/framework/execution_deltas.py:116-250 | The histories kept beside the worker change nothing in it: each of the seven events does what the worker's operation computes. |
| `DeltaPromises.StreamOrder` | src/agento/framework/execution_deltas.py:116-135 | Under every interleaving of draws, offers, flushes and batches, what was taken has rising numbers per execution, markers included. |
| `DeltaLedger.NumberedIsLast` | src/agento/framework/execution_deltas.py:125-129 | After the renumbering the record stands above every number of its execution that is queued, taken or dropped. |
| `DeltaPromises.LossAccounting` | src/agento/framework/execution_deltas.py:195-213 | Every complete record offered is in exactly one of taken, queued and dropped; each dropped one is covered by a marker of its own execution with no larger number, evicted, pending or taken before any later record, nothing written lies in the hole between them, and every marker stands for a dropped complete record. |
| `DeltaPromises.EveryPieceIsClean` | src/agento/framework/execution_deltas.py:168-185 | Under every run, each partial record taken or queued has some text and no tool, and shows no secret of its run; a marker shows nothing. |
| `DeltaPromises.LiveTextIsClean` | src/agento/framework/execution_deltas.py:148-193 | The partial records of a segment that lost no piece, joined over all that was taken and queued, are of its kind, are what its flushes cut off, and show no secret. |
| `DeltaPromises.LiveTextIsTold` | src/agento/framework/execution_deltas.py:148-193 | If no secret was spoken they say what was spoken, in order; what is missing is in the open buffer or, after the last flush, the start of a secret. |
| `DeltaPromises.MemoryIsBounded` | src/agento/framework/execution_deltas.py:132-193 | Queue and markers keep their ceilings, `size` is the buffer's size in bytes and below the limit, every partial is below twice the limit. |
| `DeltaPromises.BatchIsBounded` | src/agento/framework/execution_deltas.py:242-250 | A batch has between one and `BATCH` records. |
| `WriteRate.PassIsSpaced` | src/agento/framework/execution_deltas.py:222-250 | A batch is full or does not come before the deadline, which it moves one interval past its own clock. |
| `WriteRate.WriteRateIsBounded` | src/agento/framework/execution_deltas.py:52-57 | Over any run without a stop and with a clock that does not go back: batches are at most 1 + span/interval + rows/BATCH. |
| `Handover.WritesAreCurrent` | src/agento/framework/execution_deltas.py:262-277 | A sink write runs under the handover lock with its generation current from the check to the return; no step moves the generation meanwhile. |
| `Handover.OneThreadLives` | src/agento/framework/execution_deltas.py:318-341 | At most one writer thread is alive, so a replacement starts only once the previous one is dead. |
| `Handover.SyncReplaces` | src/agento/framework/execution_deltas.py:318-341 | When a `sync` with a sink returns, the worker serves that sink if and only if no stop found the old thread alive after its join: a live worker of the same declaration goes on, else a new thread is the worker and all others are dead; one that outlived the join stays and none is started. |
| `Handover.StopLeavesNone` | src/agento/framework/execution_deltas.py:325-346 | After a `sync` without a sink or a shutdown there is no worker and no live thread, if and only if no stop found the thread alive after its join. |
| `Handover.NoWriteAfterStop` | src/agento/framework/execution_deltas.py:357-379 | When a stop returns its worker writes nothing more, also when the thread outlived the join. |
| `Handover.DiscardClosesTheDoorFirst` | src/agento/framework/execution_deltas.py:363-367 | After the first bump of a discarding stop its worker writes nothing more. |
| `Handover.ShutdownDrains` | src/agento/framework/execution_deltas.py:344-346 | A shutdown whose join finds the thread dead leaves nothing queued; every record offered while the thread lived was in a batch and every batch was written, unless an earlier stop had shut the worker out or a write ended the thread; then all batches but that one were written. |
| `Handover.ShutdownWritesAll` | src/agento/framework/execution_deltas.py:344-379 | A shutdown as a whole, from its call to its return with the thread found dead: it discards nothing, all records offered and not cleared before were in batches, and all batches of a current worker were written, but for one whose write ended the thread. |
| `TopoOrder.GreedyDecides` | src/agento/framework/dependency_resolver.py:96-113 | Choosing the least ready node at every step ends with the least topological order, or there is a cycle and no order. |
| `TopoOrder.GreedyIsUnique` | src/agento/framework/dependency_resolver.py:89-104 | Such a list is determined by the graph and the order alone. |
| `TopoOrder.StuckHasCycle` | src/agento/framework/dependency_resolver.py:106-111 | A list that cannot go on leaves a cycle among the nodes it misses. |
| `TopoOrder.LeastDecides` | src/agento/framework/dependency_resolver.py:96-104 | In the least order a node that could have come where an earlier one stands does not come before that one. |
| `ModuleOrder.KeepSatisfiable` | src/agento/framework/dependency_resolver.py:54-73 | The fixpoint keeps exactly the greatest set of modules whose dependencies lie inside it. |
| `ModuleOrder.Kahn` | src/agento/framework/dependency_resolver.py:78-104 | Counters, repeated dependencies and the re-sorted queue place the least ready module each time, until none is ready. |
| `ModuleOrder.ResolveOrder` | src/agento/framework/dependency_resolver.py:45-113 | The result is the lexicographically least order under (order, name) of that greatest set, or the modules that no order places. |
| `ModuleOrder.ResolveOrderMeans` | src/agento/framework/dependency_resolver.py:45-113 | Raises exactly on a cycle in the kept set; otherwise a permutation of it with every dependency earlier. |
| `ModuleOrder.LowerOrderFirst` | src/agento/framework/dependency_resolver.py:80-104 | A module that could have come where an earlier one stands has a greater order, or the same and a later name. |
| `ModuleOrder.LastOfNameWins` | src/agento/framework/dependency_resolver.py:51-51 | Of two manifests with one name the later one stands. |
| `Sorting.TextLeExactly` | src/agento/framework/dependency_resolver.py:80-104 | Names compare as prefixes or by the first character that differs. |
| `ModuleOrder.AnswerIsUnique` | src/agento/framework/dependency_resolver.py:78-113 | The answer, result or error, is determined by the modules. |
| `ModuleOrder.ListOrderDoesNotMatter` | src/agento/framework/dependency_resolver.py:51-113 | Two lists of the same manifests, each name standing for one, get the same answer. |
| `ModuleOrder.GetTransitiveDependents` | src/agento/framework/dependency_resolver.py:116-142 | The search returns exactly the modules with a chain of dependencies to the target, sorted, each once. |
| `ModuleOrder.TargetListedIffOnCycle` | src/agento/framework/dependency_resolver.py:116-123 | The target itself is listed if and only if it lies on a cycle, where the docstring says never. |
| `ModuleOrder.TargetOnCycleIsListed` | src/agento/framework/dependency_resolver.py:132-142 | Two modules that depend on each other: each is listed among its own dependents. |
| `PatchOrder.Decrement` | src/agento/framework/data_patch.py:124-130 | The inner loop takes one from every patch that requires the placed one and queues those that reach zero. |
| `PatchOrder.ZeroIsReady` | src/agento/framework/data_patch.py:112-130 | A counter is at zero exactly when the requirements are distinct and all placed. |
| `PatchOrder.ResolvePatchOrder` | src/agento/framework/data_patch.py:99-142 | The result is the topological order least by original index of the dependencies as they are counted, or the unplaced patches. |
| `PatchOrder.ResolvedMeans` | src/agento/framework/data_patch.py:132-140 | Raises if and only if there is a cycle or a patch names one pending requirement twice; else the least order. |
| `PatchOrder.RepeatIsRefused` | src/agento/framework/data_patch.py:112-130 | A concrete repeat: no cycle, and still the only answer is the cycle error. |
| `PatchOrder.ValidListIsUnchanged` | src/agento/framework/data_patch.py:90-93 | A pending list that is already valid comes back unchanged. |
| `PersistentHome.NoLinkPath` | src/agento/framework/persistent_home.py:225-236 | `None` exactly when some component leads out of the tree or, the last included, is a link. |
| `PersistentHome.RealFiles` | src/agento/framework/persistent_home.py:239-252 | Every regular file at or under the path, each once, never through a link; none for a path that leads out. |
| `PersistentHome.StateNameIndex` | src/agento/framework/persistent_home.py:146-153 | For each name exactly the files of that name under the persistent paths, each once. |
| `PersistentHome.CoherentIsOne` | src/agento/framework/persistent_home.py:146-153 | Any two indexes that a scan of one `state/` could give hold the same lists as multisets. |
| `PersistentHome.CopyIfNewer` | src/agento/framework/persistent_home.py:292-310 | The three results with their whole effect: replaced, kept because newer, refused at an occupied directory, or an I/O error that leaves every file as it was. |
| `PersistentHome.TargetMeans` | src/agento/framework/persistent_home.py:255-267 | A moved file goes to its place; what lies in its sibling directory goes into the sibling directory there, the first listed directory that holds it and the last relocation that has it deciding; every other path stays. |
| `PersistentHome.StemExactly` | src/agento/framework/persistent_home.py:255-257 | A name's stem ends before its last dot, if a name stands before that and a suffix behind it. |
| `PersistentHome.SessionRelocations` | src/agento/framework/persistent_home.py:115-143 | Only answers that name two different files, there without a link on the way, become relocations, one for each file of the run at most; of two for one file the later stands, and none is left out. |
| `PersistentHome.CopyBack` | src/agento/framework/persistent_home.py:156-201 | Known sessions: files in `state/` are only replaced by newer ones, every file there was there before or is a file of the run sent there, and each source is saved, a conflict at an occupied directory, or the call broke on a fault. |
| `PersistentHome.CopyBackNamed` | src/agento/framework/persistent_home.py:174-201 | Unknown sessions: nothing in `state/` is overwritten, what is new there is a file of the run at its own path, the index stays what a fresh scan gives also after a part-way failure, a file is not a conflict only if `state/` has its name once with its bytes. |
| `PersistentHome.SettledStays` | src/agento/framework/persistent_home.py:187-198 | A file saved under a new name changes no verdict given before. |
| `PersistentHome.LearnIsCoherent` | src/agento/framework/persistent_home.py:194-195 | Appending the saved path keeps the index what a scan would give. |
| `ArtifactsRetention.Batches` | src/agento/framework/artifacts_retention.py:164-173 | The same items in the same order, all batches but the last full, none empty. |
| `ArtifactsRetention.Pruner.PathsToSave` | src/agento/framework/artifacts_retention.py:221-238 | The paths of the row's harness or of all; `None` and a kept dir when they are unknown. |
| `ArtifactsRetention.Pruner.SaveSessions` | src/agento/framework/artifacts_retention.py:241-277 | `True` only when nothing in the directory can be lost, and `False` only for a cause: a fault, a file in the way of a directory, or a file of the run that the `state/` it left cannot take. With no harness known it used an index, the cached one if there is one, that equals a fresh scan; the cache is right before and after, on every exit. |
| `ArtifactsRetention.Pruner.PruneRunDir` | src/agento/framework/artifacts_retention.py:151-161 | The directory is saved before its removal begins, or kept with one reason that is the case; a dry run changes no file. |
| `ArtifactsRetention.Pruner.PruneCandidate` | src/agento/framework/artifacts_retention.py:61-80 | Only a directory that is expired, also by its locked row, is looked into; nothing but files of the run comes into the `state/` of its view, and the cache holds no other view. |
| `ArtifactsRetention.Pruner.PruneRunDirs` | src/agento/framework/artifacts_retention.py:43-80 | Over a whole prune: every index used equals a fresh scan, each removal with no harness known was checked against one, every removal was safe and stays so to the end; and every due directory is gone, or was refused for a reason that is the case, by the `state/` its save left: paths unknown, a save that was hindered or contested, or a removal that failed. |
| `ArtifactsRetention.NewEnoughStays` | src/agento/framework/artifacts_retention.py:259-267 | What a run of a known harness left still has, at the end of the prune, a file in `state/` at least as new at its target. |
| `ArtifactsRetention.BytesStay` | src/agento/framework/artifacts_retention.py:252-258 | What an unknown run left still has its bytes there, or a file newer than the one that had them. |
| `RetryPolicy.RetriesExactly` | src/agento/framework/retry_policy.py:29-123 | Retry if and only if an attempt is left and the failure may pass; 1, 5 and then 30 minutes, never falling with the attempt. |
| `RetryPolicy.UncountedWaitsLongest` | src/agento/framework/retry_policy.py:69-70 | At attempt 0 the index goes round to the last delay, which is why RUNNING must imply attempt at least 1. |
| `JobLifecycle.JobStore.Claim` | src/agento/framework/consumer.py:733-802 | Status, attempt, session and the snapshot handed to the worker; a claim the column cannot count changes nothing. |
| `JobCalls.ClaimMeans` | src/agento/framework/consumer.py:733-802 | The row runs, one attempt on, and its run holds what the row holds, the session included unless the job was moved to a thread of its own. |
| `JobCalls.RetryResumes` | src/agento/framework/consumer.py:1194-1214 | A claimed job resumes its stored session if and only if it was tried before, has one, was not moved, and process, harness and session file allow it. |
| `JobLifecycle.JobStore.ResolveRuntime` | src/agento/framework/consumer.py:928-1001 | A committed runtime is reused as it is, else the answer is committed in all three columns; an unknown pin is refused, and so is a provider with no harness by the lookup that follows. |
| `JobRuns.SnapshotIsWhole` | src/agento/framework/consumer.py:961-973 | No row ever has a provider without a harness. |
| `JobLifecycle.JobStore.Transition` | src/agento/framework/consumer.py:1647-1680 | The status, the refund with its floor and the session that survives. |
| `JobLifecycle.JobStore.FinalizeJob` | src/agento/framework/consumer.py:1754-1963 | The whole row after the decision in its order; where that leads is `JobCalls.FinalStatus` and `JobCalls.FinalColumns`. |
| `JobCalls.FinalStatus` | src/agento/framework/consumer.py:1754-1963 | From the outcome alone: SUCCESS if and only if the run succeeded and nobody objected; FAILED if and only if an observer blocked it and no pool is waited for; TODO if and only if one is, or the failure may pass with an attempt left and no wait given up; else DEAD. |
| `JobCalls.FinalColumns` | src/agento/framework/consumer.py:1754-1963 | A pool wait alone gives the attempt back, a success changes no session, a fresh start leaves none, else the run's own session stands if it has one. |
| `JobLifecycle.JobStore.RecoverStale` | src/agento/framework/consumer.py:648-714 | Only a run that ended is recovered; back to the queue while an attempt is left, else DEAD. |
| `JobCalls.RecoverMeans` | src/agento/framework/consumer.py:648-714 | A running job whose process is dead, unowned or overdue goes to TODO while an attempt is left and else to DEAD; only the status changes, and no other row does. |
| `JobLifecycle.JobStore.Pause` | src/agento/framework/job_store.py:30-88 | Only from RUNNING. |
| `JobLifecycle.JobStore.Resume` | src/agento/framework/job_store.py:91-129 | Only a paused job with a session whose run is dead; attempt and session stay. |
| `JobCalls.ResumeMeans` | src/agento/framework/job_store.py:91-129 | It succeeds if and only if the job is paused with a session and a dead process, and then only the status changes; the errors come in this order. |
| `JobLifecycle.JobStore.SetRuntime` | src/agento/framework/job_store.py:132-187 | Only in TODO; the snapshot marker goes, and the session with its harness. |
| `JobCalls.EditMeans` | src/agento/framework/job_store.py:132-187 | Only in TODO; the runtime is uncommitted, what is not given stays, the session stays exactly if the harness does, and clearing clears all three. |
| `JobRuns.AttemptConservation` | src/agento/framework/consumer.py:247-252 | In every reachable state: attempt = claims - refunds; attempt (+1 in TODO) = 1 + retries + recoveries + resumes; every run, and an underway job, has attempt at least 1; the attempt is within the limit plus resumes plus recoveries, and a never-paused job is claimed at most limit + pool waits + recoveries times. |
| `JobRuns.AttemptLimitExactly` | src/agento/framework/consumer.py:1849-1956 | The attempts pass the limit by exactly one for each resume and each retry that comes when the row has none left; so they stay within the limit and those resumes if and only if no finalizer retries such a row, and a never-paused job is claimed at most limit + pool waits times plus those retries. |
| `JobRuns.LateRetryIsStale` | src/agento/framework/consumer.py:1756-1761 | Such a retry is always decided by a run that is no longer the last one claimed. |
| `JobRuns.StaleFinalizerAddsAnAttempt` | src/agento/framework/consumer.py:1756-1761 | And it can come: a finalizer after recovery and a new claim gives a third attempt of two. |
| `JobRuns.FinalizeStaysLimited` | src/agento/framework/consumer.py:1849-1956 | A finalizer never raises what the attempts can still come to. |
| `JobRuns.TerminalStays` | src/agento/framework/consumer.py:1667-1680 | SUCCESS, FAILED and DEAD are never left, whatever comes. |
| `JobRuns.StickyExactly` | src/agento/framework/consumer.py:928-974 | At every moment all runs since the last edit have the runtime on the row if and only if each runtime given out is the one on the row, or is committed where none was given out since the edit, which is known before the write. |
| `JobRuns.StickyRuntime` | src/agento/framework/consumer.py:928-974 | So there every run from one edit to the next gets one runtime, the one on the row, whatever late saves and late finalizers do. |
| `JobRuns.LateCommitFits` | src/agento/framework/consumer.py:961-970 | Ownership is more than it takes: a recovered run that commits while the job waits in the queue, the first to do so, fits. |
| `JobRuns.HomelyExactly` | src/agento/framework/consumer.py:635-646 | At every moment the stored session was made by the row's harness if and only if each write of a session or a harness fits the row it lands on, which is known before the write. |
| `JobRuns.NoForeignResume` | src/agento/framework/consumer.py:1194-1214 | Where those writes fit, no run, stale ones included, resumes a session of another harness. |
| `JobRuns.NoForeignLine` | src/agento/framework/consumer.py:605-633 | Nor does a run that continues the session of another job; with no job to continue it gets what the deprecated seam answers, or nothing when it was detached or wants a fresh session. |
| `JobRuns.OwnershipFits` | src/agento/framework/consumer.py:635-646 | Every write of a session and of a runtime fits where runs commit, save and report a session only while the job is theirs; a late finalizer without a session is no breach. |
| `JobRuns.StaleSaveIsForeign` | src/agento/framework/consumer.py:635-646 | A late save after recovery and an edit leaves a foreign session. |
| `JobRuns.StaleResolveUnsticks` | src/agento/framework/consumer.py:961-970 | A late commit of a recovered run gives two runtimes with no edit between, and a foreign session. |
| `JobRuns.DeferralConservation` | src/agento/framework/defer.py:44-114 | In every reachable state the deferrals are those announced plus those of the one open stretch, which only a TODO job has; the k-th stretch ever opened has the k-th notice and no other, pruned or not. |
| `JobRuns.DeferralIsNoAttempt` | src/agento/framework/consumer.py:766-778 | A deferral leaves status and attempt as they were. |
| `Defer.DelayCovers` | src/agento/framework/defer.py:24-41 | The applied delay is the least whole number of seconds covering the clamped milliseconds, 1 to 30, monotone in the wish, and 1 with no number. |
| `Defer.Stretches.OpenOrBump` | src/agento/framework/defer.py:44-77 | The open stretch is counted up, or a new one opened above every number. |
| `Defer.RefusedMeans` | src/agento/framework/defer.py:44-77 | Last stands the open stretch with one more, or a new one that counts one with the number after the last; it names the cause of this deferral, and no other row changes. |
| `Defer.Stretches.Close` | src/agento/framework/defer.py:80-113 | The open stretch is closed and announced with its count; with none open nothing happens. |
| `Defer.Stretches.Prune` | src/agento/framework/defer.py:116-135 | Exactly the expired closed rows go, and their number is returned. |
| `Defer.PrunedKeeps` | src/agento/framework/defer.py:116-123 | Pruning leaves the open stretch and its count as they were. |
| `Defer.EndedConserves` | src/agento/framework/defer.py:80-113 | A close moves the open count to the announced ones and leaves none open. |
| `ConnectionPool.ConnectionsAreConserved` | src/agento/framework/db.py:65-107 | Under every interleaving each connection opened is held by one checkout, idle in one queue, closed or lost, and only one of these; idle stays within the cap its queue was made with; as many are lost as calls of the ping, the preparation of an idle connection and the return were left by a `BaseException`, so none if and only if none was. |
| `ConnectionPool.InterruptedReturnLoses` | src/agento/framework/db.py:100-107 | A run that loses one: an interrupt in the rollback of the first return. |
| `ConnectionPool.IdleIsFresh` | src/agento/framework/db.py:95-107 | Every idle connection is rolled back and at the default isolation level; one whose borrower raised is closed. |
| `PoolCheckouts.BorrowedIsReady` | src/agento/framework/db.py:76-95 | A borrower gets a connection that its own checkout pinged well or opened, with no transaction, at the level it asked for and else the default, and no earlier borrower of it raised. |
| `PoolCheckouts.CheckoutLends` | src/agento/framework/db.py:76-95 | When all goes well the connection lent is the one idle longest, or a new one if none is idle. |
| `PoolCheckouts.DeadIsReplaced` | src/agento/framework/db.py:79-95 | An idle connection that fails its ping is closed and a new one lent. |
| `PoolCheckouts.LoanEnds` | src/agento/framework/db.py:95-107 | A loan that ends well leaves the connection as new and idle last, or closed when the queue is full. |
| `PoolCheckouts.RaisedIsClosed` | src/agento/framework/db.py:95-99 | A loan left by any exception ends with the connection closed. |
| `ConnectionPool.CloseIdleAlone` | src/agento/framework/db.py:116-123 | With no other thread, every registered queue is emptied and closed; none is left idle if and only if none was stray. |
| `ConnectionPool.ReachableExactly` | src/agento/framework/db.py:100-123 | At every moment each idle connection is in a registered queue, or in one that a `close_idle` still empties, if and only if no event strands one: a put into a queue that is neither, or a `close_idle` that gives up full queues because one was emptied under it. |
| `ConnectionPool.NoneStrandsNoneStrays` | src/agento/framework/db.py:116-123 | Once every `close_idle` has ended, to be reachable is not to stray; so where no event strands one the next call finds every idle connection. |
| `ConnectionPool.NoneOpenExactly` | src/agento/framework/db.py:116-123 | When it has ended, with nothing registered since and no checkout outstanding, none is open but those lost if and only if none strays. |
| `ConnectionPool.QuietClosesStrandNone` | src/agento/framework/db.py:116-123 | A `close_idle` that comes with no checkout outstanding strands none, whatever checkouts come meanwhile. |
| `ConnectionPool.QuietClosesLeaveNone` | src/agento/framework/db.py:116-123 | Where every `close_idle` comes with no checkout outstanding, nothing strays once they ended, whatever checkouts come meanwhile; with nothing registered since and no checkout outstanding, none is open but those that were lost. |
| `ConnectionPool.NothingStraysBefore` | src/agento/framework/db.py:65-68 | Until the first `close_idle` every queue is registered, whatever checkouts there are. |
| `ConnectionPool.ReturnAfterCloseStrays` | src/agento/framework/db.py:100-120 | A run in which one strays: a `close_idle` under a checkout ends before the connection is returned. |
| `ConnectionPool.ReturnStrays` | src/agento/framework/db.py:100-120 | From any state with a checkout about to return, a `close_idle` before it leaves its connection stray. |
| `ConfigPath.ParsedIsPrinted` | src/agento/framework/core_config.py:171-198 | An accepted path is the path of its parts, which are as the docstring says. |
| `ConfigPath.PrintedIsParsed` | src/agento/framework/core_config.py:171-198 | The path of any such parts is accepted and gives them back. |
| `ConfigPath.KeyOfPath` | src/agento/framework/config_resolver.py:135-168 | Module, slash-keyed and tool forms alike: the key is the prefix and the path folded character by character. |
| `ConfigPath.RoundTripExactly` | src/agento/framework/config_resolver.py:171-179 | An accepted ASCII path comes back if and only if it has no upper case, no hyphen, and no underscore before an underscore or a slash. |
| `ConfigPath.UnderscoresComeBackAsSlash` | src/agento/framework/config_resolver.py:171-179 | A path that does not: the key of `a/b__c` is that of `a/b/c`. |
| `ConfigPath.RejectedExactly` | src/agento/framework/config_resolver.py:161-164 | An ASCII path that is not accepted comes back if and only if it has no slash and is plain in the same sense. |
| `ConfigPath.PlainKeysDiffer` | src/agento/framework/config_resolver.py:152-168 | Two plain accepted ASCII paths never share a key. |
| `ConfigPath.SharedKey` | src/agento/framework/config_resolver.py:135-149 | Two accepted ASCII paths share a key exactly when they fold to one text. |

## Left out

Live deltas:

- Threads, locks and clocks: a method under the worker's condition variable is one step, and all
  clock readings inside it are equal. Waiting times are not modelled, only when a pass may act.
- The counters of the runs are one table beside the buffers, and execution ids are numbers.
- `DeltaRecord` fields that no step looks at, and the byte size of complete records.
- Redaction over a change of kind, or over a piece that a full queue dropped: not true of the code.
- `LiveText.CleanTextIsWritten`: speaks of what the flushes cut off; what becomes of it in the queue is
  `DeltaPromises.LiveTextIsTold`.
- A `discard` in the middle of a stream is no event of `DeltaSystem`: it forgets which numbers its
  flushes took, so what the thread takes later may be out of order, but a discard follows the bump
  after which `Handover.DiscardClosesTheDoorFirst` lets none of it be written.
- Secrets that are empty or hold `*`; for the byte bounds, secrets under three bytes or not below
  the buffer limit.

Orders:

- Importing patch classes and reading their `require()`; dictionary order where it cannot matter
  (the loops take their names in any order).

Copy-back and retention:

- `PersistentHome.CopyBack` and `PersistentHome.CopyBackNamed` are one function in the source; no
  caller passes both a relocation map and a name index.
- Links inside `state/`, persistent paths nested in one another, an unreadable directory that a walk
  skips in silence, left-over temporary files, the cache of `filecmp`.
- Other writers of `state/` while a prune runs; the registry of harnesses does not change meanwhile.
- `ArtifactsRetention.Pruner.PruneRunDirs`: counts no bytes and reports no single files; what a
  removal that failed half-way left behind is not modelled, only that everything was saved first.
- Thread directories, copy-in and the creation of links.

Jobs:

- `scheduled_after`, `finished_at` and the texts and tokens on a row, the outbox except the notices of
  deferrals, executions and capabilities, events to observers.
- Transactions are single steps; a claim that does not fit the unsigned byte of `attempt` is an error
  that rolls back (strict SQL mode).
- `resolve_job_runtime` is any answer that keeps a pinned harness and names a registered one.
- `JobRuns.StickyRuntime`: assumes that runtimes fit their row, which `JobRuns.StickyExactly` shows to
  be what it takes.
- `JobRuns.NoForeignResume`: assumes that writes fit their row, as `JobRuns.NoForeignLine` does, which
  `JobRuns.HomelyExactly` shows to be what it takes.
- `JobRuns.NoForeignLine`: promises nothing of the session that the deprecated seam answers.
- The numbers of stretches after a prune removed all of them start again at 1.
- Credential choice, leases, threads and the line rules, except what they make of a claim.

Connection pool and config paths:

- A `BaseException` between two calls, or while a queue is used; connections that a dead process drops.
- The pool is a state machine and not a class: its methods are interleaved call by call.
- `ConfigPath.RoundTripExactly`: speaks of ASCII paths, as the other results on keys do; Python's upper
  case of other letters may be longer, so that two such paths can share a key.
- Reading values, encryption, scopes and the listing of settings.

Everything else of the repository: the front end, the runner, harness adapters, manifests, the
outbox, route rules, the command line and the SQL schema.
