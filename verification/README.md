# FrameFleet: a verified model

FrameFleet splits videos into segments, processes them on many workers and assembles the results.
This project models its four hard parts and proves what they promise.

**Entry** (`Workers`, `WorkerRegistry`, `Jobs`, `JobManager`, `Entry*`, `Placement`, `DiskEstimate`).
The worker registry and the job manager are two objects with separate locks; requests reserve first
and commit or roll back later, with remote calls in between. They appear twice.
`Registry.WorkerRegistry` and `Manager.JobManager` are classes whose methods follow the code of each
critical section, with loops over the worker map in an arbitrary order. `Entry` is the same system as
a step relation: one action is one critical section, and a request between two sections is a `Call`
that remembers where it is and what it owes. Both sides meet in the section functions of `Workers`
and `Jobs`: every method is proved to compute them, and every action is built from them.
`EntryInvariant` proves what every action keeps, `EntryLedger` what every action does to the
reservations of every worker, `EntryRuns`, `EntryStatus`, `EntryTheorems`, `EntryWorkers`, `EntryOrigins`
and `EntryAddresses` the results over whole runs, and `EntryUnclean` and `EntryRevived` give concrete runs for the statements that do not hold
in general.

**Artifacts** (`LittleEndian`, `Artifact`, `ArtifactLayout`, `ArtifactFiles`, `FilePaths`, `Delivery`). FFAF v1 at byte level: a
reference encoding and a reference reader with the round-trip laws, the writer and the reader as
objects that advance a stream, the concatenation of several artifacts, and the path from a job's plan
to the images that are rendered.

**Workers** (`EnginePool`, `EngineCall`, `SourceRunner`). The pool of engine processes and its leases,
the one-line request and response protocol of a process, and the loops that turn local videos into jobs.

**Byte split** (`ByteSplit`). Splitting a file into ranges, copying and appending them.

## Where the code and its documentation differ

The model follows the code.

- `entry-server/internal/service/job_manager.go:161` calls the registry while the job lock is held,
  against `docs/architecture-distilled.md:226`; commit or give-back is one action here.
- `AcceptSegmentTask` sets the job to segment_running whatever its status, so failed is not final
  while segments are out (`EntryRevived.AcceptRevives`). `EntryStatus.FailedFinalExactly` says when it is,
  and `EntryStatus.FailedNeverCompletes` what holds in any case.
- `markAssembleStartFailed` fails the job and releases in any case. When the report of the assembly
  came first, the reservation is released twice and completed becomes failed
  (`EntryUnclean.UncleanStartBreaksExactness`). `EntryRuns.LedgerExact` says exactly which runs stay exact,
  `EntryStatus.CompletedFinalExactly` when completed is final.
- The disk estimate wraps at 64 bits and can be negative (`DiskEstimate.EstimateCanOverflow`,
  `EntryUnclean.OverflowBreaksBound`); `EntryRuns.DiskBoundExact` says when the ledger minds.
- A lease released during its own call can leave an idle engine shown as leased
  (`EnginePool.ReleaseDuringCallMisleads`); `EnginePool.ShownExactly` says when the view is right.
- An already-exists reply carries no assignments, so a source worker that held leases for the job
  keeps them (`SourceRunner.ExistingReplyKeepsLeases`).
- A video whose worker is not registered yet is marked done without having been sent
  (`worker-node/go/internal/sourceworker/runner.go:223-227` and `:339-343`), and so is one whose creation
  was given up; `SourceRunner.DoneMeans` says which done paths were sent.
- `worker-node/protocol/ffaf-v1.md:19` calls the header exactly 64 bytes, the reader accepts longer
  ones. A file that ends inside a header extension opens without an error, because skipping to the
  end of a stream is not a failure of the stream; its first frame is then rejected as truncated.
- `docs/architecture-distilled.md:678` speaks of concurrent downloads; the code downloads one after the other.
- `scripts/smoke_task_lifecycle.sh:127` expects a busy worker to refuse a job; reservations may exceed
  the total slots by design.

## Model

| member | source | states |
|---|---|---|
| `EntryRuns.LedgerBound` | entry-server/internal/service/job_manager.go:83-207 | In every interleaving, every worker holds between zero and what is still owed to it (live tasks, reservations not yet committed, releases still to come): slots always, disk as long as no negative estimate was reserved |
| `EntryRuns.LedgerExact` | entry-server/internal/service/job_manager.go:354-569 | Held equals owed for every worker in every state of a run if and only if no release of the run takes a reservation a second time |
| `EntryRuns.CleanRunsBalance` | entry-server/internal/service/job_manager.go:532-543 | In runs where no start call errs after the report of the same assembly was accepted, held equals owed throughout |
| `EntryRuns.ClampsIdle` | entry-server/internal/service/worker_registry.go:376-396 | In clean-start runs no clamp at zero fires: every due release is exactly the subtraction of what its request owes, one slot and for an assembly the recorded disk |
| `EntryRuns.DiskBoundExact` | entry-server/internal/service/job_manager.go:479-484 | The disk side of the ledger (nothing negative on record, held between zero and owed) holds in all states up to n if and only if no negative estimate is reserved before n |
| `EntryRuns.AmountsExact` | entry-server/internal/service/job_manager.go:479-484 | No negative disk amount is ever on record if and only if no negative estimate is ever reserved |
| `EntryUnclean.OverflowBreaksBound` | entry-server/internal/service/job_manager.go:904-913 | A reachable state in which an overflowed estimate leaves a worker with negative reserved disk |
| `EntryUnclean.UncleanStartBreaksExactness` | entry-server/internal/service/job_manager.go:874-892 | A reachable state that is not balanced, and a reachable step from completed to failed: the start call errs after the report |
| `EntryLedger.LedgerNext` | entry-server/internal/service/worker_registry.go:260-396 | Each action keeps the bound of each worker, and keeps balance exactly when it does not release twice |
| `EntryLedger.WeightsNext` | entry-server/internal/service/job_manager.go:479-505 | Each action keeps recorded disk amounts non-negative unless it reserves a negative estimate |
| `EntryLedger.InsertedWeights` | entry-server/internal/service/job_manager.go:171-175 | Recording a job moves its reservations from the request to its tasks, slot by slot |
| `EntryLedger.CreateReserveLedger` | entry-server/internal/service/job_manager.go:95-105 | A reservation made for a planned segment is owed by the request that made it |
| `EntryLedger.BatchReleaseLedger` | entry-server/internal/service/worker_registry.go:359-374 | A batch release takes exactly what the releasing request owed |
| `EntryLedger.CreateCommitLedger` | entry-server/internal/service/job_manager.go:157-175 | A commit conserves the ledger whether it records the job or gives everything back |
| `EntryLedger.SegmentCompletesLedger` | entry-server/internal/service/job_manager.go:354-387 | Between unlock and release a completed segment is still owed by its request |
| `EntryLedger.SegmentFailsLedger` | entry-server/internal/service/job_manager.go:704-743 | The same for a failed segment |
| `EntryLedger.ReleaseLedger` | entry-server/internal/service/worker_registry.go:376-396 | One release keeps balance exactly when the releasing call still owed it or it finds nothing to take |
| `EntryLedger.AssembleRecordLedger` | entry-server/internal/service/job_manager.go:507-517 | Recording the assemble task hands the reservation over to it |
| `EntryLedger.AssembleStartErrsLedger` | entry-server/internal/service/job_manager.go:874-892 | A failed start hands the reservation of a live assemble task to the release that follows |
| `EntryLedger.ReportSuccessLedger` | entry-server/internal/service/job_manager.go:582-653 | A success report hands the reservation of the assemble task to the release that follows |
| `EntryLedger.ReportFailureLedger` | entry-server/internal/service/job_manager.go:655-702 | The same for a failure report |
| `EntryLedger.CallShare` | entry-server/internal/service/job_manager.go:83-207 | What one request holds never exceeds what is owed in total |
| `EntryRuns.Reachable` | entry-server/internal/service/job_manager.go:59-207 | Every state of every run satisfies the invariant: well-formed tables, exact call knowledge, one starter per finished job |
| `EntryRuns.RunEvolves` | entry-server/internal/service/job_manager.go:323-352 | Along a run nothing recorded is dropped, identities are never re-bound and a settled task never changes |
| `EntryInvariant.NextInv` | entry-server/internal/service/job_manager.go:59-892 | Every action keeps the invariant and leaves a job waiting for its assembly untouched |
| `EntryInvariant.CallKept` | entry-server/internal/service/job_manager.go:416-464 | Other requests do not disturb what a request between two critical sections knows |
| `EntryInvariant.StartersKept` | entry-server/internal/service/job_manager.go:398-404 | At most one request is about to assemble a job, and a job with all segments done has one |
| `EntryInvariant.AssembleRecordInv` | entry-server/internal/service/job_manager.go:507-517 | The re-check before the assemble task is recorded never fails |
| `EntryInvariant.AssembleSnapshotInv` | entry-server/internal/service/job_manager.go:416-464 | The snapshot section finds every segment completed |
| `EntryInvariant.CreateCommitInv` | entry-server/internal/service/job_manager.go:157-175 | A commit keeps the invariant in both of its branches |
| `EntryInvariant.SegmentCompletesInv` | entry-server/internal/service/job_manager.go:354-385 | Completing a segment keeps the invariant; the last completion makes its request the starter |
| `EntryInvariant.AssembleStartedInv` | entry-server/internal/service/job_manager.go:546-557 | A successful start moves task and job together |
| `EntryStatus.StartedMeans` | entry-server/internal/service/job_manager.go:546-557 | When a start succeeds, an assigned task and its job are running afterwards and nothing else changed; if a report settled the task first, nothing changes; the task is assigned exactly when its job is assemble_assigned |
| `EntryStatus.StartedForGood` | entry-server/internal/service/job_manager.go:546-557 | After a successful start the notified task is never assigned again and its job never assemble_assigned, in the rest of the run |
| `EntryInvariant.AssembleStartErrsInv` | entry-server/internal/service/job_manager.go:874-892 | A failed start keeps the invariant even after a report |
| `EntryInvariant.ReportSuccessInv` | entry-server/internal/service/job_manager.go:582-653 | A success report keeps the invariant |
| `EntryInvariant.ReportFailureInv` | entry-server/internal/service/job_manager.go:655-702 | A failure report keeps the invariant |
| `EntryRuns.ExactlyOneLast` | entry-server/internal/service/job_manager.go:363-404 | However completions interleave, exactly one of them sees all segments complete once they all are, and none before |
| `EntryRuns.StartsAndWaits` | entry-server/internal/service/job_manager.go:398-411 | Assemblies started plus the one about to start equal the last completions seen |
| `EntryRuns.AssembleOnce` | entry-server/internal/service/job_manager.go:398-411 | startAssembleGIF runs at most once per job in any run |
| `EntryRuns.OneAssembleTask` | entry-server/internal/service/job_manager.go:507-517 | No job ever owns two assemble tasks |
| `EntryRuns.DoneNext` | entry-server/internal/service/job_manager.go:765-773 | A step makes a job complete exactly when it is the last completion of that job, and no step undoes it |
| `EntryRuns.ActorOnly` | entry-server/internal/service/job_manager.go:354-411 | A step moves only its own request; only registration brings a worker |
| `EntryTheorems.StableWhileStarting` | entry-server/internal/service/job_manager.go:416-530 | From the last completion until the assemble task is recorded, no other request changes the job or its segment tasks |
| `EntryTheorems.RequestExact` | entry-server/internal/service/job_manager.go:443-530 | The start request describes the segments exactly as they are recorded when it is sent and later |
| `EntryStatus.FailurePoisons` | entry-server/internal/service/job_manager.go:704-743 | Once a segment failed its job never again counts as segment_completed, assemble_assigned, assemble_running or completed |
| `EntryStatus.FailureHasCause` | entry-server/internal/service/job_manager.go:704-743 | In every reachable state a failed job has a failed segment on record or all its segments done, so that its assembly failed |
| `EntryStatus.LeavesFailed` | entry-server/internal/service/job_manager.go:323-352 | A step takes a job out of failed if and only if it accepts a segment of that job, and then to segment_running |
| `EntryStatus.FailedFinalExactly` | entry-server/internal/service/job_manager.go:323-352 | A failed job stays failed through a stretch of a run if and only if none of its segments is accepted in it |
| `EntryStatus.FailedNeverCompletes` | entry-server/internal/service/job_manager.go:303-318 | A job once reported failed is afterwards only ever failed or segment_running: never under assembly, never completed |
| `EntryRevived.AcceptRevives` | entry-server/internal/service/job_manager.go:333-341 | A reachable job with one failed and one assigned segment is failed, and accepting the other one makes it segment_running again |
| `EntryStatus.CompletedMeans` | entry-server/internal/service/job_manager.go:507-702 | Assembly statuses hold exactly when the assemble task has the matching status; completed implies every task completed and the result credited to the assigned worker |
| `EntryStatus.ForwardExactly` | entry-server/internal/service/job_manager.go:507-702 | Once all segments are done, every step of a stretch of a run moves the status forward if and only if no start call errs on the completed job |
| `EntryStatus.CompletedFinalExactly` | entry-server/internal/service/job_manager.go:885-891 | Completed stays completed if and only if no start call errs on it, and otherwise ends as failed; failed after the last segment is final in every run |
| `EntryStatus.StatusMovesForward` | entry-server/internal/service/job_manager.go:507-702 | Without such an error the status after the last segment is never behind an earlier one |
| `EntryStatus.CleanRunsMoveForward` | entry-server/internal/service/job_manager.go:532-543 | Clean-start runs have no such error |
| `EntryStatus.ForwardNext` | entry-server/internal/service/job_manager.go:885-891 | A step takes a finished job back if and only if the start call errs while the job is completed |
| `EntryTheorems.IdentityKeyInjective` | entry-server/internal/service/job_manager.go:919-921 | Identity keys of different address and video pairs differ when addresses contain no NUL |
| `EntryTheorems.JobsAndKeys` | entry-server/internal/service/job_manager.go:171-172 | Job ids and identity keys are in one-to-one correspondence in every state |
| `EntryTheorems.SameKeySameJob` | entry-server/internal/service/job_manager.go:70-81 | Two creations for one key that answered a job id answered the same one, however they raced |
| `EntryTheorems.KnownKeyAnswers` | entry-server/internal/service/job_manager.go:70-78 | A creation that finds its key recorded answers the recorded job at once and holds nothing |
| `EntryTheorems.OnlyCreatedWrites` | entry-server/internal/service/job_manager.go:157-175 | A creation step changes the job tables only if it is the one that answers created |
| `EntryTheorems.NetIsHeld` | entry-server/internal/service/job_manager.go:95-111 | At any moment a creation holds exactly the net of what its own steps did to each worker |
| `EntryTheorems.UncreatedNetsZero` | entry-server/internal/service/job_manager.go:95-169 | A creation that ends without a job has changed no reservation in the end |
| `EntryTheorems.RequestInPlanOrder` | entry-server/internal/service/job_manager.go:443-477 | The start request lists exactly the planned segments, in plan order, with the task id and worker each was given, in whatever order they completed |
| `EntryOrigins.RequestCarriesReports` | entry-server/internal/service/job_manager.go:449-477 | Every segment of a start request carries the checksum, frame count and output size its worker reported for its task in an earlier accepted report |
| `EntryOrigins.CompletedFromReport` | entry-server/internal/service/job_manager.go:368-374 | Every completed segment carries the report that completed it, which came from its worker while it was live |
| `EntryOrigins.CreationCarries` | entry-server/internal/service/job_manager.go:59-81 | A creation in flight carries exactly the source, video, size and plan of its request |
| `EntryOrigins.JobFromRequest` | entry-server/internal/service/job_manager.go:142-155 | Every recorded job is what one CreateJob request asked for |
| `EntryOrigins.ResultFromReport` | entry-server/internal/service/job_manager.go:582-633 | The result of a completed job is the one a success report delivered: worker, address and name |
| `EntryOrigins.ReportCarries` | entry-server/internal/service/job_manager.go:582-588 | A success report in flight carries the words it came in with and the registered address of its worker |
| `EntryAddresses.RequestAddresses` | entry-server/internal/service/job_manager.go:113-124 | The address a start request gives for a segment is where its worker is registered |
| `EntryAddresses.ResultAddress` | entry-server/internal/service/job_manager.go:619-624 | The address of a result is where the worker that made it is registered |
| `EntryAddresses.AddressesRight` | entry-server/internal/service/job_manager.go:493-505 | Every address on a task or in a request in flight is the registered one of its worker, in every reachable state |
| `EntryAddresses.NobodyMoves` | entry-server/internal/service/worker_registry.go:60-72 | The address a worker is registered under never changes |
| `EntryTheorems.CommitRecords` | entry-server/internal/service/job_manager.go:95-140 | The commit records the plan in order |
| `EntryTheorems.PickedWorkerHasRoom` | entry-server/internal/service/worker_registry.go:333-336 | A picked worker whose real free disk is not below the recorded value has room for the estimate it will compute itself |
| `Delivery.RequestDistinct` | entry-server/internal/service/job_manager.go:443-477 | A start request never names a task twice |
| `FilePaths.PlainLast` | worker-node/go/internal/spool/spool.go:50-52 | Joining and cleaning keeps a last element without slashes as the last part of the path |
| `FilePaths.DownAndUp` | worker-node/go/internal/spool/spool.go:50-52 | An element that goes down and up again leaves no trace in the joined path |
| `Delivery.LocalPathInjective` | worker-node/go/internal/spool/spool.go:50-52 | For ids without slashes, two tasks of a job are stored in one file if and only if they are the same |
| `Delivery.LocalPathIs` | worker-node/go/internal/spool/spool.go:50-52 | The path of a task is its own file below the directory of its job |
| `Delivery.LocalPathCollides` | worker-node/go/internal/spool/spool.go:50-52 | Every slash-free id shares its file with a different id that has slashes |
| `Delivery.TaskIDPlain` | entry-server/internal/service/job_manager.go:923-929 | The ids Entry draws have no slashes |
| `Delivery.PlainTasksApart` | worker-node/go/internal/handlers/assemble.go:67-74 | So the segments of a request are stored in different files if and only if they are different tasks |
| `Delivery.DownloadInputs` | worker-node/go/internal/handlers/assemble.go:67-97 | The sequential download loop ends exactly when every peer serves its artifact, and then with one input per segment in request order, each holding its own artifact as long as no two share a file |
| `Delivery.PlanOrderDelivered` | worker-node/cpp/src/engine.cpp:716-736 | End to end: the images that are rendered are all frames of the segments in plan order, and their number is the sum of the frame counts |
| `Jobs.RefsStable` | entry-server/internal/service/job_manager.go:416-464 | References taken from completed segments stay exact while the tables evolve |
| `Jobs.TouchKeeps` | entry-server/internal/service/job_manager.go:745-763 | Rewriting one task and its job keeps every other job well formed |
| `Jobs.AcceptKeeps` | entry-server/internal/service/job_manager.go:323-352 | Accepting keeps the tables well formed and the job incomplete |
| `Jobs.CompleteKeeps` | entry-server/internal/service/job_manager.go:354-385 | Completing keeps the tables well formed; the answer "last" is true exactly when all segments are now done |
| `Jobs.FailSegmentKeeps` | entry-server/internal/service/job_manager.go:704-743 | Failing keeps the tables well formed and the job incomplete |
| `Jobs.CommitAssembleKeeps` | entry-server/internal/service/job_manager.go:507-517 | Recording the assemble task keeps the tables well formed and appends it behind the segments |
| `Jobs.StartOkKeeps` | entry-server/internal/service/job_manager.go:546-557 | A successful start keeps the tables well formed |
| `Jobs.StartFailedKeeps` | entry-server/internal/service/job_manager.go:874-891 | A failed start keeps the tables well formed |
| `Jobs.MarkFailedKeeps` | entry-server/internal/service/job_manager.go:894-902 | Giving up keeps the tables well formed |
| `Jobs.TargetIs` | entry-server/internal/service/job_manager.go:775-795 | A report has a target exactly when the job is being assembled and its assemble task belongs to the reporting worker; the target is that task and it is live |
| `Jobs.ReportCompleteKeeps` | entry-server/internal/service/job_manager.go:582-653 | A success report keeps the tables well formed |
| `Jobs.ReportFailKeeps` | entry-server/internal/service/job_manager.go:655-702 | A failure report keeps the tables well formed |
| `Jobs.InsertKeeps` | entry-server/internal/service/job_manager.go:171-175 | Recording a new job keeps the tables well formed |
| `Manager.TaskPlan` | entry-server/internal/service/job_manager.go:209-234 | The plan lists the requested tasks, or segment_count numbered tasks of one mode; refused exactly for an unknown mode or an empty plan |
| `Manager.JobManager.CreateJob` | entry-server/internal/service/job_manager.go:59-207 | Without interference a creation records the job with its reservations or changes nothing at all; the answer is fixed in every case: unknown worker, existing job, an id that cannot be drawn, a segment that cannot be placed |
| `Manager.JobManager.ReservePlan` | entry-server/internal/service/job_manager.go:95-140 | Each segment is reserved by the rule for its mode, or every worker is exactly as before and the first segment that cannot be placed or gets no task id is the cause |
| `Manager.NoFailureMeans` | entry-server/internal/service/job_manager.go:95-111 | A plan goes through if and only if every segment can be placed on the workers as they were and every task id can be drawn |
| `Manager.JobManager.AssignSegmentWorker` | entry-server/internal/service/job_manager.go:245-258 | Internal segments go to the source, external ones to the least busy worker |
| `Manager.JobManager.CommitCreate` | entry-server/internal/service/job_manager.go:157-175 | Either the job is recorded with what its request asked for, under its identity, or the reservations go back and nothing is recorded |
| `Manager.JobManager.CheckSegment` | entry-server/internal/service/job_manager.go:745-763 | The checks every segment report passes, in order |
| `Manager.JobManager.AcceptSegmentTask` | entry-server/internal/service/job_manager.go:323-352 | Accepted exactly for an assigned segment of the worker; task running, job segment_running, nothing else; an error changes nothing |
| `Manager.JobManager.AllSegmentTasksCompleted` | entry-server/internal/service/job_manager.go:765-773 | True exactly when every listed task is a completed segment |
| `Manager.JobManager.CompleteSegmentTask` | entry-server/internal/service/job_manager.go:354-387 | Accepted exactly for a live segment reported by its worker; the task is completed with the reported checksum, frame count and output size and nothing else of it changes; the last flag and the job status say whether all segments are now completed |
| `Manager.JobManager.FailSegmentTask` | entry-server/internal/service/job_manager.go:704-743 | Accepted exactly for a live segment of the worker; task and job failed, nothing else changes |
| `Manager.JobManager.SnapshotSegments` | entry-server/internal/service/job_manager.go:416-479 | The snapshot and its disk estimate, or an error exactly when a listed task is not a completed segment |
| `Manager.JobManager.StartAssembleGIF` | entry-server/internal/service/job_manager.go:416-569 | Without interference: every branch with its exact tables and reservations; on success the job is assemble_running with one more task, which is running on the picked worker, and a failure that leaves a trace leaves the job failed |
| `Manager.JobManager.RecordAssembleTask` | entry-server/internal/service/job_manager.go:507-517 | Records the assemble task exactly when the job is still segment_completed |
| `Manager.JobManager.MarkAssembleStarted` | entry-server/internal/service/job_manager.go:546-557 | An assigned task becomes running and a job that is assemble_assigned becomes assemble_running; nothing else changes |
| `Manager.JobManager.MarkJobFailed` | entry-server/internal/service/job_manager.go:894-902 | Fails the job whatever its status |
| `Manager.JobManager.MarkAssembleStartFailed` | entry-server/internal/service/job_manager.go:874-892 | Fails a live task, fails the job in any case, releases in any case |
| `Manager.JobManager.AssembleCompletionTarget` | entry-server/internal/service/job_manager.go:775-795 | Finds the first assemble task in the list and checks worker and status |
| `Manager.JobManager.CompleteAssembleJob` | entry-server/internal/service/job_manager.go:582-633 | The live assemble task of the reporting worker is completed; the job is completed with that worker, its address and the reported name or the default one; answers the disk to release |
| `Manager.JobManager.FailAssembleJob` | entry-server/internal/service/job_manager.go:655-690 | The live assemble task of the reporting worker and its job are failed, nothing else changes; answers the disk to release |
| `Manager.UndoTaken` | entry-server/internal/service/worker_registry.go:359-374 | Releasing what was reserved, in the same order, restores every worker exactly |
| `Registry.WorkerRegistry.RegisterWorker` | entry-server/internal/service/worker_registry.go:50-100 | Invalid addresses and unknown task kinds are refused in that order; a known address keeps its id and reservations, a new one gets a fresh id if one can be drawn; a refusal changes nothing |
| `Registry.WorkerRegistry.SupportedKinds` | entry-server/internal/service/worker_registry.go:425-453 | Accepts exactly the lists whose every name is a supported task kind |
| `Registry.WorkerRegistry.HeartbeatWorker` | entry-server/internal/service/worker_registry.go:102-130 | Unknown task kinds, then unknown workers are refused; a known worker is online with the reported free disk and its free count derived anew, everything else untouched |
| `Registry.WorkerRegistry.MarkExpiredWorkers` | entry-server/internal/service/worker_registry.go:132-156 | Every late online worker is offline with no free slots and otherwise unchanged, every other worker is untouched, no late worker is eligible afterwards, and those that expired are counted, in any scan order |
| `EntryWorkers.OnlineNext` | entry-server/internal/service/worker_registry.go:102-156 | A worker is online after a step exactly when it registered again or sent a heartbeat, or was online and did not expire |
| `EntryWorkers.ExpiredNotPicked` | entry-server/internal/service/worker_registry.go:132-156 | An expired worker is given no segment and no assembly until it registers or sends a heartbeat again, in any run |
| `EntryWorkers.PickedOnline` | entry-server/internal/service/worker_registry.go:289-336 | Only online workers that support the work are picked |
| `Registry.WorkerRegistry.PickWorkersForReservation` | entry-server/internal/service/worker_registry.go:224-258 | Succeeds exactly when the positive free slots of eligible workers add up to the count, levels them, and restores every worker on failure |
| `Registry.WorkerRegistry.MostFree` | entry-server/internal/service/worker_registry.go:234-242 | The inner scan finds an eligible worker with a positive maximum of free slots, in any scan order |
| `Registry.WorkerRegistry.ReserveMostFree` | entry-server/internal/service/worker_registry.go:243-254 | One round keeps the level and takes one slot of the capacity, or finds no capacity left |
| `Registry.WorkerRegistry.GiveBack` | entry-server/internal/service/worker_registry.go:243-248 | The roll-back restores the table it started from |
| `Registry.WorkerRegistry.ReserveWorkerSlots` | entry-server/internal/service/worker_registry.go:260-283 | Reserves on one worker exactly when it is eligible |
| `Registry.WorkerRegistry.ReserveLeastBusyWorker` | entry-server/internal/service/worker_registry.go:285-319 | For every scan order the worker picked is online and capable, and no such worker other than the source has fewer reservations or, in a tie, a smaller id; the source only if there is none |
| `Registry.LeastBusyMeans` | entry-server/internal/service/worker_registry.go:297-303 | The selection rule for segments in plain terms, in both directions |
| `Registry.WorkerRegistry.PickWorkerForDiskReservation` | entry-server/internal/service/worker_registry.go:321-357 | For every scan order picks by fewest reservations, most schedulable disk, smallest id among capable online workers with enough disk, and keeps reserved disk within free disk |
| `Registry.BestDiskMeans` | entry-server/internal/service/worker_registry.go:333-344 | The selection rule for assembly in plain terms, in both directions |
| `Text.BeforeAtDifference` | entry-server/internal/service/worker_registry.go:297-300 | In the order of ids the first differing character decides, or the end of the shorter one |
| `Registry.WorkerRegistry.ReleaseReservations` | entry-server/internal/service/worker_registry.go:359-374 | One slot per listed id, unknown ids skipped |
| `Registry.WorkerRegistry.ReleaseReservation` | entry-server/internal/service/worker_registry.go:376-396 | One slot and a positive disk amount, each stopping at zero |
| `Registry.WorkerRegistry.UpdateWorkerObservedDiskFree` | entry-server/internal/service/worker_registry.go:398-409 | Only the recorded free disk of a known worker changes |
| `Registry.TakeOne` | entry-server/internal/service/worker_registry.go:251-254 | Taking a slot lowers the capacity by exactly one |
| `Registry.LevelKept` | entry-server/internal/service/worker_registry.go:239-254 | Taking from a worker with most free slots keeps every chosen worker within one of all others |
| `Workers.ReleaseAllHeld` | entry-server/internal/service/worker_registry.go:359-374 | A batch release takes from each worker as many slots as it is named, down to zero, and nothing else |
| `Workers.ReleaseUndoes` | entry-server/internal/service/worker_registry.go:351-394 | A release undoes the reservation of the same amount exactly when the amount is not negative |
| `Workers.LeastBusyUnique` | entry-server/internal/service/worker_registry.go:297-300 | The selection rule for segments determines the worker |
| `Workers.BestDiskUnique` | entry-server/internal/service/worker_registry.go:338-341 | The selection rule for assembly determines the worker |
| `Placement.PlacementBalanced` | entry-server/internal/service/job_manager.go:95-105 | After placing a plan one by one, every worker that got an external segment is at most one reservation above any other |
| `Placement.PlacementTotal` | entry-server/internal/service/job_manager.go:95-105 | The reservations of the eligible workers grow by exactly the external segments |
| `Placement.PlacementOptimal` | entry-server/internal/service/job_manager.go:245-258 | No other way to put the external segments on those workers has a lower peak |
| `DiskEstimate.EntryEstimate` | entry-server/internal/service/job_manager.go:904-913 | Entry accumulates to the common estimate, with 64-bit wrap-around |
| `DiskEstimate.WorkerEstimate` | worker-node/go/internal/handlers/assemble.go:43-62 | The worker, which stops at the first unknown size, computes the same estimate |
| `DiskEstimate.EstimateCoversBase` | entry-server/internal/service/job_manager.go:904-913 | The estimate covers the base size if and only if twelve times the base fits 64 bits |
| `DiskEstimate.EstimateMeans` | entry-server/internal/service/job_manager.go:904-913 | As long as nothing overflows the estimate is 2.4 times the artifacts when all sizes are known, otherwise 1.2 times the source video, and never less than one byte needs |
| `DiskEstimate.EstimateCanOverflow` | worker-node/go/internal/handlers/assemble.go:54-61 | A source size for which the estimate is negative |
| `LittleEndian.DecodeEncode` | worker-node/cpp/src/artifact.cpp:46-76 | Decoding an encoded field gives the value back |
| `LittleEndian.EncodeDecode` | worker-node/cpp/src/artifact.cpp:78-105 | Encoding a decoded field gives the bytes back |
| `LittleEndian.Bytes32` | worker-node/cpp/src/artifact.cpp:54-62 | The shifted and masked bytes are the little-endian encoding |
| `LittleEndian.Value32` | worker-node/cpp/src/artifact.cpp:85-92 | The or-ed shifts are the little-endian value |
| `Artifact.HeaderBack` | worker-node/cpp/src/artifact.cpp:171-213 | A header of any size and with any reserved words is read back as its metadata |
| `Artifact.RoundTrip` | worker-node/cpp/src/artifact.cpp:134-238 | A written file reads back as the same metadata and frames, whatever its reserved words, header extension and trailing bytes |
| `Artifact.CutFiles` | worker-node/cpp/src/artifact.cpp:39-44 | A full read looks at nothing beyond its end, and every file cut before that end is rejected as truncated |
| `Artifact.Rewritten` | worker-node/cpp/src/artifact.cpp:219-238 | Any accepted file is one header followed by its frames written again |
| `Artifact.Canonical` | worker-node/cpp/src/artifact.cpp:118-155 | Re-encoding an accepted file with a plain header and zero reserved words reproduces the bytes read |
| `ArtifactLayout.HeaderLayout` | worker-node/protocol/ffaf-v1.md:19-37 | The header of a written file byte by byte: marks, version, size, each field at its offset with the low byte first, zero reserved words |
| `ArtifactLayout.FrameLayout` | worker-node/protocol/ffaf-v1.md:39-47 | A frame record byte by byte |
| `ArtifactLayout.HeaderAccepted` | worker-node/cpp/src/artifact.cpp:171-213 | A file opens exactly when it has a full header with the right marks and usable numbers |
| `ArtifactLayout.FrameAccepted` | worker-node/cpp/src/artifact.cpp:219-238 | A frame is read exactly when its record is complete and its payload has 1 to 268435456 bytes |
| `ArtifactFiles.ArtifactWriter.Create` | worker-node/cpp/src/artifact.cpp:109-132 | Opening is refused exactly for invalid metadata, with the first failing check |
| `ArtifactFiles.ArtifactWriter.constructor` | worker-node/cpp/src/artifact.cpp:118-131 | The fields are written in the order of the format |
| `ArtifactFiles.ArtifactWriter.WriteFrame` | worker-node/cpp/src/artifact.cpp:134-155 | Appends one frame record or refuses with the first failing check and changes nothing |
| `ArtifactFiles.ArtifactWriter.Close` | worker-node/cpp/src/artifact.cpp:157-169 | Succeeds exactly when every announced frame was written, and then a full read returns what was written |
| `ArtifactFiles.ArtifactReader.Open` | worker-node/cpp/src/artifact.cpp:171-213 | Opens exactly the files whose header is accepted, positioned behind the extension |
| `ArtifactFiles.ArtifactReader.NextFrame` | worker-node/cpp/src/artifact.cpp:219-238 | One frame per call, end of frames after the announced count, errors in the order of the checks |
| `ArtifactFiles.AppendFrames` | worker-node/cpp/src/engine.cpp:730-735 | Collects the remaining frames of an artifact in order |
| `ArtifactFiles.AssembleGif` | worker-node/cpp/src/engine.cpp:716-740 | The concatenation loop computes the images of all inputs in order |
| `ArtifactFiles.AssembledIs` | worker-node/cpp/src/engine.cpp:716-751 | Complete artifacts of one size give all their frames in input order, and the count is the sum of theirs |
| `ArtifactFiles.AllPayloadsAt` | worker-node/cpp/src/engine.cpp:730-735 | Where each image ends up: behind all images of earlier artifacts, in the order of its own |
| `ArtifactFiles.AssembledExactly` | worker-node/cpp/src/engine.cpp:716-740 | Assembly succeeds exactly on a nonempty list of complete artifacts of one size |
| `ByteSplit.PieceCount` | worker-node/cpp/src/engine.cpp:550-555 | A given number of pieces is used as it is; without number and target there is one piece |
| `ByteSplit.FewestPieces` | worker-node/cpp/src/engine.cpp:552-555 | The size target asks for the fewest pieces that can stay within it |
| `ByteSplit.CopyRange` | worker-node/cpp/src/engine.cpp:66-99 | Copies exactly the range through a 64 KiB buffer, and fails exactly when the file ends before it |
| `ByteSplit.Split` | worker-node/cpp/src/engine.cpp:559-573 | For every size and count the pieces join to the input and are even |
| `ByteSplit.EvenPieces` | worker-node/cpp/src/engine.cpp:562-564 | Pieces never grow and differ by at most one byte |
| `ByteSplit.WithinTarget` | worker-node/cpp/src/engine.cpp:552-555 | When the count comes from the size target no piece exceeds the target |
| `ByteSplit.AppendAll` | worker-node/cpp/src/engine.cpp:693-695 | Appending files joins them in order |
| `ByteSplit.SplitCopyAppend` | worker-node/cpp/src/engine.cpp:550-573 | Split, copy each piece, append the copies: the original bytes come back |
| `EnginePool.TokensConserved` | worker-node/go/internal/enginepool/pool.go:176-277 | Over all interleavings every engine is once in the idle channel or with exactly one holder |
| `EnginePool.SendNeverBlocks` | worker-node/go/internal/enginepool/pool.go:254-265 | The send that returns an engine always finds room in the channel |
| `EnginePool.ShownNext` | worker-node/go/internal/enginepool/pool.go:254-300 | A step keeps engines in the channel and on their way there shown as idle if and only if it is not a call marking such an engine |
| `EnginePool.ShownExactly` | worker-node/go/internal/enginepool/pool.go:254-300 | They are shown as idle throughout a run if and only if no call marks a slot late |
| `EnginePool.ChannelShowsIdle` | worker-node/go/internal/enginepool/lease.go:22-43 | In particular, when no lease is released during its own call, every engine in the channel is shown as idle |
| `EnginePool.ViewIsRight` | worker-node/go/internal/enginepool/pool.go:267-300 | When leases are used for one call at a time and not released during it, every engine in use is shown as executing or leased as it is, and every engine in the channel as idle |
| `EnginePool.ReleaseDuringCallMisleads` | worker-node/go/internal/enginepool/lease.go:22-43 | A reachable late mark: a lease released during its call leaves an engine in the channel shown as leased |
| `EnginePool.Pool.Start` | worker-node/go/internal/enginepool/pool.go:79-116 | A started pool is left alone, a cancelled start does nothing; otherwise every engine ends up idle, or one does not come up and all that did are stopped again |
| `EnginePool.Pool.TryAcquire` | worker-node/go/internal/enginepool/pool.go:237-252 | Hands out the oldest idle engine, or fails exactly when the pool is not started or none is idle |
| `EnginePool.Pool.Release` | worker-node/go/internal/enginepool/pool.go:254-265 | Marks the slot idle and puts the engine back, unless the pool is stopped |
| `EnginePool.Pool.Snapshot` | worker-node/go/internal/enginepool/pool.go:146-174 | One entry per slot, idle where nothing is recorded |
| `EnginePool.Lease.Release` | worker-node/go/internal/enginepool/lease.go:36-43 | The first release returns the engine, later ones do nothing |
| `EnginePool.Lease.Call` | worker-node/go/internal/enginepool/lease.go:22-34 | A released lease is refused and touches neither slot nor engine; otherwise the answer is that of the call on the engine, and the slot shows as leased afterwards |
| `EngineCall.QuietBetweenCalls` | worker-node/go/internal/enginepool/engine.go:95-143 | For any sequence of calls with cancellation and death at any point, between calls no response is unread and a live process has no request left |
| `EngineCall.OwnAnswer` | worker-node/go/internal/enginepool/engine.go:123-142 | A response handed to a caller is the one answer given to that caller's own request: its id, completed exactly when the work was, with its detail |
| `EngineCall.MismatchMeans` | worker-node/cpp/src/main.cpp:12-25 | The id check fails exactly when the process could not handle or print the caller's own request; the version check never fails |
| `EngineCall.NeverStuck` | worker-node/go/internal/enginepool/engine.go:119-126 | A call that sent its request can always be moved on by the process or by reading |
| `EngineCall.JudgeAnswer` | worker-node/go/internal/enginepool/engine.go:128-142 | Which answers of the process a caller accepts, in both directions; an accepted one says completed exactly when it was and carries what came of the request |
| `EngineCall.SentRequestsAreHandled` | worker-node/cpp/src/protocol.cpp:60-103 | The process can handle the split, process and assemble requests of a worker exactly when all their paths are there; a split always has a policy |
| `EngineCall.Reachable` | worker-node/go/internal/enginepool/engine.go:95-177 | Lock, pipes and answers stay in step in every run |
| `EngineCall.PipesNext` | worker-node/go/internal/enginepool/engine.go:119-126 | The line of the caller inside the lock is in exactly one place |
| `EngineCall.AnswersNext` | worker-node/go/internal/enginepool/engine.go:123-142 | Every answer ever printed is unread by, or was judged by, the caller it belongs to |
| `EngineCall.Engine.Call` | worker-node/go/internal/enginepool/engine.go:95-143 | Every exit of a call with its exact cause; an accepted answer says what came of the request; the pipes are idle afterwards whatever happened |
| `EngineCall.Engine.Start` | worker-node/go/internal/enginepool/engine.go:53-93 | Keeps a running process, otherwise starts one unless pipes or process cannot be created |
| `EngineCall.Process.Serve` | worker-node/cpp/src/main.cpp:12-25 | One response per request line, in order, until input runs dry or the process dies |
| `SourceRunner.SourceSafety` | worker-node/go/internal/sourceworker/runner.go:197-261 | However scan and process loops interleave: pending and done are disjoint, no path is attempted or sent twice, and every path ever queued is pending, in progress or done |
| `SourceRunner.DoneMeans` | worker-node/go/internal/sourceworker/runner.go:218-231 | A done path had its attempt, and was sent if and only if that attempt found the worker registered and was answered with a job |
| `SourceRunner.DoneWithoutSending` | worker-node/go/internal/sourceworker/runner.go:338-343 | A reachable state with a done path that was never sent |
| `SourceRunner.InvNext` | worker-node/go/internal/sourceworker/runner.go:197-261 | Each critical section of the queue keeps this |
| `SourceRunner.Queue.EnqueueSourceVideo` | worker-node/go/internal/sourceworker/runner.go:197-210 | Queues a path exactly when it is neither done nor pending |
| `SourceRunner.Queue.PopPendingSplit` | worker-node/go/internal/sourceworker/runner.go:234-243 | Takes any pending path, and none exactly when there is none |
| `SourceRunner.Queue.RequeuePendingSplit` | worker-node/go/internal/sourceworker/runner.go:245-253 | Puts a path back unless it is done |
| `SourceRunner.Queue.MarkDone` | worker-node/go/internal/sourceworker/runner.go:255-261 | Removes any pending copy and marks the path |
| `SourceRunner.PlanSegments` | worker-node/go/internal/sourceworker/runner.go:345-375 | One planned task per segment in order, internal when it got an engine and external otherwise; the leases are held by index |
| `SourceRunner.DispatchAssignments` | worker-node/go/internal/sourceworker/runner.go:414-456 | Stops early exactly at an assignment that cannot be carried out; otherwise every assignment was done on its lease or uploaded to an address; released and held leases always add up to those planned, none released twice |
| `SourceRunner.RegisterAndDispatch` | worker-node/go/internal/sourceworker/runner.go:338-461 | The plan says internal exactly for segments with an engine; no lease is released twice, and every held lease is released if and only if no segment index was granted twice and registration failed, or dispatch gave up early, or every held index was assigned; a reply that mirrors the plan gets every segment done on its lease or uploaded |
| `SourceRunner.SmoothGoesThrough` | worker-node/go/internal/sourceworker/runner.go:414-456 | With distinct indexes, a reply that mirrors the plan, an address on every external assignment and no failed upload, dispatch does not stop early |
| `SourceRunner.ReleaseRest` | worker-node/go/internal/sourceworker/runner.go:385-392 | The deferred release returns what is still held, in any order |
| `SourceRunner.WorkKeepsAll` | worker-node/go/internal/sourceworker/runner.go:349-360 | A held lease is lost from the work map exactly when a segment index was granted twice |
| `SourceRunner.CreatedReplyReturnsAll` | entry-server/internal/service/job_manager.go:133-139 | A reply that lists the planned segments brings every lease back |
| `SourceRunner.ExistingReplyKeepsLeases` | entry-server/internal/service/job_manager.go:70-78 | After an already-exists reply the leases come back only if none was held |

## Left out

- Ids: job and task ids are random and not checked in the code; the model assumes that a new one does not collide with a recorded one at the moment it is recorded.
- The branch of startAssembleGIF for a job that moved on is modelled, and proved never to be taken.
- Whole requests as methods: `CreateJob` and `StartAssembleGIF` of `Manager.JobManager` describe a request that nothing interferes with; interleaving is the business of `Entry`, whose actions are single critical sections.
- Aliasing: the maps of the registry and the job manager hold values, where the code holds pointers into them; no code modelled here keeps such a pointer across an unlock except to read fields that never change.
- EntryRuns.LedgerBound: for disk it needs that no negative estimate is reserved before that state, which `EntryRuns.DiskBoundExact` shows to be the exact condition.
- Integer widths of slot counters and segment indexes: unbounded; only the disk estimate models 64-bit wrap-around.
- Parsing a worker address into host and port: a library call whose verdict is part of the request. In `Entry` only valid registrations and heartbeats are actions, since refused ones change nothing.
- Heartbeat metrics, timestamps, durations, failure reasons and retry hints: recorded by the code, read by nothing that is modelled.
- The observed free disk that a refusing assemble worker reports may be recorded at any time (`Entry.ObserveDisk`), not only during a failed start.
- Backpressure, PickBestWorker and the job result query: simple reads.
- Notifications to source workers: best effort and without effect on the state.
- Input and output errors of artifact files, and a reader's state after an error: the code abandons the object.
- ByteSplit.PieceCount: the ceiling of a floating-point quotient is an integer ceiling here, and the cast of the count to a 32-bit integer is not modelled.
- Splitting with ffmpeg, collecting its output files, OpenCV, rendering the animation: foreign programs.
- Pool stop and restart while leases are out; the wait and cancellation inside a blocking acquire, which is a step that happens when an engine is idle.
- JSON text and line framing of the engine protocol: a line is a request or a response value; a partial last line of a dying process is a read error.
- HTTP clients and servers, the retry delays of the job creation client, configuration, spool directories.
