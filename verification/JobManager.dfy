/** The job manager: the critical sections of Entry written as they run, on tables that are
    updated in place, each proved against the section function of the concurrent model. */
module Manager {
  import opened Wrappers
  import opened Sums
  import opened Workers
  import opened Jobs
  import opened Entry
  import opened Registry
  import Placement
  import DiskEstimate

  // ----- the task plan of a create request -----

  datatype RawTask = RawTask(segmentIndex: int, mode: string)

  datatype CreateRequest = CreateRequest(tasks: seq<RawTask>, segmentCount: int, mode: string)

  function ModeOf(mode: string): Option<Mode> {
    if mode == "internal" then Some(Internal) else if mode == "external" then Some(External) else None
  }

  /** A request with tasks is taken as it lists them; one without gets `segmentCount` tasks of
      its own mode, numbered from zero. Unknown modes and empty plans are refused. */
  method TaskPlan(req: CreateRequest) returns (plan: Option<seq<PlanEntry>>)
    ensures plan.Some? <==>
              if req.tasks != [] then forall i :: 0 <= i < |req.tasks| ==> req.tasks[i].mode in {"internal", "external"}
              else req.segmentCount > 0 && req.mode in {"internal", "external"}
    ensures plan.Some? ==> plan.value != []
    ensures plan.Some? && req.tasks != [] ==>
              && |plan.value| == |req.tasks|
              && forall i :: 0 <= i < |req.tasks| ==>
                && plan.value[i].segmentIndex == req.tasks[i].segmentIndex
                && req.tasks[i].mode == (if plan.value[i].mode == Internal then "internal" else "external")
    ensures plan.Some? && req.tasks == [] ==>
              && |plan.value| == req.segmentCount
              && forall i :: 0 <= i < req.segmentCount ==>
                && plan.value[i].segmentIndex == i
                && req.mode == (if plan.value[i].mode == Internal then "internal" else "external")
  {
    var entries: seq<PlanEntry> := [];
    if |req.tasks| > 0 {
      for i := 0 to |req.tasks|
        invariant |entries| == i
        invariant forall k :: 0 <= k < i ==>
                    entries[k].segmentIndex == req.tasks[k].segmentIndex && ModeOf(req.tasks[k].mode) == Some(entries[k].mode)
      {
        var mode := ModeOf(req.tasks[i].mode);
        if mode.None? {
          return None;
        }
        entries := entries + [PlanEntry(req.tasks[i].segmentIndex, mode.value)];
      }
      return Some(entries);
    }
    var mode := ModeOf(req.mode);
    if req.segmentCount <= 0 || mode.None? {
      return None;
    }
    for i := 0 to req.segmentCount
      invariant |entries| == i
      invariant forall k :: 0 <= k < i ==> entries[k] == PlanEntry(k, mode.value)
    {
      entries := entries + [PlanEntry(i, mode.value)];
    }
    return Some(entries);
  }

  // ----- the manager -----

  class JobManager {
    var jobs: map<string, Job>
    var tasks: map<string, Task>
    var jobIDByIdentity: map<string, string>
    const workers: WorkerRegistry

    constructor (workers: WorkerRegistry)
      ensures this.workers == workers && Contents() == Tables(map[], map[], map[])
    {
      this.workers := workers;
      jobs, tasks, jobIDByIdentity := map[], map[], map[];
    }

    ghost function Contents(): Tables
      reads this
    {
      Tables(jobs, tasks, jobIDByIdentity)
    }

    /** The reservations of one create request when nothing interferes: one per planned segment
        by the rule for its mode, or none at all when a segment cannot be placed or no id can be
        drawn for its task. The first segment that fails names the cause. */
    method ReservePlan(source: string, plan: seq<PlanEntry>, taskIDs: seq<Option<string>>)
      returns (picks: seq<string>, failure: Option<Error>, ghost tables: seq<Table>)
      requires FreeDerived(workers.byID) && forall id :: id in workers.byID ==> 0 <= workers.byID[id].reservedSlots
      requires |taskIDs| == |plan|
      modifies workers`byID
      ensures failure == PlanFailure(old(workers.byID), source, plan, taskIDs)
      ensures failure.None? ==> |picks| == |plan| && Placement.PlanRun(tables, picks, plan, source)
      ensures failure.None? ==> tables[0] == old(workers.byID) && tables[|picks|] == workers.byID
      ensures failure.Some? ==> workers.byID == old(workers.byID)
    {
      picks := [];
      ghost var ws0 := workers.byID;
      tables := [ws0];
      TakenNone(ws0);
      for i := 0 to |plan|
        invariant |picks| == i && Placement.PlanRun(tables, picks, plan, source)
        invariant tables[0] == ws0 && tables[i] == workers.byID
        invariant workers.byID == Taken(ws0, picks)
        invariant forall k :: 0 <= k < |picks| ==> Eligible(ws0, ProcessSegment, picks[k])
        invariant PlanFailure(ws0, source, plan, taskIDs) == PlanFailure(ws0, source, plan[i..], taskIDs[i..])
      {
        assert plan[i..][1..] == plan[i + 1..] && taskIDs[i..][1..] == taskIDs[i + 1..];
        var pick := AssignSegmentWorker(source, plan[i].mode);
        PlaceableStill(ws0, picks, source, plan[i].mode, pick);
        if pick.None? {
          workers.ReleaseReservations(picks);
          UndoTaken(ws0, picks);
          return picks, Some(InsufficientResources), tables;
        }
        TakenGrows(ws0, picks, pick.value);
        if taskIDs[i].None? {
          picks := picks + [pick.value];
          workers.ReleaseReservations(picks);
          UndoTaken(ws0, picks);
          return picks, Some(NoID), tables;
        }
        ChainGrows(tables, picks, plan, source, pick.value, workers.byID);
        picks := picks + [pick.value];
        tables := tables + [workers.byID];
      }
      failure := None;
    }

    /** assignSegmentWorker: the source itself for an internal segment, the least busy worker for
        an external one. */
    method AssignSegmentWorker(source: string, mode: Mode) returns (pick: Option<string>)
      modifies workers`byID
      ensures PickFor(old(workers.byID), source, mode, pick)
      ensures pick.Some? ==> pick.value in old(workers.byID) && workers.byID == Reserve(old(workers.byID), pick.value, 0)
      ensures pick.None? ==> workers.byID == old(workers.byID)
    {
      if mode == Internal {
        var ok := workers.ReserveWorkerSlots(source, ProcessSegment, 1);
        pick := if ok then Some(source) else None;
      } else {
        pick := workers.ReserveLeastBusyWorker(ProcessSegment, source);
      }
    }

    /** The commit section of a creation: record the job, or give the reservations back when
        another request recorded the same identity first. */
    method CommitCreate(call: Call) returns (answer: Answer)
      requires call.Creating? && |call.placed| == |call.plan|
      modifies this, workers`byID
      ensures var key := IdentityKey(call.address, call.video);
              if key in old(jobIDByIdentity) then
                answer == Existing(key, old(jobIDByIdentity)[key]) && Contents() == old(Contents())
                && workers.byID == ReleaseAll(old(workers.byID), WorkersOf(call.placed))
              else
                answer == Created(key, call.job) && workers.byID == old(workers.byID)
                && Contents() == Insert(old(Contents()), call.job, BuiltJob(call), BuiltTasks(call.job, call.plan, call.placed))
      ensures answer.Created? ==>
                && call.job in jobs && IsNewJob(jobs[call.job], call)
                && jobs == old(jobs)[call.job := jobs[call.job]]
                && jobIDByIdentity == old(jobIDByIdentity)[jobs[call.job].identity := call.job]
    {
      var key := IdentityKey(call.address, call.video);
      if key in jobIDByIdentity {
        workers.ReleaseReservations(WorkersOf(call.placed));
        return Existing(key, jobIDByIdentity[key]);
      }
      jobs := jobs[call.job := BuiltJob(call)];
      jobIDByIdentity := jobIDByIdentity[key := call.job];
      var built := BuiltTasks(call.job, call.plan, call.placed);
      for i := 0 to |built|
        invariant InsertTasks(tasks, built[i..]) == InsertTasks(old(tasks), built)
        invariant jobs == old(jobs)[call.job := BuiltJob(call)]
        invariant jobIDByIdentity == old(jobIDByIdentity)[key := call.job]
        invariant workers.byID == old(workers.byID)
      {
        assert built[i..][1..] == built[i + 1..];
        tasks := tasks[built[i].id := built[i].task];
      }
      return Created(key, call.job);
    }

    /** A whole creation when nothing interferes: it either records the job with the reservations
        of its plan, or changes nothing at all. Absent ids could not be drawn. */
    method CreateJob(source: string, video: string, total: int, plan: seq<PlanEntry>,
                     jobID: Option<string>, taskIDs: seq<Option<string>>)
      returns (answer: Answer, placed: seq<Placed>, ghost tables: seq<Table>)
      requires FreeDerived(workers.byID) && forall id :: id in workers.byID ==> 0 <= workers.byID[id].reservedSlots
      requires forall k :: k in jobIDByIdentity ==> jobIDByIdentity[k] in jobs
      requires plan != [] && |taskIDs| == |plan|
      modifies this, workers`byID
      ensures !answer.Created? ==> Contents() == old(Contents()) && workers.byID == old(workers.byID)
      ensures if source !in old(workers.byID) then answer == Refused(WorkerNotFound)
              else
                var key := IdentityKey(old(workers.byID)[source].address, video);
                if key in old(jobIDByIdentity) then answer == Existing(key, old(jobIDByIdentity)[key])
                else if jobID.None? then answer == Refused(NoID)
                else
                  match PlanFailure(old(workers.byID), source, plan, taskIDs)
                  case Some(cause) => answer == Refused(cause)
                  case None =>
                    && answer == Created(key, jobID.value) && |placed| == |plan|
                    && (forall i :: 0 <= i < |plan| ==> Some(placed[i].id) == taskIDs[i])
                    && Placement.PlanRun(tables, WorkersOf(placed), plan, source)
                    && tables[0] == old(workers.byID) && tables[|plan|] == workers.byID
                    && var call := Creating(source, old(workers.byID)[source].address, video, total, plan, jobID.value, placed);
                       Contents() == Insert(old(Contents()), jobID.value, BuiltJob(call), BuiltTasks(jobID.value, plan, placed))
    {
      placed, tables := [], [];
      if source !in workers.byID {
        return Refused(WorkerNotFound), placed, tables;
      }
      var address := workers.byID[source].address;
      var key := IdentityKey(address, video);
      if key in jobIDByIdentity && jobIDByIdentity[key] in jobs {
        return Existing(key, jobIDByIdentity[key]), placed, tables;
      }
      if jobID.None? {
        return Refused(NoID), placed, tables;
      }
      var picks, failure;
      picks, failure, tables := ReservePlan(source, plan, taskIDs);
      if failure.Some? {
        return Refused(failure.value), placed, tables;
      }
      NoFailureMeans(old(workers.byID), source, plan, taskIDs);
      PicksKnown(tables, picks, plan, source, |plan|);
      for i := 0 to |plan|
        invariant |placed| == i
        invariant forall k :: 0 <= k < i ==> Some(placed[k].id) == taskIDs[k] && placed[k].worker == picks[k]
      {
        placed := placed + [Placed(taskIDs[i].value, picks[i], workers.byID[picks[i]].address)];
      }
      assert WorkersOf(placed) == picks;
      answer := CommitCreate(Creating(source, address, video, total, plan, jobID.value, placed));
    }

    method CheckSegment(taskID: string, workerID: string) returns (r: Result<string, Error>)
      ensures r == FindSegment(Contents(), taskID, workerID)
      ensures r == if taskID !in tasks then Err(TaskNotFound)
                   else if tasks[taskID].kind == AssembleGif then Err(InvalidState)
                   else if tasks[taskID].worker != workerID then Err(WorkerMismatch)
                   else if tasks[taskID].job !in jobs then Err(InvalidState)
                   else Ok(tasks[taskID].job)
    {
      if taskID !in tasks {
        return Err(TaskNotFound);
      }
      if tasks[taskID].kind != ProcessSegment {
        return Err(InvalidState);
      }
      if tasks[taskID].worker != workerID {
        return Err(WorkerMismatch);
      }
      if tasks[taskID].job !in jobs {
        return Err(InvalidState);
      }
      return Ok(tasks[taskID].job);
    }

    method AcceptSegmentTask(taskID: string, workerID: string) returns (r: Result<(), Error>)
      modifies this
      ensures r.Ok? <==> Accept(old(Contents()), taskID, workerID).Ok?
      ensures r.Ok? ==> Contents() == Accept(old(Contents()), taskID, workerID).value
      ensures r.Err? ==> r.error == Accept(old(Contents()), taskID, workerID).error && Contents() == old(Contents())
      ensures r.Ok? <==> IsSegmentOf(old(Contents()), taskID, workerID) && old(tasks)[taskID].status == Assigned
      ensures r.Ok? ==>
                var j := old(tasks)[taskID].job;
                && tasks == old(tasks)[taskID := old(tasks)[taskID].(status := Running)]
                && jobs == old(jobs)[j := old(jobs)[j].(status := SegmentRunning)]
                && jobIDByIdentity == old(jobIDByIdentity)
    {
      var found := CheckSegment(taskID, workerID);
      if found.Err? {
        return Err(found.error);
      }
      if tasks[taskID].status != Assigned {
        return Err(InvalidState);
      }
      tasks := tasks[taskID := tasks[taskID].(status := Running)];
      jobs := jobs[found.value := jobs[found.value].(status := SegmentRunning)];
      return Ok(());
    }

    /** allSegmentTasksCompletedLocked. */
    method AllSegmentTasksCompleted(ids: seq<string>) returns (all: bool)
      ensures all == AllComplete(tasks, ids)
    {
      for i := 0 to |ids|
        invariant forall k :: 0 <= k < i ==>
                    ids[k] in tasks && tasks[ids[k]].kind == ProcessSegment && tasks[ids[k]].status == Completed
      {
        if ids[i] !in tasks || tasks[ids[i]].kind != ProcessSegment || tasks[ids[i]].status != Completed {
          return false;
        }
      }
      return true;
    }

    /** The locked section of CompleteSegmentTask; answers the worker to release, the job, and
        whether this was its last segment. */
    method CompleteSegmentTask(taskID: string, workerID: string, report: SegmentReport)
      returns (r: Result<(string, string, bool), Error>)
      modifies this
      ensures r.Ok? <==> Complete(old(Contents()), taskID, workerID, report).Ok?
      ensures r.Ok? ==> (Contents(), r.value.2) == Complete(old(Contents()), taskID, workerID, report).value
      ensures r.Ok? ==> taskID in old(tasks) && r.value.0 == workerID && r.value.1 == old(tasks)[taskID].job
      ensures r.Err? ==> r.error == Complete(old(Contents()), taskID, workerID, report).error && Contents() == old(Contents())
      ensures r.Ok? <==> IsSegmentOf(old(Contents()), taskID, workerID) && old(tasks)[taskID].status in {Assigned, Running}
      ensures r.Ok? ==>
                var j := old(tasks)[taskID].job;
                && taskID in tasks && Records(old(tasks)[taskID], tasks[taskID], report)
                && tasks == old(tasks)[taskID := tasks[taskID]]
                && jobs == (if r.value.2 then old(jobs)[j := old(jobs)[j].(status := SegmentCompleted)] else old(jobs))
                && jobIDByIdentity == old(jobIDByIdentity)
                && (r.value.2 <==> forall id :: id in old(jobs)[j].taskIDs ==>
                      id in tasks && tasks[id].kind == ProcessSegment && tasks[id].status == Completed)
    {
      var found := CheckSegment(taskID, workerID);
      if found.Err? {
        return Err(found.error);
      }
      if tasks[taskID].status != Assigned && tasks[taskID].status != Running {
        return Err(InvalidState);
      }
      var jobID := found.value;
      tasks := tasks[taskID := tasks[taskID].(status := Completed, checksum := report.checksum,
                               frameCount := report.frameCount, outputSize := report.outputSize)];
      var all := AllSegmentTasksCompleted(jobs[jobID].taskIDs);
      if all {
        jobs := jobs[jobID := jobs[jobID].(status := SegmentCompleted)];
      }
      assert jobs == old(jobs)[jobID := jobs[jobID]];
      return Ok((tasks[taskID].worker, jobID, all));
    }

    method FailSegmentTask(taskID: string, workerID: string) returns (r: Result<string, Error>)
      modifies this
      ensures r.Ok? <==> FailSegment(old(Contents()), taskID, workerID).Ok?
      ensures r.Ok? ==> Contents() == FailSegment(old(Contents()), taskID, workerID).value && r.value == workerID
      ensures r.Err? ==> r.error == FailSegment(old(Contents()), taskID, workerID).error && Contents() == old(Contents())
      ensures r.Ok? <==> IsSegmentOf(old(Contents()), taskID, workerID) && old(tasks)[taskID].status in {Assigned, Running}
      ensures r.Ok? ==>
                var j := old(tasks)[taskID].job;
                && tasks == old(tasks)[taskID := old(tasks)[taskID].(status := Failed)]
                && jobs == old(jobs)[j := old(jobs)[j].(status := JobFailed)]
                && jobIDByIdentity == old(jobIDByIdentity)
    {
      var found := CheckSegment(taskID, workerID);
      if found.Err? {
        return Err(found.error);
      }
      if tasks[taskID].status == Completed || tasks[taskID].status == Failed {
        return Err(InvalidState);
      }
      tasks := tasks[taskID := tasks[taskID].(status := Failed)];
      jobs := jobs[found.value := jobs[found.value].(status := JobFailed)];
      return Ok(tasks[taskID].worker);
    }

    /** The read section of startAssembleGIF and the estimate made from it. */
    method SnapshotSegments(jobID: string) returns (r: Result<(seq<SegmentRef>, int), Error>)
      ensures r.Ok? <==> Snapshot(Contents(), jobID).Ok?
      ensures r.Err? ==> r.error == Snapshot(Contents(), jobID).error
      ensures r.Ok? ==> r.value.0 == Snapshot(Contents(), jobID).value
      ensures r.Ok? ==> jobID in jobs && r.value.1 == DiskEstimate.Estimate(jobs[jobID].totalSize, Sizes(r.value.0))
    {
      if jobID !in jobs {
        return Err(InvalidState);
      }
      var ids := jobs[jobID].taskIDs;
      var refs: seq<SegmentRef> := [];
      for i := 0 to |ids|
        invariant |refs| == i
        invariant forall k :: 0 <= k < i ==>
                    && ids[k] in tasks && tasks[ids[k]].kind == ProcessSegment && tasks[ids[k]].status == Completed
                    && refs[k] == RefOf(ids[k], tasks[ids[k]])
      {
        if ids[i] !in tasks || tasks[ids[i]].kind != ProcessSegment || tasks[ids[i]].status != Completed {
          return Err(InvalidState);
        }
        refs := refs + [RefOf(ids[i], tasks[ids[i]])];
      }
      assert refs == Refs(tasks, ids);
      var disk := DiskEstimate.EntryEstimate(jobs[jobID].totalSize, Sizes(refs));
      return Ok((refs, disk));
    }

    /** The section that records the assemble task, or finds the job moved on. */
    method RecordAssembleTask(jobID: string, taskID: string, worker: string, address: string,
                              disk: int) returns (ok: bool)
      modifies this
      ensures ok <==> CommitAssemble(old(Contents()), jobID, taskID, worker, address, disk).Ok?
      ensures Contents() == if ok then CommitAssemble(old(Contents()), jobID, taskID, worker, address, disk).value
                            else old(Contents())
      ensures ok <==> jobID in old(jobs) && old(jobs)[jobID].status == SegmentCompleted
      ensures ok ==>
                && taskID in tasks && tasks == old(tasks)[taskID := tasks[taskID]]
                && IsNewAssembly(tasks[taskID], jobID, worker, address, disk)
                && jobs == old(jobs)[jobID := old(jobs)[jobID].(taskIDs := old(jobs)[jobID].taskIDs + [taskID],
                                                                status := AssembleAssigned)]
    {
      if jobID !in jobs || jobs[jobID].status != SegmentCompleted {
        return false;
      }
      tasks := tasks[taskID := AssembleTask(jobID, worker, address, disk)];
      jobs := jobs[jobID := jobs[jobID].(taskIDs := jobs[jobID].taskIDs + [taskID], status := AssembleAssigned)];
      return true;
    }

    method MarkAssembleStarted(jobID: string, taskID: string)
      modifies this
      ensures Contents() == StartOk(old(Contents()), jobID, taskID)
      ensures tasks == if taskID in old(tasks) && old(tasks)[taskID].status == Assigned
                       then old(tasks)[taskID := old(tasks)[taskID].(status := Running)] else old(tasks)
      ensures jobs == if jobID in old(jobs) && old(jobs)[jobID].status == AssembleAssigned
                      then old(jobs)[jobID := old(jobs)[jobID].(status := AssembleRunning)] else old(jobs)
      ensures jobIDByIdentity == old(jobIDByIdentity)
    {
      if taskID in tasks && tasks[taskID].status == Assigned {
        tasks := tasks[taskID := tasks[taskID].(status := Running)];
      }
      if jobID in jobs && jobs[jobID].status == AssembleAssigned {
        jobs := jobs[jobID := jobs[jobID].(status := AssembleRunning)];
      }
    }

    method MarkJobFailed(jobID: string)
      modifies this
      ensures Contents() == MarkFailed(old(Contents()), jobID)
      ensures tasks == old(tasks) && jobIDByIdentity == old(jobIDByIdentity)
      ensures jobs == if jobID in old(jobs) then old(jobs)[jobID := old(jobs)[jobID].(status := JobFailed)] else old(jobs)
    {
      if jobID in jobs {
        jobs := jobs[jobID := jobs[jobID].(status := JobFailed)];
      }
    }

    /** markAssembleStartFailed as a whole, when nothing comes between its section and its release. */
    method MarkAssembleStartFailed(jobID: string, taskID: string, worker: string, disk: int)
      modifies this, workers`byID
      ensures Contents() == StartFailed(old(Contents()), jobID, taskID)
      ensures workers.byID == Release(old(workers.byID), worker, disk)
      ensures tasks == if taskID in old(tasks) && old(tasks)[taskID].status in {Assigned, Running}
                       then old(tasks)[taskID := old(tasks)[taskID].(status := Failed)] else old(tasks)
      ensures jobs == if jobID in old(jobs) then old(jobs)[jobID := old(jobs)[jobID].(status := JobFailed)] else old(jobs)
      ensures jobIDByIdentity == old(jobIDByIdentity)
    {
      if taskID in tasks && tasks[taskID].status != Completed && tasks[taskID].status != Failed {
        tasks := tasks[taskID := tasks[taskID].(status := Failed)];
      }
      if jobID in jobs {
        jobs := jobs[jobID := jobs[jobID].(status := JobFailed)];
      }
      workers.ReleaseReservation(worker, disk);
    }

    /** startAssembleGIF as a whole, when nothing interferes. `taskID` is absent when no id could be
        drawn; `reply` is what the assemble worker answers. The reservation survives only with a
        recorded assemble task that is running. */
    method StartAssembleGIF(jobID: string, taskID: Option<string>,
                            reply: StartReply) returns (r: Result<seq<SegmentRef>, Error>, ghost picked: Option<string>)
      modifies this, workers`byID
      ensures Snapshot(old(Contents()), jobID).Err? ==> r == Err(InvalidState) && Contents() == old(Contents()) && workers.byID == old(workers.byID)
      ensures Snapshot(old(Contents()), jobID).Ok? ==>
                var tb, ws, segments := old(Contents()), old(workers.byID), Snapshot(old(Contents()), jobID).value;
                && jobID in tb.jobs
                && var disk := DiskEstimate.Estimate(tb.jobs[jobID].totalSize, Sizes(segments));
                && PickDisk(ws, disk, picked)
                && match picked
                   case None => r == Err(InsufficientResources) && Contents() == MarkFailed(tb, jobID) && workers.byID == ws
                   case Some(w) =>
                     var back := Release(Reserve(ws, w, disk), w, disk);
                     if taskID.None? then r.Err? && Contents() == MarkFailed(tb, jobID) && workers.byID == back
                     else
                       match CommitAssemble(tb, jobID, taskID.value, w, ws[w].address, disk)
                       case Err(_) => r == Err(InvalidState) && Contents() == tb && workers.byID == back
                       case Ok(recorded) =>
                         if reply.Accepted? then
                           r == Ok(segments) && Contents() == StartOk(recorded, jobID, taskID.value) && workers.byID == Reserve(ws, w, disk)
                         else
                           r.Err? && Contents() == StartFailed(recorded, jobID, taskID.value)
                           && workers.byID == Release(Observed(Reserve(ws, w, disk), w, reply), w, disk)
      ensures r.Ok? ==>
                && taskID.Some? && picked.Some? && jobID in jobs && taskID.value in tasks
                && jobs[jobID].status == AssembleRunning && tasks[taskID.value].status == Running
                && tasks[taskID.value].worker == picked.value && tasks[taskID.value].job == jobID
                && jobs[jobID].taskIDs == old(jobs)[jobID].taskIDs + [taskID.value]
      ensures r.Err? && Contents() != old(Contents()) ==> jobID in jobs && jobs[jobID].status == JobFailed
    {
      picked := None;
      var snapshot := SnapshotSegments(jobID);
      if snapshot.Err? {
        return Err(InvalidState), picked;
      }
      var (segments, disk) := snapshot.value;
      var worker := workers.PickWorkerForDiskReservation(AssembleGif, disk);
      picked := worker;
      if worker.None? {
        MarkJobFailed(jobID);
        return Err(InsufficientResources), picked;
      }
      var address := workers.byID[worker.value].address;
      if taskID.None? {
        workers.ReleaseReservation(worker.value, disk);
        MarkJobFailed(jobID);
        return Err(InvalidState), picked;
      }
      var recorded := RecordAssembleTask(jobID, taskID.value, worker.value, address, disk);
      if !recorded {
        workers.ReleaseReservation(worker.value, disk);
        return Err(InvalidState), picked;
      }
      if !reply.Accepted? {
        if reply.NoStorage? && reply.diskFree > 0 {
          workers.UpdateWorkerObservedDiskFree(worker.value, reply.diskFree);
        }
        MarkAssembleStartFailed(jobID, taskID.value, worker.value, disk);
        return Err(InvalidState), picked;
      }
      MarkAssembleStarted(jobID, taskID.value);
      return Ok(segments), picked;
    }

    /** assembleCompletionTargetLocked: the first assemble task in the job's list, if the report
        comes from its worker and it is still live. */
    method AssembleCompletionTarget(jobID: string, workerID: string) returns (r: Result<string, Error>)
      ensures r == AssembleTarget(Contents(), jobID, workerID)
    {
      if jobID !in jobs {
        return Err(TaskNotFound);
      }
      if jobs[jobID].status != AssembleAssigned && jobs[jobID].status != AssembleRunning && jobs[jobID].status != SegmentCompleted {
        return Err(InvalidState);
      }
      var ids := jobs[jobID].taskIDs;
      for i := 0 to |ids|
        invariant FirstAssemble(tasks, ids[i..]) == FirstAssemble(tasks, ids)
      {
        assert ids[i..][1..] == ids[i + 1..];
        if ids[i] !in tasks || tasks[ids[i]].kind != AssembleGif {
          continue;
        }
        if tasks[ids[i]].worker != workerID {
          return Err(WorkerMismatch);
        }
        if tasks[ids[i]].status != Assigned && tasks[ids[i]].status != Running {
          return Err(InvalidState);
        }
        return Ok(ids[i]);
      }
      return Err(InvalidState);
    }

    /** The locked section of completeAssembleJob; answers the disk to release. */
    method CompleteAssembleJob(jobID: string, workerID: string, address: string,
                               name: string) returns (r: Result<int, Error>)
      modifies this
      ensures r.Ok? <==> ReportComplete(old(Contents()), jobID, workerID, address, name).Ok?
      ensures r.Ok? ==> var (tb, t) := ReportComplete(old(Contents()), jobID, workerID, address, name).value;
                        Contents() == tb && t in old(tasks) && r.value == old(tasks)[t].requiredDisk
      ensures r.Err? ==> r.error == ReportComplete(old(Contents()), jobID, workerID, address, name).error
                         && Contents() == old(Contents())
      ensures r.Ok? ==>
                && AssembleTarget(old(Contents()), jobID, workerID).Ok?
                && var t := AssembleTarget(old(Contents()), jobID, workerID).value;
                && t in old(tasks) && old(tasks)[t].worker == workerID && old(tasks)[t].status in {Assigned, Running}
                && tasks == old(tasks)[t := old(tasks)[t].(status := Completed)]
                && jobID in jobs && jobs == old(jobs)[jobID := jobs[jobID]]
                && IsSettled(old(jobs)[jobID], jobs[jobID], workerID, address, name)
                && (name == "" ==> jobs[jobID].resultName == jobID + ".gif")
    {
      var target := AssembleCompletionTarget(jobID, workerID);
      if target.Err? {
        return Err(target.error);
      }
      var t := target.value;
      tasks := tasks[t := tasks[t].(status := Completed)];
      var resultName := if name == "" then jobID + ".gif" else name;
      jobs := jobs[jobID := jobs[jobID].(status := JobCompleted, resultWorker := workerID,
                                         resultAddress := address, resultName := resultName)];
      return Ok(tasks[t].requiredDisk);
    }

    method FailAssembleJob(jobID: string, workerID: string) returns (r: Result<int, Error>)
      modifies this
      ensures r.Ok? <==> ReportFail(old(Contents()), jobID, workerID).Ok?
      ensures r.Ok? ==> var (tb, t) := ReportFail(old(Contents()), jobID, workerID).value;
                        Contents() == tb && t in old(tasks) && r.value == old(tasks)[t].requiredDisk
      ensures r.Err? ==> r.error == ReportFail(old(Contents()), jobID, workerID).error && Contents() == old(Contents())
      ensures r.Ok? ==>
                && AssembleTarget(old(Contents()), jobID, workerID).Ok?
                && var t := AssembleTarget(old(Contents()), jobID, workerID).value;
                && t in old(tasks) && old(tasks)[t].worker == workerID && old(tasks)[t].status in {Assigned, Running}
                && tasks == old(tasks)[t := old(tasks)[t].(status := Failed)]
                && jobID in old(jobs) && jobs == old(jobs)[jobID := old(jobs)[jobID].(status := JobFailed)]
    {
      var target := AssembleCompletionTarget(jobID, workerID);
      if target.Err? {
        return Err(target.error);
      }
      var t := target.value;
      tasks := tasks[t := tasks[t].(status := Failed)];
      jobs := jobs[jobID := jobs[jobID].(status := JobFailed)];
      return Ok(tasks[t].requiredDisk);
    }
  }

  // ----- what the sections are about -----

  /** The task is a segment of a known job, assigned to this worker. */
  predicate IsSegmentOf(tb: Tables, t: string, worker: string) {
    && t in tb.tasks && tb.tasks[t].kind == ProcessSegment && tb.tasks[t].worker == worker
    && tb.tasks[t].job in tb.jobs
  }

  predicate IsNewAssembly(t: Task, j: string, worker: string, address: string, disk: int) {
    && t.job == j && t.kind == AssembleGif && t.segmentIndex == -1 && t.status == Assigned
    && t.worker == worker && t.address == address && t.requiredDisk == disk
  }

  /** The job is completed and its result credited to the reporting worker, under the reported name
      or else the job's own. */
  predicate IsSettled(was: Job, now: Job, worker: string, address: string, name: string) {
    && now.status == JobCompleted && now.resultWorker == worker && now.resultAddress == address
    && (name != "" ==> now.resultName == name)
    && now.source == was.source && now.video == was.video && now.identity == was.identity && now.taskIDs == was.taskIDs
    && now.segmentCount == was.segmentCount && now.totalSize == was.totalSize && now.sourceAddress == was.sourceAddress
  }

  // ----- the reply of an assemble worker -----

  datatype StartReply = Accepted | Lost | Refusal | NoStorage(diskFree: int)

  /** A worker that lacks storage says how much it has, and Entry believes it. */
  function Observed(ws: Table, id: string, reply: StartReply): Table
    requires id in ws
  {
    if reply.NoStorage? && reply.diskFree > 0 then ws[id := ws[id].(diskFree := reply.diskFree)] else ws
  }

  // ----- facts about a plan's reservations -----

  lemma {:induction false} PicksKnown(tables: seq<Table>, picks: seq<string>, plan: seq<PlanEntry>,
                                      source: string, n: nat)
    requires Placement.PlanRun(tables, picks, plan, source) && n <= |picks|
    ensures tables[n].Keys == tables[0].Keys && forall i :: 0 <= i < n ==> picks[i] in tables[0]
  {
    if n > 0 {
      PicksKnown(tables, picks, plan, source, n - 1);
      assert Placement.PlacedAt(tables, picks, plan, source, n - 1);
    }
  }

  predicate CanPlaceInternal(ws: Table, source: string) {
    Eligible(ws, ProcessSegment, source)
  }

  /** Some worker can take a segment of this mode. */
  ghost predicate CanPlace(ws: Table, source: string, mode: Mode) {
    match mode
    case Internal => CanPlaceInternal(ws, source)
    case External => exists id :: Eligible(ws, ProcessSegment, id)
  }

  /** Why a plan cannot be reserved: the cause of its first segment that cannot be placed or gets no
      task id. */
  ghost function PlanFailure(ws: Table, source: string, plan: seq<PlanEntry>,
                             taskIDs: seq<Option<string>>): Option<Error>
    requires |taskIDs| == |plan|
  {
    if plan == [] then None
    else if !CanPlace(ws, source, plan[0].mode) then Some(InsufficientResources)
    else if taskIDs[0].None? then Some(NoID)
    else PlanFailure(ws, source, plan[1..], taskIDs[1..])
  }

  lemma {:induction false} NoFailureMeans(ws: Table, source: string, plan: seq<PlanEntry>, taskIDs: seq<Option<string>>)
    requires |taskIDs| == |plan|
    ensures PlanFailure(ws, source, plan, taskIDs) == None <==>
            forall i :: 0 <= i < |plan| ==> CanPlace(ws, source, plan[i].mode) && taskIDs[i].Some?
    decreases |plan|
  {
    if plan != [] {
      NoFailureMeans(ws, source, plan[1..], taskIDs[1..]);
      assert forall i :: 1 <= i < |plan| ==> plan[i] == plan[1..][i - 1] && taskIDs[i] == taskIDs[1..][i - 1];
    }
  }

  /** Reservations change nobody's eligibility. */
  lemma PlaceableStill(ws0: Table, picks: seq<string>, source: string, mode: Mode, pick: Option<string>)
    requires PickFor(Taken(ws0, picks), source, mode, pick)
    ensures pick.Some? <==> CanPlace(ws0, source, mode)
  {
    assert forall id :: Eligible(Taken(ws0, picks), ProcessSegment, id) <==> Eligible(ws0, ProcessSegment, id);
  }

  lemma TakenGrows(ws0: Table, picks: seq<string>, id: string)
    requires Eligible(Taken(ws0, picks), ProcessSegment, id)
    ensures id in Taken(ws0, picks) && Eligible(ws0, ProcessSegment, id)
    ensures Taken(ws0, picks + [id]) == Reserve(Taken(ws0, picks), id, 0)
  {
    var ws, ws' := Taken(ws0, picks), Taken(ws0, picks + [id]);
    forall o | o in ws0 ensures ws'[o] == Reserve(ws, id, 0)[o] {
      CountAppend(picks, [id], o);
    }
  }

  lemma ChainGrows(tables: seq<Table>, picks: seq<string>, plan: seq<PlanEntry>, source: string, id: string, ws: Table)
    requires Placement.PlanRun(tables, picks, plan, source) && |picks| < |plan|
    requires PickFor(tables[|picks|], source, plan[|picks|].mode, Some(id))
    requires id in tables[|picks|] && ws == Reserve(tables[|picks|], id, 0)
    ensures Placement.PlanRun(tables + [ws], picks + [id], plan, source)
  {
    var tables', picks' := tables + [ws], picks + [id];
    forall i | 0 <= i < |picks'| ensures Placement.PlacedAt(tables', picks', plan, source, i) {
      if i < |picks| {
        assert Placement.PlacedAt(tables, picks, plan, source, i);
      }
    }
  }

  /** Releasing what was taken, in the same order, restores the table. */
  lemma {:induction false} UndoTaken(ws0: Table, picks: seq<string>)
    requires FreeDerived(ws0) && forall id :: id in ws0 ==> 0 <= ws0[id].reservedSlots
    requires forall k :: 0 <= k < |picks| ==> Eligible(ws0, ProcessSegment, picks[k])
    ensures ReleaseAll(Taken(ws0, picks), picks) == ws0
  {
    if picks == [] {
      TakenNone(ws0);
    } else {
      GiveBackOne(ws0, ProcessSegment, picks);
      UndoTaken(ws0, picks[1..]);
    }
  }
}
