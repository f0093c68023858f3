/** Entry as a concurrent system: the worker registry, the job tables and the requests that are
    in flight. One action is one critical section; a request between two sections is a `Call`
    that remembers where it is and what it has reserved or still has to release. Everything the
    environment decides (which worker a scan meets, ids, replies of remote workers, expiry) is a
    parameter of the action. */
module Entry {
  import opened Wrappers
  import opened Workers
  import opened Jobs
  import DiskEstimate

  datatype Answer =
    | Created(key: string, job: string)
    | Existing(key: string, job: string)
    | Refused(error: Error)
    | Settled

  datatype Placed = Placed(id: string, worker: string, address: string)

  datatype Call =
    | CreateChecked(source: string, address: string, video: string, total: int, plan: seq<PlanEntry>)
    | Creating(source: string, address: string, video: string, total: int, plan: seq<PlanEntry>,
               job: string, placed: seq<Placed>)
    | CreateUndoing(owed: seq<string>, cause: Error)
    | SegmentReleasing(worker: string, job: string, last: bool)
    | AssembleReady(job: string)
    | AssembleSized(job: string, segments: seq<SegmentRef>, disk: int)
    | AssembleReserved(job: string, segments: seq<SegmentRef>, worker: string, address: string, disk: int)
    | AssembleAborting(job: string, worker: string, disk: int)
    | AssembleGivingUp(job: string)
    | AssembleStale(worker: string, disk: int)
    | AssembleNotifying(job: string, segments: seq<SegmentRef>, worker: string, disk: int, task: string)
    | AssembleCancelling(worker: string, disk: int, surplus: bool)
    | ReportReady(job: string, worker: string, address: string, name: string)
    | ReportReleasing(worker: string, disk: int)
    | Finished(answer: Answer)

  datatype System = System(
    workers: Table, idByAddress: map<string, string>, tables: Tables, calls: map<nat, Call>)

  function Initial(): System {
    System(map[], map[], Tables(map[], map[], map[]), map[])
  }

  datatype Action =
    | Register(req: Registration, id: string)
    | Heartbeat(worker: string, diskFree: int)
    | ExpireSome(late: set<string>)
    | ObserveDisk(worker: string, diskFree: int)
    | CreateBegin(c: nat, source: string, video: string, total: int, plan: seq<PlanEntry>)
    | CreateFind(c: nat, newID: Option<string>)
    | CreateReserve(c: nat, task: string, pick: Option<string>, idFails: bool)
    | CreateUndo(c: nat)
    | CreateCommit(c: nat)
    | SegmentAccepted(task: string, worker: string)
    | SegmentCompletes(c: nat, task: string, worker: string, report: SegmentReport)
    | SegmentFails(c: nat, task: string, worker: string)
    | SegmentRelease(c: nat)
    | AssembleSnapshot(c: nat)
    | AssemblePick(c: nat, pick: Option<string>)
    | AssembleIdFails(c: nat)
    | AssembleGiveUp(c: nat)
    | AssembleRecord(c: nat, task: string)
    | AssembleStarted(c: nat)
    | AssembleStartErrs(c: nat)
    | SettleRelease(c: nat)
    | ReportBegin(c: nat, job: string, worker: string, name: string)
    | ReportSuccess(c: nat)
    | ReportFailure(c: nat, job: string, worker: string)

  // ----- pieces of the actions -----

  /** The key under which a job is known: source address, NUL, video name. */
  function IdentityKey(address: string, video: string): string {
    address + "\0" + video
  }

  /** What the registry answers for one planned segment. */
  ghost predicate PickFor(ws: Table, source: string, mode: Mode, pick: Option<string>) {
    match mode
    case Internal => pick == if Eligible(ws, ProcessSegment, source) then Some(source) else None
    case External =>
      match pick
      case Some(id) => IsLeastBusy(ws, ProcessSegment, source, id)
      case None => forall id :: !Eligible(ws, ProcessSegment, id)
  }

  ghost predicate PickDisk(ws: Table, disk: int, pick: Option<string>) {
    match pick
    case Some(id) => IsBestDisk(ws, AssembleGif, disk, id)
    case None => forall id :: !Fits(ws, AssembleGif, disk, id)
  }

  function WorkersOf(placed: seq<Placed>): (ids: seq<string>)
    ensures |ids| == |placed|
  {
    seq(|placed|, i requires 0 <= i < |placed| => placed[i].worker)
  }

  /** The tasks a request has built so far, in plan order. */
  function BuiltTasks(j: string, plan: seq<PlanEntry>, placed: seq<Placed>): (built: seq<NamedTask>)
    requires |placed| <= |plan|
    ensures |built| == |placed|
  {
    seq(|placed|, i requires 0 <= i < |placed| =>
      NamedTask(placed[i].id, Task(j, ProcessSegment, plan[i].segmentIndex, placed[i].worker,
                                   placed[i].address, Assigned, 0, "", 0, 0)))
  }

  function BuiltJob(call: Call): Job
    requires call.Creating?
  {
    Job(call.source, call.address, call.video, |call.plan|, call.total,
        IdentityKey(call.address, call.video), SegmentAssigned,
        seq(|call.placed|, i requires 0 <= i < |call.placed| => call.placed[i].id), "", "", "")
  }

  /** What a job records of the request that created it. */
  predicate IsNewJob(job: Job, call: Call)
    requires call.Creating?
  {
    && job.source == call.source && job.sourceAddress == call.address && job.video == call.video
    && job.totalSize == call.total && job.segmentCount == |call.plan| && job.status == SegmentAssigned
    && job.resultWorker == "" && job.resultAddress == "" && job.resultName == ""
    && |job.taskIDs| == |call.placed| && forall i :: 0 <= i < |call.placed| ==> job.taskIDs[i] == call.placed[i].id
  }

  function Sizes(segments: seq<SegmentRef>): seq<int> {
    seq(|segments|, i requires 0 <= i < |segments| => segments[i].outputSize)
  }

  function Put(s: System, c: nat, call: Call): System {
    s.(calls := s.calls[c := call])
  }

  // ----- when an action can happen -----

  /** The call `c` is in flight. */
  predicate At(s: System, c: nat) {
    c in s.calls
  }

  /** New ids do not collide with recorded ones: the assumption made about random ids. */
  ghost predicate FreshIds(s: System, call: Call)
    requires call.Creating? && |call.placed| <= |call.plan|
  {
    && call.job !in s.tables.jobs
    && FreshTasks(s.tables.tasks, BuiltTasks(call.job, call.plan, call.placed))
  }

  ghost predicate Enabled(s: System, a: Action) {
    match a
    case Register(req, id) => id !in s.workers
    case Heartbeat(_, _) => true
    case ExpireSome(_) => true
    case ObserveDisk(_, _) => true
    case CreateBegin(c, _, _, _, plan) => !At(s, c) && plan != []
    case CreateFind(c, _) => At(s, c) && s.calls[c].CreateChecked?
    case CreateReserve(c, _, pick, _) =>
      && At(s, c) && s.calls[c].Creating? && |s.calls[c].placed| < |s.calls[c].plan|
      && PickFor(s.workers, s.calls[c].source, s.calls[c].plan[|s.calls[c].placed|].mode, pick)
    case CreateUndo(c) => At(s, c) && s.calls[c].CreateUndoing?
    case CreateCommit(c) =>
      && At(s, c) && s.calls[c].Creating? && |s.calls[c].placed| == |s.calls[c].plan|
      && (IdentityKey(s.calls[c].address, s.calls[c].video) in s.tables.byIdentity || FreshIds(s, s.calls[c]))
    case SegmentAccepted(_, _) => true
    case SegmentCompletes(c, _, _, _) => !At(s, c)
    case SegmentFails(c, _, _) => !At(s, c)
    case SegmentRelease(c) => At(s, c) && s.calls[c].SegmentReleasing?
    case AssembleSnapshot(c) => At(s, c) && s.calls[c].AssembleReady?
    case AssemblePick(c, pick) => At(s, c) && s.calls[c].AssembleSized? && PickDisk(s.workers, s.calls[c].disk, pick)
    case AssembleIdFails(c) => At(s, c) && s.calls[c].AssembleReserved?
    case AssembleGiveUp(c) => At(s, c) && s.calls[c].AssembleGivingUp?
    case AssembleRecord(c, task) => At(s, c) && s.calls[c].AssembleReserved? && task !in s.tables.tasks
    case AssembleStarted(c) => At(s, c) && s.calls[c].AssembleNotifying?
    case AssembleStartErrs(c) => At(s, c) && s.calls[c].AssembleNotifying?
    case SettleRelease(c) => At(s, c) && OwesRelease(s.calls[c])
    case ReportBegin(c, _, _, _) => !At(s, c)
    case ReportSuccess(c) => At(s, c) && s.calls[c].ReportReady?
    case ReportFailure(c, _, _) => !At(s, c)
  }

  /** A call whose next section is a single ReleaseReservation. */
  predicate OwesRelease(call: Call) {
    call.AssembleAborting? || call.AssembleStale? || call.AssembleCancelling? || call.ReportReleasing?
  }

  // ----- what an action does -----

  function DoRegister(s: System, req: Registration, id: string): System {
    if req.address in s.idByAddress then
      var known := s.idByAddress[req.address];
      if known in s.workers then s.(workers := s.workers[known := Reregistered(s.workers[known], req)]) else s
    else
      s.(workers := s.workers[id := NewWorker(req)], idByAddress := s.idByAddress[req.address := id])
  }

  function DoHeartbeat(s: System, worker: string, diskFree: int): System {
    if worker in s.workers then s.(workers := s.workers[worker := HeartBeaten(s.workers[worker], diskFree)]) else s
  }

  function DoObserveDisk(s: System, worker: string, diskFree: int): System {
    if worker in s.workers then s.(workers := s.workers[worker := s.workers[worker].(diskFree := diskFree)]) else s
  }

  function DoCreateBegin(s: System, c: nat, source: string, video: string, total: int, plan: seq<PlanEntry>): System {
    Put(s, c, if source in s.workers then CreateChecked(source, s.workers[source].address, video, total, plan)
              else Finished(Refused(WorkerNotFound)))
  }

  function DoCreateFind(s: System, c: nat, job: Option<string>): System
    requires At(s, c) && s.calls[c].CreateChecked?
  {
    var call := s.calls[c];
    var key := IdentityKey(call.address, call.video);
    if key in s.tables.byIdentity && s.tables.byIdentity[key] in s.tables.jobs then
      Put(s, c, Finished(Existing(key, s.tables.byIdentity[key])))
    else if job.None? then Put(s, c, Finished(Refused(NoID)))
    else Put(s, c, Creating(call.source, call.address, call.video, call.total, call.plan, job.value, []))
  }

  function DoCreateReserve(s: System, c: nat, task: string, pick: Option<string>, idFails: bool): System
    requires At(s, c) && s.calls[c].Creating?
    requires pick.Some? ==> pick.value in s.workers
  {
    var call := s.calls[c];
    if pick.None? then Put(s, c, CreateUndoing(WorkersOf(call.placed), InsufficientResources))
    else
      var s' := s.(workers := Reserve(s.workers, pick.value, 0));
      var placed := call.placed + [Placed(task, pick.value, s.workers[pick.value].address)];
      Put(s', c, if idFails then CreateUndoing(WorkersOf(placed), NoID) else call.(placed := placed))
  }

  function DoCreateUndo(s: System, c: nat): System
    requires At(s, c) && s.calls[c].CreateUndoing?
  {
    Put(s.(workers := ReleaseAll(s.workers, s.calls[c].owed)), c, Finished(Refused(s.calls[c].cause)))
  }

  function DoCreateCommit(s: System, c: nat): System
    requires At(s, c) && s.calls[c].Creating? && |s.calls[c].placed| <= |s.calls[c].plan|
  {
    var call := s.calls[c];
    var key := IdentityKey(call.address, call.video);
    if key in s.tables.byIdentity then
      Put(s.(workers := ReleaseAll(s.workers, WorkersOf(call.placed))), c,
          Finished(Existing(key, s.tables.byIdentity[key])))
    else
      Put(s.(tables := Insert(s.tables, call.job, BuiltJob(call), BuiltTasks(call.job, call.plan, call.placed))), c,
          Finished(Created(key, call.job)))
  }

  function DoSegmentAccepted(s: System, task: string, worker: string): System {
    var r := Accept(s.tables, task, worker);
    if r.Ok? then s.(tables := r.value) else s
  }

  function DoSegmentCompletes(s: System, c: nat, task: string, worker: string, report: SegmentReport): System {
    var r := Complete(s.tables, task, worker, report);
    if r.Ok? then
      Put(s.(tables := r.value.0), c, SegmentReleasing(worker, s.tables.tasks[task].job, r.value.1))
    else Put(s, c, Finished(Refused(r.error)))
  }

  function DoSegmentFails(s: System, c: nat, task: string, worker: string): System {
    var r := Jobs.FailSegment(s.tables, task, worker);
    if r.Ok? then
      Put(s.(tables := r.value), c, SegmentReleasing(worker, s.tables.tasks[task].job, false))
    else Put(s, c, Finished(Refused(r.error)))
  }

  function DoSegmentRelease(s: System, c: nat): System
    requires At(s, c) && s.calls[c].SegmentReleasing?
  {
    var call := s.calls[c];
    Put(s.(workers := Release(s.workers, call.worker, 0)), c,
        if call.last then AssembleReady(call.job) else Finished(Settled))
  }

  function DoAssembleSnapshot(s: System, c: nat): System
    requires At(s, c) && s.calls[c].AssembleReady?
  {
    var j := s.calls[c].job;
    var r := Snapshot(s.tables, j);
    if r.Ok? && j in s.tables.jobs then
      Put(s, c, AssembleSized(j, r.value, DiskEstimate.Estimate(s.tables.jobs[j].totalSize, Sizes(r.value))))
    else Put(s, c, Finished(Refused(InvalidState)))
  }

  function DoAssemblePick(s: System, c: nat, pick: Option<string>): System
    requires At(s, c) && s.calls[c].AssembleSized?
    requires pick.Some? ==> pick.value in s.workers
  {
    var call := s.calls[c];
    if pick.None? then Put(s, c, AssembleGivingUp(call.job))
    else Put(s.(workers := Reserve(s.workers, pick.value, call.disk)), c,
             AssembleReserved(call.job, call.segments, pick.value, s.workers[pick.value].address, call.disk))
  }

  function DoAssembleIdFails(s: System, c: nat): System
    requires At(s, c) && s.calls[c].AssembleReserved?
  {
    Put(s, c, AssembleAborting(s.calls[c].job, s.calls[c].worker, s.calls[c].disk))
  }

  function DoAssembleGiveUp(s: System, c: nat): System
    requires At(s, c) && s.calls[c].AssembleGivingUp?
  {
    Put(s.(tables := MarkFailed(s.tables, s.calls[c].job)), c, Finished(Refused(InsufficientResources)))
  }

  function DoAssembleRecord(s: System, c: nat, task: string): System
    requires At(s, c) && s.calls[c].AssembleReserved?
  {
    var call := s.calls[c];
    var r := CommitAssemble(s.tables, call.job, task, call.worker, call.address, call.disk);
    if r.Ok? then Put(s.(tables := r.value), c, AssembleNotifying(call.job, call.segments, call.worker, call.disk, task))
    else Put(s, c, AssembleStale(call.worker, call.disk))
  }

  function DoAssembleStarted(s: System, c: nat): System
    requires At(s, c) && s.calls[c].AssembleNotifying?
  {
    Put(s.(tables := StartOk(s.tables, s.calls[c].job, s.calls[c].task)), c, Finished(Settled))
  }

  /** The start call came back with an error. The release that follows is surplus when a report
      settled the assemble task first, because that report releases the same reservation. */
  function DoAssembleStartErrs(s: System, c: nat): System
    requires At(s, c) && s.calls[c].AssembleNotifying?
  {
    var call := s.calls[c];
    var surplus := !(call.task in s.tables.tasks && Live(s.tables.tasks[call.task]));
    Put(s.(tables := StartFailed(s.tables, call.job, call.task)), c, AssembleCancelling(call.worker, call.disk, surplus))
  }

  function DoSettleRelease(s: System, c: nat): System
    requires At(s, c) && OwesRelease(s.calls[c])
  {
    var call := s.calls[c];
    Put(s.(workers := Release(s.workers, call.worker, call.disk)), c,
        if call.AssembleAborting? then AssembleGivingUp(call.job) else Finished(Settled))
  }

  function DoReportBegin(s: System, c: nat, job: string, worker: string, name: string): System {
    Put(s, c, if worker in s.workers then ReportReady(job, worker, s.workers[worker].address, name)
              else Finished(Refused(WorkerNotFound)))
  }

  function DoReportSuccess(s: System, c: nat): System
    requires At(s, c) && s.calls[c].ReportReady?
  {
    var call := s.calls[c];
    var r := ReportComplete(s.tables, call.job, call.worker, call.address, call.name);
    if r.Ok? && r.value.1 in s.tables.tasks then
      Put(s.(tables := r.value.0), c, ReportReleasing(call.worker, s.tables.tasks[r.value.1].requiredDisk))
    else Put(s, c, Finished(Refused(if r.Err? then r.error else InvalidState)))
  }

  function DoReportFailure(s: System, c: nat, job: string, worker: string): System {
    var r := ReportFail(s.tables, job, worker);
    if r.Ok? && r.value.1 in s.tables.tasks then
      Put(s.(tables := r.value.0), c, ReportReleasing(worker, s.tables.tasks[r.value.1].requiredDisk))
    else Put(s, c, Finished(Refused(if r.Err? then r.error else InvalidState)))
  }

  ghost function Next(s: System, a: Action): System
    requires Enabled(s, a)
  {
    match a
    case Register(req, id) => DoRegister(s, req, id)
    case Heartbeat(worker, diskFree) => DoHeartbeat(s, worker, diskFree)
    case ExpireSome(late) => s.(workers := Expire(s.workers, late))
    case ObserveDisk(worker, diskFree) => DoObserveDisk(s, worker, diskFree)
    case CreateBegin(c, source, video, total, plan) => DoCreateBegin(s, c, source, video, total, plan)
    case CreateFind(c, job) => DoCreateFind(s, c, job)
    case CreateReserve(c, task, pick, idFails) => DoCreateReserve(s, c, task, pick, idFails)
    case CreateUndo(c) => DoCreateUndo(s, c)
    case CreateCommit(c) => DoCreateCommit(s, c)
    case SegmentAccepted(task, worker) => DoSegmentAccepted(s, task, worker)
    case SegmentCompletes(c, task, worker, report) => DoSegmentCompletes(s, c, task, worker, report)
    case SegmentFails(c, task, worker) => DoSegmentFails(s, c, task, worker)
    case SegmentRelease(c) => DoSegmentRelease(s, c)
    case AssembleSnapshot(c) => DoAssembleSnapshot(s, c)
    case AssemblePick(c, pick) => DoAssemblePick(s, c, pick)
    case AssembleIdFails(c) => DoAssembleIdFails(s, c)
    case AssembleGiveUp(c) => DoAssembleGiveUp(s, c)
    case AssembleRecord(c, task) => DoAssembleRecord(s, c, task)
    case AssembleStarted(c) => DoAssembleStarted(s, c)
    case AssembleStartErrs(c) => DoAssembleStartErrs(s, c)
    case SettleRelease(c) => DoSettleRelease(s, c)
    case ReportBegin(c, job, worker, name) => DoReportBegin(s, c, job, worker, name)
    case ReportSuccess(c) => DoReportSuccess(s, c)
    case ReportFailure(c, job, worker) => DoReportFailure(s, c, job, worker)
  }

  // ----- the sections by what they are about -----

  predicate RegistryAction(a: Action) {
    a.Register? || a.Heartbeat? || a.ExpireSome? || a.ObserveDisk?
  }

  predicate CreateAction(a: Action) {
    a.CreateBegin? || a.CreateFind? || a.CreateReserve? || a.CreateUndo? || a.CreateCommit?
  }

  predicate SegmentAction(a: Action) {
    a.SegmentAccepted? || a.SegmentCompletes? || a.SegmentFails? || a.SegmentRelease?
  }

  predicate ReportAction(a: Action) {
    a.ReportBegin? || a.ReportSuccess? || a.ReportFailure?
  }

  predicate AssembleAction(a: Action) {
    a.AssembleSnapshot? || a.AssemblePick? || a.AssembleIdFails? || a.AssembleGiveUp? || a.AssembleRecord?
    || a.AssembleStarted? || a.AssembleStartErrs?
  }
}
