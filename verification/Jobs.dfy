/** The job tables of Entry and what each critical section under the job lock does to them.
    A section that answers an error leaves the tables as they are. */
module Jobs {
  import opened Wrappers
  import opened Workers

  datatype JobStatus =
    | SegmentAssigned | SegmentRunning | SegmentCompleted
    | AssembleAssigned | AssembleRunning | JobCompleted | JobFailed

  datatype TaskStatus = Assigned | Running | Completed | Failed

  datatype Mode = Internal | External

  datatype PlanEntry = PlanEntry(segmentIndex: int, mode: Mode)

  datatype Task = Task(
    job: string, kind: TaskKind, segmentIndex: int, worker: string, address: string,
    status: TaskStatus, requiredDisk: int, checksum: string, frameCount: int, outputSize: int)

  datatype Job = Job(
    source: string, sourceAddress: string, video: string, segmentCount: nat, totalSize: int,
    identity: string, status: JobStatus, taskIDs: seq<string>,
    resultWorker: string, resultAddress: string, resultName: string)

  datatype Tables = Tables(jobs: map<string, Job>, tasks: map<string, Task>, byIdentity: map<string, string>)

  datatype Error = TaskNotFound | WorkerMismatch | InvalidState | WorkerNotFound | InsufficientResources | NoID

  predicate Live(t: Task) {
    t.status == Assigned || t.status == Running
  }

  // ----- segment reports -----

  /** The checks every segment report passes first; answers the task's job. */
  function FindSegment(tb: Tables, t: string, worker: string): Result<string, Error> {
    if t !in tb.tasks then Err(TaskNotFound)
    else if tb.tasks[t].kind != ProcessSegment then Err(InvalidState)
    else if tb.tasks[t].worker != worker then Err(WorkerMismatch)
    else if tb.tasks[t].job !in tb.jobs then Err(InvalidState)
    else Ok(tb.tasks[t].job)
  }

  /** A job and one of its tasks are written together under the lock. */
  function Touch(tb: Tables, t: string, task: Task, j: string, job: Job): Tables {
    tb.(tasks := tb.tasks[t := task], jobs := tb.jobs[j := job])
  }

  function Accept(tb: Tables, t: string, worker: string): Result<Tables, Error> {
    var found := FindSegment(tb, t, worker);
    if found.Err? then Err(found.error)
    else if tb.tasks[t].status != Assigned then Err(InvalidState)
    else
      var j := found.value;
      Ok(Touch(tb, t, tb.tasks[t].(status := Running), j, tb.jobs[j].(status := SegmentRunning)))
  }

  datatype SegmentReport = SegmentReport(checksum: string, frameCount: int, outputSize: int)

  /** Nothing of the task changes but its status and what the report brought. */
  predicate Records(was: Task, now: Task, rep: SegmentReport) {
    && now.status == Completed && now.checksum == rep.checksum
    && now.frameCount == rep.frameCount && now.outputSize == rep.outputSize
    && now.job == was.job && now.kind == was.kind && now.segmentIndex == was.segmentIndex
    && now.worker == was.worker && now.address == was.address && now.requiredDisk == was.requiredDisk
  }

  /** Every listed task is a completed segment. */
  predicate AllComplete(tasks: map<string, Task>, ids: seq<string>) {
    forall i :: 0 <= i < |ids| ==>
      ids[i] in tasks && tasks[ids[i]].kind == ProcessSegment && tasks[ids[i]].status == Completed
  }

  /** Completing a segment also tells whether it was the last one. */
  function Complete(tb: Tables, t: string, worker: string, rep: SegmentReport): Result<(Tables, bool), Error> {
    var found := FindSegment(tb, t, worker);
    if found.Err? then Err(found.error)
    else if !Live(tb.tasks[t]) then Err(InvalidState)
    else
      var j := found.value;
      var task := tb.tasks[t].(status := Completed, checksum := rep.checksum,
                               frameCount := rep.frameCount, outputSize := rep.outputSize);
      var last := AllComplete(tb.tasks[t := task], tb.jobs[j].taskIDs);
      var job := if last then tb.jobs[j].(status := SegmentCompleted) else tb.jobs[j];
      Ok((Touch(tb, t, task, j, job), last))
  }

  function FailSegment(tb: Tables, t: string, worker: string): Result<Tables, Error> {
    var found := FindSegment(tb, t, worker);
    if found.Err? then Err(found.error)
    else if !Live(tb.tasks[t]) then Err(InvalidState)
    else
      var j := found.value;
      Ok(Touch(tb, t, tb.tasks[t].(status := Failed), j, tb.jobs[j].(status := JobFailed)))
  }

  // ----- creation -----

  datatype NamedTask = NamedTask(id: string, task: Task)

  function InsertTasks(tasks: map<string, Task>, added: seq<NamedTask>): map<string, Task>
    decreases |added|
  {
    if added == [] then tasks else InsertTasks(tasks[added[0].id := added[0].task], added[1..])
  }

  function Insert(tb: Tables, j: string, job: Job, added: seq<NamedTask>): Tables {
    Tables(tb.jobs[j := job], InsertTasks(tb.tasks, added), tb.byIdentity[job.identity := j])
  }

  // ----- assembly -----

  datatype SegmentRef = SegmentRef(
    segmentIndex: int, task: string, worker: string, address: string,
    checksum: string, frameCount: int, outputSize: int)

  function RefOf(id: string, t: Task): SegmentRef {
    SegmentRef(t.segmentIndex, id, t.worker, t.address, t.checksum, t.frameCount, t.outputSize)
  }

  function Refs(tasks: map<string, Task>, ids: seq<string>): (refs: seq<SegmentRef>)
    requires forall i :: 0 <= i < |ids| ==> ids[i] in tasks
    ensures |refs| == |ids|
    ensures forall i :: 0 <= i < |ids| ==> refs[i] == RefOf(ids[i], tasks[ids[i]])
  {
    seq(|ids|, i requires 0 <= i < |ids| => RefOf(ids[i], tasks[ids[i]]))
  }

  /** The read section of startAssembleGIF. */
  function Snapshot(tb: Tables, j: string): Result<seq<SegmentRef>, Error> {
    if j !in tb.jobs then Err(InvalidState)
    else if !AllComplete(tb.tasks, tb.jobs[j].taskIDs) then Err(InvalidState)
    else Ok(Refs(tb.tasks, tb.jobs[j].taskIDs))
  }

  function AssembleTask(j: string, worker: string, address: string, disk: int): Task {
    Task(j, AssembleGif, -1, worker, address, Assigned, disk, "", 0, 0)
  }

  /** The section that re-checks the job and records its assemble task. */
  function CommitAssemble(tb: Tables, j: string, t: string, worker: string, address: string,
                          disk: int): Result<Tables, Error> {
    if j !in tb.jobs || tb.jobs[j].status != SegmentCompleted then Err(InvalidState)
    else Ok(Touch(tb, t, AssembleTask(j, worker, address, disk), j,
                  tb.jobs[j].(taskIDs := tb.jobs[j].taskIDs + [t], status := AssembleAssigned)))
  }

  /** The assemble worker answered success. */
  function StartOk(tb: Tables, j: string, t: string): Tables {
    var tasks := if t in tb.tasks && tb.tasks[t].status == Assigned
                 then tb.tasks[t := tb.tasks[t].(status := Running)] else tb.tasks;
    var jobs := if j in tb.jobs && tb.jobs[j].status == AssembleAssigned
                then tb.jobs[j := tb.jobs[j].(status := AssembleRunning)] else tb.jobs;
    tb.(tasks := tasks, jobs := jobs)
  }

  /** markJobFailed. */
  function MarkFailed(tb: Tables, j: string): Tables {
    if j in tb.jobs then tb.(jobs := tb.jobs[j := tb.jobs[j].(status := JobFailed)]) else tb
  }

  /** The locked part of markAssembleStartFailed: the job fails whatever its status. */
  function StartFailed(tb: Tables, j: string, t: string): Tables {
    var tasks := if t in tb.tasks && Live(tb.tasks[t])
                 then tb.tasks[t := tb.tasks[t].(status := Failed)] else tb.tasks;
    MarkFailed(tb.(tasks := tasks), j)
  }

  function FirstAssemble(tasks: map<string, Task>, ids: seq<string>): Option<string> {
    if ids == [] then None
    else if ids[0] in tasks && tasks[ids[0]].kind == AssembleGif then Some(ids[0])
    else FirstAssemble(tasks, ids[1..])
  }

  /** Which task a report about an assembled job settles. */
  function AssembleTarget(tb: Tables, j: string, worker: string): Result<string, Error> {
    if j !in tb.jobs then Err(TaskNotFound)
    else if tb.jobs[j].status !in {AssembleAssigned, AssembleRunning, SegmentCompleted} then Err(InvalidState)
    else match FirstAssemble(tb.tasks, tb.jobs[j].taskIDs)
      case None => Err(InvalidState)
      case Some(t) =>
        if t !in tb.tasks || tb.tasks[t].worker != worker then Err(WorkerMismatch)
        else if !Live(tb.tasks[t]) then Err(InvalidState)
        else Ok(t)
  }

  function ResultName(j: string, name: string): string {
    if name == "" then j + ".gif" else name
  }

  function ReportComplete(tb: Tables, j: string, worker: string, address: string,
                          name: string): Result<(Tables, string), Error> {
    var target := AssembleTarget(tb, j, worker);
    if target.Err? || j !in tb.jobs || target.value !in tb.tasks then
      Err(if target.Err? then target.error else InvalidState)
    else
      var t := target.value;
      Ok((Touch(tb, t, tb.tasks[t].(status := Completed), j,
                tb.jobs[j].(status := JobCompleted, resultWorker := worker, resultAddress := address,
                            resultName := ResultName(j, name))), t))
  }

  function ReportFail(tb: Tables, j: string, worker: string): Result<(Tables, string), Error> {
    var target := AssembleTarget(tb, j, worker);
    if target.Err? || j !in tb.jobs || target.value !in tb.tasks then
      Err(if target.Err? then target.error else InvalidState)
    else
      var t := target.value;
      Ok((Touch(tb, t, tb.tasks[t].(status := Failed), j, tb.jobs[j].(status := JobFailed)), t))
  }

  // ----- what the tables always satisfy -----

  predicate HasAssemble(job: Job) {
    |job.taskIDs| == job.segmentCount + 1
  }

  /** All segments of the job are completed. */
  predicate SegmentsDone(tasks: map<string, Task>, job: Job) {
    && job.segmentCount <= |job.taskIDs|
    && AllComplete(tasks, job.taskIDs[..job.segmentCount])
  }

  /** The task list of a job is its segments in order, then at most one assemble task. */
  predicate ListOk(tb: Tables, j: string)
    requires j in tb.jobs
  {
    var job := tb.jobs[j];
    && 1 <= job.segmentCount <= |job.taskIDs| <= job.segmentCount + 1
    && (forall i :: 0 <= i < |job.taskIDs| ==>
          && job.taskIDs[i] in tb.tasks
          && tb.tasks[job.taskIDs[i]].job == j
          && tb.tasks[job.taskIDs[i]].kind == (if i < job.segmentCount then ProcessSegment else AssembleGif)
          && (i < job.segmentCount ==> tb.tasks[job.taskIDs[i]].requiredDisk == 0))
    && (forall i, k :: 0 <= i < k < |job.taskIDs| ==> job.taskIDs[i] != job.taskIDs[k])
  }

  /** How a job's status is tied to the statuses of its tasks. */
  predicate StatusOk(tb: Tables, j: string)
    requires j in tb.jobs && ListOk(tb, j)
  {
    var job := tb.jobs[j];
    if HasAssemble(job) then
      var asm := tb.tasks[job.taskIDs[job.segmentCount]];
      && SegmentsDone(tb.tasks, job)
      && job.status in {AssembleAssigned, AssembleRunning, JobCompleted, JobFailed}
      && (job.status == AssembleAssigned <==> asm.status == Assigned)
      && (job.status == AssembleRunning <==> asm.status == Running)
      && (job.status == JobCompleted ==> asm.status == Completed && job.resultWorker == asm.worker)
    else
      && job.status in {SegmentAssigned, SegmentRunning, SegmentCompleted, JobFailed}
      && (job.status == SegmentCompleted ==> SegmentsDone(tb.tasks, job))
      && (job.status in {SegmentAssigned, SegmentRunning} ==> !SegmentsDone(tb.tasks, job))
  }

  predicate JobOk(tb: Tables, j: string)
    requires j in tb.jobs
  {
    && ListOk(tb, j)
    && StatusOk(tb, j)
    && tb.jobs[j].identity in tb.byIdentity
    && tb.byIdentity[tb.jobs[j].identity] == j
  }

  predicate TaskOk(tb: Tables, t: string)
    requires t in tb.tasks
  {
    tb.tasks[t].job in tb.jobs && t in tb.jobs[tb.tasks[t].job].taskIDs
  }

  ghost predicate TablesOk(tb: Tables) {
    && (forall j {:trigger JobOk(tb, j)} :: j in tb.jobs ==> JobOk(tb, j))
    && (forall t {:trigger TaskOk(tb, t)} :: t in tb.tasks ==> TaskOk(tb, t))
    && (forall k {:trigger tb.byIdentity[k]} :: k in tb.byIdentity ==> tb.byIdentity[k] in tb.jobs && tb.jobs[tb.byIdentity[k]].identity == k)
  }

  // ----- how the tables may change -----

  predicate TaskEvolves(a: Task, b: Task) {
    && b.job == a.job && b.kind == a.kind && b.segmentIndex == a.segmentIndex
    && b.worker == a.worker && b.address == a.address && b.requiredDisk == a.requiredDisk
    && (Live(a) || b == a)
    && (a.status == Running ==> b.status != Assigned)
  }

  predicate JobEvolves(a: Job, b: Job) {
    && b.source == a.source && b.sourceAddress == a.sourceAddress && b.video == a.video
    && b.segmentCount == a.segmentCount && b.totalSize == a.totalSize && b.identity == a.identity
    && a.taskIDs <= b.taskIDs
  }

  predicate JobKept(a: Tables, b: Tables, j: string) {
    j in a.jobs ==> j in b.jobs && JobEvolves(a.jobs[j], b.jobs[j])
  }

  predicate TaskKept(a: Tables, b: Tables, t: string) {
    t in a.tasks ==> t in b.tasks && TaskEvolves(a.tasks[t], b.tasks[t])
  }

  /** Nothing recorded is ever dropped, and a settled task never changes. */
  ghost predicate Evolves(a: Tables, b: Tables) {
    && (forall j {:trigger JobKept(a, b, j)} :: JobKept(a, b, j))
    && (forall t {:trigger TaskKept(a, b, t)} :: TaskKept(a, b, t))
    && (forall k :: k in a.byIdentity ==> k in b.byIdentity && b.byIdentity[k] == a.byIdentity[k])
  }

  /** Among the jobs that were there, only `j` may differ. */
  ghost predicate OnlyJob(a: Tables, b: Tables, j: string) {
    forall o :: o in a.jobs && o != j ==> o in b.jobs && b.jobs[o] == a.jobs[o]
  }

  lemma EvolvesTransitive(a: Tables, b: Tables, c: Tables)
    requires Evolves(a, b) && Evolves(b, c)
    ensures Evolves(a, c)
  {
    forall j ensures JobKept(a, c, j) {
      assert JobKept(a, b, j) && JobKept(b, c, j);
    }
    forall t ensures TaskKept(a, c, t) {
      assert TaskKept(a, b, t) && TaskKept(b, c, t);
    }
    forall k | k in a.byIdentity ensures k in c.byIdentity && c.byIdentity[k] == a.byIdentity[k] {
      assert b.byIdentity[k] == a.byIdentity[k];
    }
  }

  /** Completed segments stay as they are, so the references taken from them stay exact. */
  lemma RefsStable(a: Tables, b: Tables, j: string)
    requires TablesOk(a) && TablesOk(b) && Evolves(a, b)
    requires j in a.jobs && SegmentsDone(a.tasks, a.jobs[j])
    ensures j in b.jobs && SegmentsDone(b.tasks, b.jobs[j])
    ensures b.jobs[j].taskIDs[..b.jobs[j].segmentCount] == a.jobs[j].taskIDs[..a.jobs[j].segmentCount]
    ensures SegmentRefs(b, j) == SegmentRefs(a, j)
  {
    var n := a.jobs[j].segmentCount;
    assert JobKept(a, b, j);
    assert JobOk(a, j) && JobOk(b, j);
    var ids, ids' := a.jobs[j].taskIDs[..n], b.jobs[j].taskIDs[..n];
    assert ids == ids';
    forall i | 0 <= i < n
      ensures ids[i] in b.tasks && b.tasks[ids[i]] == a.tasks[ids[i]]
    {
      assert TaskKept(a, b, ids[i]);
    }
  }

  /** The references to a job's segments, in task-list order. */
  ghost function SegmentRefs(tb: Tables, j: string): seq<SegmentRef>
    requires TablesOk(tb) && j in tb.jobs
  {
    assert JobOk(tb, j);
    Refs(tb.tasks, tb.jobs[j].taskIDs[..tb.jobs[j].segmentCount])
  }

  // ----- each section keeps the tables well formed -----

  /** Rewriting one task and its job leaves every other job as it was, so only that job has to
      be checked again. */
  lemma TouchKeeps(tb: Tables, t: string, task: Task, j: string, job: Job)
    requires TablesOk(tb)
    requires t in tb.tasks && tb.tasks[t].job == j && TaskEvolves(tb.tasks[t], task)
    requires j in tb.jobs && JobEvolves(tb.jobs[j], job) && job.taskIDs == tb.jobs[j].taskIDs
    requires ListOk(Touch(tb, t, task, j, job), j) ==> StatusOk(Touch(tb, t, task, j, job), j)
    ensures TablesOk(Touch(tb, t, task, j, job))
    ensures Evolves(tb, Touch(tb, t, task, j, job))
    ensures OnlyJob(tb, Touch(tb, t, task, j, job), j)
  {
    TouchEvolves(tb, t, task, j, job);
    TouchedTasksOk(tb, t, task, j, job);
    var tb' := Touch(tb, t, task, j, job);
    forall o | o in tb'.jobs ensures JobOk(tb', o) {
      assert JobOk(tb, o);
      if o != j {
        OtherJobKept(tb, t, task, j, job, o);
      } else {
        TouchedListOk(tb, t, task, j, job);
      }
    }
  }

  lemma TouchEvolves(tb: Tables, t: string, task: Task, j: string, job: Job)
    requires t in tb.tasks && TaskEvolves(tb.tasks[t], task) && j in tb.jobs && JobEvolves(tb.jobs[j], job)
    ensures Evolves(tb, Touch(tb, t, task, j, job)) && OnlyJob(tb, Touch(tb, t, task, j, job), j)
  {
  }

  lemma TouchedTasksOk(tb: Tables, t: string, task: Task, j: string, job: Job)
    requires TablesOk(tb) && t in tb.tasks && tb.tasks[t].job == j && task.job == j
    requires j in tb.jobs && job.taskIDs == tb.jobs[j].taskIDs
    ensures var tb' := Touch(tb, t, task, j, job); forall u {:trigger TaskOk(tb', u)} :: u in tb'.tasks ==> TaskOk(tb', u)
  {
    var tb' := Touch(tb, t, task, j, job);
    forall u | u in tb'.tasks ensures TaskOk(tb', u) {
      assert TaskOk(tb, u);
    }
  }

  lemma TouchedListOk(tb: Tables, t: string, task: Task, j: string, job: Job)
    requires j in tb.jobs && ListOk(tb, j)
    requires t in tb.tasks && TaskEvolves(tb.tasks[t], task)
    requires JobEvolves(tb.jobs[j], job) && job.taskIDs == tb.jobs[j].taskIDs
    ensures ListOk(Touch(tb, t, task, j, job), j)
  {
  }

  lemma OtherJobKept(tb: Tables, t: string, task: Task, j: string, job: Job, o: string)
    requires o in tb.jobs && JobOk(tb, o) && o != j
    requires t in tb.tasks ==> tb.tasks[t].job == j
    ensures JobOk(Touch(tb, t, task, j, job), o)
  {
  }

  /** Where a segment task sits in its job's list. */
  lemma SegmentPosition(tb: Tables, t: string) returns (i: nat)
    requires TablesOk(tb) && t in tb.tasks && tb.tasks[t].kind == ProcessSegment
    ensures tb.tasks[t].job in tb.jobs
    ensures var job := tb.jobs[tb.tasks[t].job]; i < job.segmentCount <= |job.taskIDs| && job.taskIDs[i] == t
  {
    assert TaskOk(tb, t);
    var job := tb.jobs[tb.tasks[t].job];
    assert JobOk(tb, tb.tasks[t].job);
    i :| 0 <= i < |job.taskIDs| && job.taskIDs[i] == t;
  }

  lemma NotDone(tb: Tables, t: string)
    requires TablesOk(tb) && t in tb.tasks && tb.tasks[t].kind == ProcessSegment && tb.tasks[t].status != Completed
    ensures tb.tasks[t].job in tb.jobs
    ensures !SegmentsDone(tb.tasks, tb.jobs[tb.tasks[t].job]) && !HasAssemble(tb.jobs[tb.tasks[t].job])
  {
    var i := SegmentPosition(tb, t);
    var job := tb.jobs[tb.tasks[t].job];
    assert JobOk(tb, tb.tasks[t].job);
    assert job.taskIDs[..job.segmentCount][i] == t;
  }

  lemma AcceptKeeps(tb: Tables, t: string, worker: string)
    requires TablesOk(tb) && Accept(tb, t, worker).Ok?
    ensures var tb' := Accept(tb, t, worker).value; var j := tb.tasks[t].job;
            && j in tb.jobs && !SegmentsDone(tb.tasks, tb.jobs[j])
            && TablesOk(tb') && Evolves(tb, tb') && OnlyJob(tb, tb', j) && tb'.jobs.Keys == tb.jobs.Keys
            && !SegmentsDone(tb'.tasks, tb'.jobs[j])
  {
    var j := tb.tasks[t].job;
    var tb' := Accept(tb, t, worker).value;
    var i := SegmentPosition(tb, t);
    NotDone(tb, t);
    assert tb'.jobs[j].taskIDs[..tb'.jobs[j].segmentCount][i] == t;
    TouchKeeps(tb, t, tb.tasks[t].(status := Running), j, tb.jobs[j].(status := SegmentRunning));
  }

  lemma FailSegmentKeeps(tb: Tables, t: string, worker: string)
    requires TablesOk(tb) && FailSegment(tb, t, worker).Ok?
    ensures var tb' := FailSegment(tb, t, worker).value; var j := tb.tasks[t].job;
            && j in tb.jobs && !SegmentsDone(tb.tasks, tb.jobs[j])
            && TablesOk(tb') && Evolves(tb, tb') && OnlyJob(tb, tb', j) && tb'.jobs.Keys == tb.jobs.Keys
            && !SegmentsDone(tb'.tasks, tb'.jobs[j])
  {
    var j := tb.tasks[t].job;
    var tb' := FailSegment(tb, t, worker).value;
    var i := SegmentPosition(tb, t);
    NotDone(tb, t);
    assert tb'.jobs[j].taskIDs[..tb'.jobs[j].segmentCount][i] == t;
    TouchKeeps(tb, t, tb.tasks[t].(status := Failed), j, tb.jobs[j].(status := JobFailed));
  }

  /** A completion is the last one exactly when it leaves all segments done, and no segment of
      the job was left to complete after that. */
  lemma CompleteKeeps(tb: Tables, t: string, worker: string, rep: SegmentReport)
    requires TablesOk(tb) && Complete(tb, t, worker, rep).Ok?
    ensures var (tb', last) := Complete(tb, t, worker, rep).value; var j := tb.tasks[t].job;
            && j in tb.jobs && !SegmentsDone(tb.tasks, tb.jobs[j])
            && TablesOk(tb') && Evolves(tb, tb') && OnlyJob(tb, tb', j) && tb'.jobs.Keys == tb.jobs.Keys
            && last == SegmentsDone(tb'.tasks, tb'.jobs[j])
            && Records(tb.tasks[t], tb'.tasks[t], rep)
            && tb'.jobs[j].status == (if last then SegmentCompleted else tb.jobs[j].status)
            && (tb'.jobs[j].status == SegmentCompleted ==> last)
  {
    var j := tb.tasks[t].job;
    var (tb', last) := Complete(tb, t, worker, rep).value;
    NotDone(tb, t);
    assert JobOk(tb, j);
    var ids := tb.jobs[j].taskIDs;
    assert ids[..tb.jobs[j].segmentCount] == ids;
    TouchKeeps(tb, t, tb'.tasks[t], j, tb'.jobs[j]);
  }

  lemma CommitAssembleKeeps(tb: Tables, j: string, t: string, worker: string, address: string, disk: int)
    requires TablesOk(tb) && t !in tb.tasks && CommitAssemble(tb, j, t, worker, address, disk).Ok?
    ensures var tb' := CommitAssemble(tb, j, t, worker, address, disk).value;
            && TablesOk(tb') && Evolves(tb, tb') && OnlyJob(tb, tb', j) && tb'.jobs.Keys == tb.jobs.Keys
            && HasAssemble(tb'.jobs[j]) && tb'.jobs[j].taskIDs[tb'.jobs[j].segmentCount] == t
            && SegmentsDone(tb'.tasks, tb'.jobs[j])
  {
    var tb' := CommitAssemble(tb, j, t, worker, address, disk).value;
    assert JobOk(tb, j);
    CommittedJobOk(tb, j, t, worker, address, disk);
    CommittedOthersOk(tb, t, tb'.tasks[t], j, tb'.jobs[j]);
    CommittedTasksOk(tb, tb', j, t);
  }

  lemma CommittedOthersOk(tb: Tables, t: string, task: Task, j: string, job: Job)
    requires TablesOk(tb) && t !in tb.tasks
    ensures var tb' := Touch(tb, t, task, j, job); forall o {:trigger JobOk(tb', o)} :: o in tb.jobs && o != j ==> JobOk(tb', o)
  {
    forall o | o in tb.jobs && o != j ensures JobOk(Touch(tb, t, task, j, job), o) {
      assert JobOk(tb, o);
      OtherJobKept(tb, t, task, j, job, o);
    }
  }

  lemma CommittedTasksOk(tb: Tables, tb': Tables, j: string, t: string)
    requires TablesOk(tb) && j in tb.jobs
    requires tb'.tasks.Keys == tb.tasks.Keys + {t} && tb'.tasks[t].job == j
    requires forall u :: u in tb.tasks && u != t ==> tb'.tasks[u] == tb.tasks[u]
    requires tb'.jobs.Keys == tb.jobs.Keys && OnlyJob(tb, tb', j)
    requires tb'.jobs[j].taskIDs == tb.jobs[j].taskIDs + [t]
    ensures forall u :: u in tb'.tasks ==> TaskOk(tb', u)
  {
    forall u | u in tb'.tasks ensures TaskOk(tb', u) {
      if u != t {
        assert TaskOk(tb, u);
      } else {
        assert tb'.jobs[j].taskIDs[|tb.jobs[j].taskIDs|] == t;
      }
    }
  }

  lemma CommittedJobOk(tb: Tables, j: string, t: string, worker: string, address: string, disk: int)
    requires j in tb.jobs && JobOk(tb, j) && t !in tb.tasks
    requires tb.jobs[j].status == SegmentCompleted
    ensures var tb' := CommitAssemble(tb, j, t, worker, address, disk).value;
            && JobOk(tb', j) && HasAssemble(tb'.jobs[j]) && SegmentsDone(tb'.tasks, tb'.jobs[j])
  {
  }

  /** The assemble task of a job is the one its list ends with. */
  lemma AssemblePosition(tb: Tables, t: string)
    requires TablesOk(tb) && t in tb.tasks && tb.tasks[t].kind == AssembleGif
    ensures tb.tasks[t].job in tb.jobs
    ensures var job := tb.jobs[tb.tasks[t].job]; HasAssemble(job) && job.taskIDs[job.segmentCount] == t
  {
    assert TaskOk(tb, t);
    assert JobOk(tb, tb.tasks[t].job);
  }

  lemma StartOkKeeps(tb: Tables, j: string, t: string)
    requires TablesOk(tb) && t in tb.tasks && tb.tasks[t].kind == AssembleGif && tb.tasks[t].job == j
    ensures var tb' := StartOk(tb, j, t);
            && j in tb.jobs && HasAssemble(tb.jobs[j])
            && TablesOk(tb') && Evolves(tb, tb') && OnlyJob(tb, tb', j) && tb'.jobs.Keys == tb.jobs.Keys
            && HasAssemble(tb'.jobs[j])
  {
    AssemblePosition(tb, t);
    assert JobOk(tb, j);
    var tb' := StartOk(tb, j, t);
    assert tb' == Touch(tb, t, tb'.tasks[t], j, tb'.jobs[j]);
    TouchKeeps(tb, t, tb'.tasks[t], j, tb'.jobs[j]);
  }

  lemma StartFailedKeeps(tb: Tables, j: string, t: string)
    requires TablesOk(tb) && t in tb.tasks && tb.tasks[t].kind == AssembleGif && tb.tasks[t].job == j
    ensures var tb' := StartFailed(tb, j, t);
            && j in tb.jobs && HasAssemble(tb.jobs[j])
            && TablesOk(tb') && Evolves(tb, tb') && OnlyJob(tb, tb', j) && tb'.jobs.Keys == tb.jobs.Keys
            && HasAssemble(tb'.jobs[j])
            && tb'.jobs[j].status == JobFailed
  {
    AssemblePosition(tb, t);
    assert JobOk(tb, j);
    var tb' := StartFailed(tb, j, t);
    assert tb' == Touch(tb, t, tb'.tasks[t], j, tb'.jobs[j]);
    TouchKeeps(tb, t, tb'.tasks[t], j, tb'.jobs[j]);
  }

  lemma MarkFailedKeeps(tb: Tables, j: string)
    requires TablesOk(tb) && j in tb.jobs && tb.jobs[j].status == SegmentCompleted
    ensures var tb' := MarkFailed(tb, j);
            && TablesOk(tb') && Evolves(tb, tb') && OnlyJob(tb, tb', j) && tb'.jobs.Keys == tb.jobs.Keys
  {
    assert JobOk(tb, j);
    var tb' := MarkFailed(tb, j);
    var t := tb.jobs[j].taskIDs[0];
    assert tb' == Touch(tb, t, tb.tasks[t], j, tb'.jobs[j]);
    TouchKeeps(tb, t, tb.tasks[t], j, tb'.jobs[j]);
  }

  lemma {:induction false} FirstAssembleIs(tasks: map<string, Task>, ids: seq<string>, n: nat)
    requires n <= |ids| <= n + 1
    requires forall i :: 0 <= i < |ids| ==>
               ids[i] in tasks && tasks[ids[i]].kind == (if i < n then ProcessSegment else AssembleGif)
    ensures FirstAssemble(tasks, ids) == if |ids| == n then None else Some(ids[n])
  {
    if n > 0 {
      FirstAssembleIs(tasks, ids[1..], n - 1);
    }
  }

  /** A report settles the job's one assemble task, and only while that task is live. */
  lemma TargetIs(tb: Tables, j: string, worker: string)
    requires TablesOk(tb)
    ensures AssembleTarget(tb, j, worker).Ok? <==>
              && j in tb.jobs && tb.jobs[j].status in {AssembleAssigned, AssembleRunning}
              && JobOk(tb, j) && tb.tasks[tb.jobs[j].taskIDs[tb.jobs[j].segmentCount]].worker == worker
    ensures AssembleTarget(tb, j, worker).Ok? ==>
              var t := AssembleTarget(tb, j, worker).value;
              && HasAssemble(tb.jobs[j]) && t == tb.jobs[j].taskIDs[tb.jobs[j].segmentCount]
              && t in tb.tasks && Live(tb.tasks[t]) && tb.tasks[t].kind == AssembleGif
              && tb.tasks[t].job == j && tb.tasks[t].worker == worker
  {
    if j in tb.jobs {
      assert JobOk(tb, j);
      FirstAssembleIs(tb.tasks, tb.jobs[j].taskIDs, tb.jobs[j].segmentCount);
    }
  }

  lemma ReportCompleteKeeps(tb: Tables, j: string, worker: string, address: string, name: string)
    requires TablesOk(tb) && ReportComplete(tb, j, worker, address, name).Ok?
    ensures var (tb', t) := ReportComplete(tb, j, worker, address, name).value;
            && j in tb.jobs && HasAssemble(tb.jobs[j]) && t in tb.tasks && t == tb.jobs[j].taskIDs[tb.jobs[j].segmentCount]
            && TablesOk(tb') && Evolves(tb, tb') && OnlyJob(tb, tb', j) && tb'.jobs.Keys == tb.jobs.Keys
            && tb.jobs[j].status in {AssembleAssigned, AssembleRunning} && tb'.jobs[j].status == JobCompleted
            && tb'.tasks.Keys == tb.tasks.Keys
  {
    TargetIs(tb, j, worker);
    assert JobOk(tb, j);
    var (tb', t) := ReportComplete(tb, j, worker, address, name).value;
    TouchKeeps(tb, t, tb'.tasks[t], j, tb'.jobs[j]);
  }

  lemma ReportFailKeeps(tb: Tables, j: string, worker: string)
    requires TablesOk(tb) && ReportFail(tb, j, worker).Ok?
    ensures var (tb', t) := ReportFail(tb, j, worker).value;
            && j in tb.jobs && HasAssemble(tb.jobs[j]) && t in tb.tasks && t == tb.jobs[j].taskIDs[tb.jobs[j].segmentCount]
            && TablesOk(tb') && Evolves(tb, tb') && OnlyJob(tb, tb', j) && tb'.jobs.Keys == tb.jobs.Keys
            && tb.jobs[j].status in {AssembleAssigned, AssembleRunning} && tb'.jobs[j].status == JobFailed
            && tb'.tasks.Keys == tb.tasks.Keys
  {
    TargetIs(tb, j, worker);
    assert JobOk(tb, j);
    var (tb', t) := ReportFail(tb, j, worker).value;
    TouchKeeps(tb, t, tb'.tasks[t], j, tb'.jobs[j]);
  }

  // ----- creation -----

  predicate FreshTasks(tasks: map<string, Task>, added: seq<NamedTask>) {
    && (forall i :: 0 <= i < |added| ==> added[i].id !in tasks)
    && (forall i, k :: 0 <= i < k < |added| ==> added[i].id != added[k].id)
  }

  lemma {:induction false} InsertTasksIs(tasks: map<string, Task>, added: seq<NamedTask>)
    requires FreshTasks(tasks, added)
    decreases |added|
    ensures var tasks' := InsertTasks(tasks, added);
            && (forall t :: t in tasks ==> t in tasks' && tasks'[t] == tasks[t])
            && (forall i :: 0 <= i < |added| ==> added[i].id in tasks' && tasks'[added[i].id] == added[i].task)
            && (forall t :: t in tasks' ==> t in tasks || exists i :: 0 <= i < |added| && added[i].id == t)
  {
    if added != [] {
      var mid := tasks[added[0].id := added[0].task];
      InsertTasksIs(mid, added[1..]);
      var tasks' := InsertTasks(mid, added[1..]);
      assert added[0].id in mid;
      forall i | 0 <= i < |added| ensures added[i].id in tasks' && tasks'[added[i].id] == added[i].task {
        if i > 0 {
          assert added[1..][i - 1] == added[i];
        }
      }
      forall t | t in tasks' && t !in tasks ensures exists i :: 0 <= i < |added| && added[i].id == t {
        if t in mid {
          assert added[0].id == t;
        } else {
          var i :| 0 <= i < |added[1..]| && added[1..][i].id == t;
          assert added[i + 1].id == t;
        }
      }
    }
  }

  /** A job and its tasks as creation builds them. */
  predicate NewJobShape(j: string, job: Job, added: seq<NamedTask>) {
    && 1 <= job.segmentCount == |added| == |job.taskIDs|
    && job.status == SegmentAssigned
    && (forall i :: 0 <= i < |added| ==>
          && job.taskIDs[i] == added[i].id && added[i].task.job == j
          && added[i].task.kind == ProcessSegment && added[i].task.status == Assigned && added[i].task.requiredDisk == 0)
  }

  lemma InsertKeeps(tb: Tables, j: string, job: Job, added: seq<NamedTask>)
    requires TablesOk(tb) && j !in tb.jobs && job.identity !in tb.byIdentity
    requires FreshTasks(tb.tasks, added) && NewJobShape(j, job, added)
    ensures var tb' := Insert(tb, j, job, added);
            && TablesOk(tb') && Evolves(tb, tb') && OnlyJob(tb, tb', j)
            && tb'.jobs.Keys == tb.jobs.Keys + {j} && !SegmentsDone(tb'.tasks, job)
  {
    InsertTasksIs(tb.tasks, added);
    var tb' := Insert(tb, j, job, added);
    InsertedJobOk(tb', j, job, added);
    InsertedOthersOk(tb, j, job, added);
    InsertedTasksOk(tb, j, job, added);
    InsertEvolves(tb, j, job, added);
  }

  lemma InsertedOthersOk(tb: Tables, j: string, job: Job, added: seq<NamedTask>)
    requires TablesOk(tb) && j !in tb.jobs && job.identity !in tb.byIdentity && FreshTasks(tb.tasks, added)
    ensures var tb' := Insert(tb, j, job, added); forall o {:trigger JobOk(tb', o)} :: o in tb.jobs ==> JobOk(tb', o)
  {
    InsertTasksIs(tb.tasks, added);
    var tb' := Insert(tb, j, job, added);
    forall o | o in tb.jobs ensures JobOk(tb', o) {
      assert JobOk(tb, o);
      InsertOtherKept(tb, tb', o);
    }
  }

  lemma InsertEvolves(tb: Tables, j: string, job: Job, added: seq<NamedTask>)
    requires j !in tb.jobs && job.identity !in tb.byIdentity && FreshTasks(tb.tasks, added)
    ensures Evolves(tb, Insert(tb, j, job, added)) && OnlyJob(tb, Insert(tb, j, job, added), j)
  {
    InsertTasksIs(tb.tasks, added);
  }

  lemma InsertedTasksOk(tb: Tables, j: string, job: Job, added: seq<NamedTask>)
    requires TablesOk(tb) && j !in tb.jobs && FreshTasks(tb.tasks, added) && NewJobShape(j, job, added)
    ensures var tb' := Insert(tb, j, job, added); forall t :: t in tb'.tasks ==> TaskOk(tb', t)
  {
    InsertTasksIs(tb.tasks, added);
    var tb' := Insert(tb, j, job, added);
    forall t | t in tb'.tasks ensures TaskOk(tb', t) {
      if t in tb.tasks {
        assert TaskOk(tb, t);
      } else {
        var i :| 0 <= i < |added| && added[i].id == t;
        assert job.taskIDs[i] == t;
      }
    }
  }

  lemma InsertedJobOk(tb: Tables, j: string, job: Job, added: seq<NamedTask>)
    requires NewJobShape(j, job, added) && j in tb.jobs && tb.jobs[j] == job
    requires job.identity in tb.byIdentity && tb.byIdentity[job.identity] == j
    requires forall i, k :: 0 <= i < k < |added| ==> added[i].id != added[k].id
    requires forall i :: 0 <= i < |added| ==> added[i].id in tb.tasks && tb.tasks[added[i].id] == added[i].task
    ensures JobOk(tb, j) && !SegmentsDone(tb.tasks, job)
  {
    assert added[0].id == job.taskIDs[..job.segmentCount][0];
    forall i, k | 0 <= i < k < |job.taskIDs| ensures job.taskIDs[i] != job.taskIDs[k] {
      assert added[i].id != added[k].id;
    }
    assert ListOk(tb, j);
  }

  lemma InsertOtherKept(tb: Tables, tb': Tables, o: string)
    requires o in tb.jobs && JobOk(tb, o)
    requires o in tb'.jobs && tb'.jobs[o] == tb.jobs[o]
    requires forall t :: t in tb.tasks ==> t in tb'.tasks && tb'.tasks[t] == tb.tasks[t]
    requires tb.jobs[o].identity in tb'.byIdentity && tb'.byIdentity[tb.jobs[o].identity] == o
    ensures JobOk(tb', o)
  {
  }
}
