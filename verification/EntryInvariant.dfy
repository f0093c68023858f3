/** What holds in every state Entry can reach, and that each action keeps it. */
module EntryInvariant {
  import opened Wrappers
  import opened Workers
  import opened Jobs
  import opened Entry
  import DiskEstimate

  /** All segments of the job are complete and its assembly has not been recorded yet. */
  predicate Pending(tb: Tables, j: string) {
    j in tb.jobs && tb.jobs[j].status == SegmentCompleted
  }

  /** The job a call is about to start assembling. */
  function Starting(call: Call): Option<string> {
    match call
    case SegmentReleasing(_, job, last) => if last then Some(job) else None
    case AssembleReady(job) => Some(job)
    case AssembleSized(job, _, _) => Some(job)
    case AssembleReserved(job, _, _, _, _) => Some(job)
    case AssembleAborting(job, _, _) => Some(job)
    case AssembleGivingUp(job) => Some(job)
    case _ => None
  }

  /** The snapshot a call carries is what the tables say now, and its disk figure is the estimate
      for exactly that snapshot. */
  ghost predicate Exact(tb: Tables, j: string, segments: seq<SegmentRef>, disk: int)
    requires TablesOk(tb)
  {
    && j in tb.jobs
    && segments == SegmentRefs(tb, j)
    && disk == DiskEstimate.Estimate(tb.jobs[j].totalSize, Sizes(segments))
  }

  ghost predicate CallOk(ws: Table, tb: Tables, call: Call)
    requires TablesOk(tb)
  {
    match call
    case CreateChecked(source, _, _, _, plan) => source in ws && plan != []
    case Creating(_, _, _, _, plan, _, placed) =>
      && plan != [] && |placed| <= |plan|
      && (forall i :: 0 <= i < |placed| ==> placed[i].worker in ws)
    case CreateUndoing(owed, _) => forall i :: 0 <= i < |owed| ==> owed[i] in ws
    case SegmentReleasing(worker, job, last) => worker in ws && (last ==> Pending(tb, job))
    case AssembleReady(job) => Pending(tb, job)
    case AssembleSized(job, segments, disk) => Pending(tb, job) && Exact(tb, job, segments, disk)
    case AssembleReserved(job, segments, worker, _, disk) =>
      Pending(tb, job) && Exact(tb, job, segments, disk) && worker in ws
    case AssembleAborting(job, worker, _) => Pending(tb, job) && worker in ws
    case AssembleGivingUp(job) => Pending(tb, job)
    case AssembleStale(_, _) => false
    case AssembleNotifying(job, segments, worker, disk, task) =>
      && Exact(tb, job, segments, disk) && worker in ws && NotifiedTask(tb, job, worker, disk, task)
    case AssembleCancelling(worker, _, _) => worker in ws
    case ReportReady(_, worker, _, _) => worker in ws
    case ReportReleasing(worker, _) => worker in ws
    case Finished(answer) =>
      (answer.Created? || answer.Existing?) ==>
        answer.key in tb.byIdentity && tb.byIdentity[answer.key] == answer.job
  }

  /** The recorded assemble task a start request is about. */
  predicate NotifiedTask(tb: Tables, j: string, worker: string, disk: int, t: string) {
    && t in tb.tasks && tb.tasks[t].kind == AssembleGif && tb.tasks[t].job == j
    && tb.tasks[t].worker == worker && tb.tasks[t].requiredDisk == disk
  }

  ghost predicate CallsOk(s: System)
    requires TablesOk(s.tables)
  {
    forall c {:trigger CallOk(s.workers, s.tables, s.calls[c])} :: c in s.calls ==> CallOk(s.workers, s.tables, s.calls[c])
  }

  /** At most one call is about to assemble a job, and a pending job has one. */
  ghost predicate StartersOk(s: System) {
    && (forall c, d :: c in s.calls && d in s.calls && Starting(s.calls[c]).Some? && Starting(s.calls[c]) == Starting(s.calls[d]) ==> c == d)
    && (forall j {:trigger Pending(s.tables, j)} :: Pending(s.tables, j) ==>
          exists c :: c in s.calls && Starting(s.calls[c]) == Some(j))
  }

  ghost predicate TasksKnown(s: System) {
    forall t {:trigger s.tables.tasks[t]} :: t in s.tables.tasks ==> s.tables.tasks[t].worker in s.workers
  }

  /** Addresses and worker ids name each other. */
  ghost predicate AddressesOk(s: System) {
    && (forall a {:trigger s.idByAddress[a]} :: a in s.idByAddress ==>
          s.idByAddress[a] in s.workers && s.workers[s.idByAddress[a]].address == a)
    && (forall id {:trigger s.workers[id].address} :: id in s.workers ==>
          s.workers[id].address in s.idByAddress && s.idByAddress[s.workers[id].address] == id)
  }

  ghost predicate Inv(s: System) {
    && TablesOk(s.tables) && CallsOk(s) && StartersOk(s)
    && TasksKnown(s) && AddressesOk(s) && FreeDerived(s.workers)
  }

  lemma InitialInv()
    ensures Inv(Initial())
  {
  }

  // ----- interference -----

  /** Another request's step does not disturb what a call knows, as long as the tables only
      evolve and the job the call is about to assemble is left alone. */
  lemma CallKept(ws: Table, tb: Tables, ws': Table, tb': Tables, call: Call)
    requires TablesOk(tb) && TablesOk(tb') && Evolves(tb, tb') && ws.Keys <= ws'.Keys
    requires CallOk(ws, tb, call)
    requires Starting(call).Some? ==>
               Starting(call).value in tb.jobs && Starting(call).value in tb'.jobs
               && tb'.jobs[Starting(call).value] == tb.jobs[Starting(call).value]
    ensures CallOk(ws', tb', call)
  {
    match call
    case AssembleSized(j, segments, disk) => ExactKept(tb, tb', j, segments, disk);
    case AssembleReserved(j, segments, _, _, disk) => ExactKept(tb, tb', j, segments, disk);
    case AssembleNotifying(j, segments, _, disk, task) =>
      AssemblePosition(tb, task);
      ExactKept(tb, tb', j, segments, disk);
      assert TaskKept(tb, tb', task);
    case _ =>
  }

  lemma ExactKept(tb: Tables, tb': Tables, j: string, segments: seq<SegmentRef>, disk: int)
    requires TablesOk(tb) && TablesOk(tb') && Evolves(tb, tb') && Exact(tb, j, segments, disk)
    requires tb.jobs[j].status == SegmentCompleted || HasAssemble(tb.jobs[j])
    ensures Exact(tb', j, segments, disk)
  {
    assert JobOk(tb, j);
    RefsStable(tb, tb', j);
    assert JobKept(tb, tb', j);
  }

  /** The bookkeeping every step of a call `c` has to respect so that starters stay unique. */
  ghost predicate Orderly(s: System, s': System, c: nat, now: Call) {
    var was := if c in s.calls then Starting(s.calls[c]) else None;
    && s'.calls == s.calls[c := now]
    && (forall j {:trigger Pending(s.tables, j)} :: Pending(s.tables, j) && was != Some(j) ==>
          j in s'.tables.jobs && s'.tables.jobs[j] == s.tables.jobs[j])
    && (forall j {:trigger Pending(s'.tables, j)} :: Pending(s'.tables, j) && Starting(now) != Some(j) ==>
          Pending(s.tables, j) && was != Some(j))
    && (Starting(now).Some? ==> was == Starting(now) || !Pending(s.tables, Starting(now).value))
  }

  lemma CallsKept(s: System, s': System, c: nat, now: Call)
    requires Inv(s) && TablesOk(s'.tables) && Evolves(s.tables, s'.tables) && s.workers.Keys <= s'.workers.Keys
    requires Orderly(s, s', c, now) && CallOk(s'.workers, s'.tables, now)
    ensures CallsOk(s')
  {
    forall d | d in s'.calls ensures CallOk(s'.workers, s'.tables, s'.calls[d]) {
      if d != c {
        assert CallOk(s.workers, s.tables, s.calls[d]);
        if Starting(s.calls[d]).Some? {
          assert Pending(s.tables, Starting(s.calls[d]).value);
        }
        CallKept(s.workers, s.tables, s'.workers, s'.tables, s.calls[d]);
      }
    }
  }

  lemma StartersKept(s: System, s': System, c: nat, now: Call)
    requires Inv(s) && Orderly(s, s', c, now)
    ensures StartersOk(s')
  {
    forall d | d in s'.calls && d != c && Starting(now).Some? ensures Starting(s'.calls[d]) != Starting(now) {
      assert CallOk(s.workers, s.tables, s.calls[d]);
    }
    forall j | Pending(s'.tables, j) ensures exists d :: d in s'.calls && Starting(s'.calls[d]) == Some(j) {
      if Starting(now) == Some(j) {
        assert c in s'.calls && Starting(s'.calls[c]) == Some(j);
      } else {
        assert Pending(s.tables, j);
        var d :| d in s.calls && Starting(s.calls[d]) == Some(j);
        assert d in s'.calls && Starting(s'.calls[d]) == Some(j);
      }
    }
  }

  /** A step that moves one call. */
  lemma CallStep(s: System, s': System, c: nat, now: Call)
    requires Inv(s) && TablesOk(s'.tables) && Evolves(s.tables, s'.tables) && s.workers.Keys <= s'.workers.Keys
    requires Orderly(s, s', c, now) && CallOk(s'.workers, s'.tables, now)
    requires TasksKnown(s') && AddressesOk(s') && FreeDerived(s'.workers)
    ensures Inv(s')
  {
    CallsKept(s, s', c, now);
    StartersKept(s, s', c, now);
  }

  /** A step that moves no call and leaves pending jobs alone. */
  lemma QuietStep(s: System, s': System)
    requires Inv(s) && TablesOk(s'.tables) && Evolves(s.tables, s'.tables) && s.workers.Keys <= s'.workers.Keys
    requires s'.calls == s.calls
    requires forall j {:trigger Pending(s.tables, j)} :: Pending(s.tables, j) ==>
               j in s'.tables.jobs && s'.tables.jobs[j] == s.tables.jobs[j]
    requires forall j {:trigger Pending(s'.tables, j)} :: Pending(s'.tables, j) ==> Pending(s.tables, j)
    requires TasksKnown(s') && AddressesOk(s') && FreeDerived(s'.workers)
    ensures Inv(s')
  {
    forall d | d in s'.calls ensures CallOk(s'.workers, s'.tables, s'.calls[d]) {
      assert CallOk(s.workers, s.tables, s.calls[d]);
      if Starting(s.calls[d]).Some? {
        assert Pending(s.tables, Starting(s.calls[d]).value);
      }
      CallKept(s.workers, s.tables, s'.workers, s'.tables, s.calls[d]);
    }
  }

  /** The tables evolve, and a job that was pending and still is has not changed at all. */
  ghost predicate Steady(tb: Tables, tb': Tables) {
    && Evolves(tb, tb')
    && forall j {:trigger Pending(tb, j)} :: Pending(tb, j) && Pending(tb', j) ==> tb'.jobs[j] == tb.jobs[j]
  }

  lemma EvolvesSelf(tb: Tables)
    ensures Evolves(tb, tb)
  {
  }

  // ----- registry actions -----

  /** The workers a table of workers knows and where they are reached do not change. */
  ghost predicate SameWorkers(ws: Table, ws': Table) {
    && ws'.Keys == ws.Keys
    && forall id :: id in ws ==> ws'[id].address == ws[id].address
  }

  lemma RegisterInv(s: System, req: Registration, id: string)
    requires Inv(s) && id !in s.workers
    ensures Inv(DoRegister(s, req, id)) && Steady(s.tables, DoRegister(s, req, id).tables)
  {
    EvolvesSelf(s.tables);
    QuietStep(s, DoRegister(s, req, id));
  }

  lemma HeartbeatInv(s: System, worker: string, diskFree: int)
    requires Inv(s)
    ensures Inv(DoHeartbeat(s, worker, diskFree)) && Steady(s.tables, DoHeartbeat(s, worker, diskFree).tables)
  {
    EvolvesSelf(s.tables);
    QuietStep(s, DoHeartbeat(s, worker, diskFree));
  }

  lemma ObserveDiskInv(s: System, worker: string, diskFree: int)
    requires Inv(s)
    ensures Inv(DoObserveDisk(s, worker, diskFree)) && Steady(s.tables, DoObserveDisk(s, worker, diskFree).tables)
  {
    EvolvesSelf(s.tables);
    QuietStep(s, DoObserveDisk(s, worker, diskFree));
  }

  lemma ExpireInv(s: System, late: set<string>)
    requires Inv(s)
    ensures Inv(s.(workers := Expire(s.workers, late))) && Steady(s.tables, s.tables)
  {
    EvolvesSelf(s.tables);
    QuietStep(s, s.(workers := Expire(s.workers, late)));
  }

  /** Releasing any batch keeps the workers and their derived free counts. */
  lemma {:induction false} ReleaseAllOk(ws: Table, ids: seq<string>)
    requires FreeDerived(ws)
    ensures FreeDerived(ReleaseAll(ws, ids)) && SameWorkers(ws, ReleaseAll(ws, ids))
  {
    if ids != [] {
      ReleaseAllOk(Release(ws, ids[0], 0), ids[1..]);
    }
  }

  /** Steps of a call that touch at most reservations, not the tables. */
  lemma WorkerStep(s: System, ws: Table, c: nat, now: Call)
    requires Inv(s) && SameWorkers(s.workers, ws) && FreeDerived(ws)
    requires CallOk(ws, s.tables, now)
    requires Starting(now) == if c in s.calls then Starting(s.calls[c]) else None
    ensures Inv(Put(s.(workers := ws), c, now)) && Steady(s.tables, s.tables)
  {
    EvolvesSelf(s.tables);
    CallStep(s, Put(s.(workers := ws), c, now), c, now);
  }

  lemma TasksStayKnown(s: System, tb: Tables)
    requires TasksKnown(s) && Evolves(s.tables, tb) && tb.tasks.Keys == s.tables.tasks.Keys
    ensures TasksKnown(s.(tables := tb))
  {
    forall t | t in tb.tasks ensures tb.tasks[t].worker in s.workers {
      assert TaskKept(s.tables, tb, t);
      assert s.tables.tasks[t].worker in s.workers;
    }
  }

  /** A step of call `c` that rewrites one recorded job and tasks of it. The job is pending only
      while the call is about to assemble it. */
  lemma OneJobStep(s: System, tb: Tables, c: nat, j: string, now: Call)
    requires Inv(s) && TablesOk(tb) && Evolves(s.tables, tb) && OnlyJob(s.tables, tb, j)
    requires tb.jobs.Keys == s.tables.jobs.Keys && tb.tasks.Keys == s.tables.tasks.Keys
    requires j in s.tables.jobs && CallOk(s.workers, tb, now)
    requires var was := if c in s.calls then Starting(s.calls[c]) else None;
             && Pending(s.tables, j) == (was == Some(j)) && Pending(tb, j) == (Starting(now) == Some(j))
             && was in {None, Some(j)} && Starting(now) in {None, Some(j)}
             && !(was == Some(j) == Starting(now))
    ensures Inv(Put(s.(tables := tb), c, now)) && Steady(s.tables, tb)
  {
    TasksStayKnown(s, tb);
    CallStep(s, Put(s.(tables := tb), c, now), c, now);
  }

  // ----- creation -----

  lemma CreateBeginInv(s: System, c: nat, source: string, video: string, total: int, plan: seq<PlanEntry>)
    requires Inv(s) && !At(s, c) && plan != []
    ensures Inv(DoCreateBegin(s, c, source, video, total, plan))
    ensures Steady(s.tables, DoCreateBegin(s, c, source, video, total, plan).tables)
  {
    var s' := DoCreateBegin(s, c, source, video, total, plan);
    WorkerStep(s, s.workers, c, s'.calls[c]);
  }

  lemma CreateFindInv(s: System, c: nat, job: Option<string>)
    requires Inv(s) && At(s, c) && s.calls[c].CreateChecked?
    ensures Inv(DoCreateFind(s, c, job)) && Steady(s.tables, DoCreateFind(s, c, job).tables)
  {
    assert CallOk(s.workers, s.tables, s.calls[c]);
    var s' := DoCreateFind(s, c, job);
    WorkerStep(s, s.workers, c, s'.calls[c]);
  }

  lemma CreateReserveInv(s: System, c: nat, task: string, pick: Option<string>, idFails: bool)
    requires Inv(s) && At(s, c) && s.calls[c].Creating? && |s.calls[c].placed| < |s.calls[c].plan|
    requires pick.Some? ==> pick.value in s.workers
    ensures Inv(DoCreateReserve(s, c, task, pick, idFails))
    ensures Steady(s.tables, DoCreateReserve(s, c, task, pick, idFails).tables)
  {
    assert CallOk(s.workers, s.tables, s.calls[c]);
    var s' := DoCreateReserve(s, c, task, pick, idFails);
    WorkerStep(s, s'.workers, c, s'.calls[c]);
  }

  lemma CreateUndoInv(s: System, c: nat)
    requires Inv(s) && At(s, c) && s.calls[c].CreateUndoing?
    ensures Inv(DoCreateUndo(s, c)) && Steady(s.tables, DoCreateUndo(s, c).tables)
  {
    ReleaseAllOk(s.workers, s.calls[c].owed);
    var s' := DoCreateUndo(s, c);
    WorkerStep(s, s'.workers, c, s'.calls[c]);
  }

  lemma CreateCommitInv(s: System, c: nat)
    requires Inv(s) && Enabled(s, CreateCommit(c))
    ensures Inv(DoCreateCommit(s, c)) && Steady(s.tables, DoCreateCommit(s, c).tables)
  {
    var call := s.calls[c];
    assert CallOk(s.workers, s.tables, call);
    var s' := DoCreateCommit(s, c);
    if IdentityKey(call.address, call.video) in s.tables.byIdentity {
      ReleaseAllOk(s.workers, WorkersOf(call.placed));
      WorkerStep(s, s'.workers, c, s'.calls[c]);
    } else {
      CreateInsertInv(s, c, call);
    }
  }

  /** The commit that records the job and its tasks. */
  lemma CreateInsertInv(s: System, c: nat, call: Call)
    requires Inv(s) && At(s, c) && s.calls[c] == call && call.Creating? && |call.placed| == |call.plan|
    requires CallOk(s.workers, s.tables, call) && FreshIds(s, call)
    requires IdentityKey(call.address, call.video) !in s.tables.byIdentity
    ensures Inv(DoCreateCommit(s, c)) && Steady(s.tables, DoCreateCommit(s, c).tables)
  {
    var s' := DoCreateCommit(s, c);
    var built := BuiltTasks(call.job, call.plan, call.placed);
    BuiltShape(call);
    InsertKeeps(s.tables, call.job, BuiltJob(call), built);
    InsertedKnown(s, s', built);
    NewJobStep(s, s'.tables, c, call.job, s'.calls[c]);
  }

  /** A step of call `c` that records a new job with segments to do. */
  lemma NewJobStep(s: System, tb: Tables, c: nat, j: string, now: Call)
    requires Inv(s) && TablesOk(tb) && Evolves(s.tables, tb) && OnlyJob(s.tables, tb, j)
    requires j !in s.tables.jobs && tb.jobs.Keys == s.tables.jobs.Keys + {j} && !Pending(tb, j)
    requires c in s.calls && Starting(s.calls[c]) == None && Starting(now) == None
    requires CallOk(s.workers, tb, now) && TasksKnown(s.(tables := tb))
    ensures Inv(Put(s.(tables := tb), c, now)) && Steady(s.tables, tb)
  {
    CallStep(s, Put(s.(tables := tb), c, now), c, now);
  }

  lemma BuiltShape(call: Call)
    requires call.Creating? && |call.placed| == |call.plan| > 0
    ensures NewJobShape(call.job, BuiltJob(call), BuiltTasks(call.job, call.plan, call.placed))
  {
  }

  lemma InsertedKnown(s: System, s': System, built: seq<NamedTask>)
    requires TasksKnown(s) && s'.workers == s.workers
    requires forall i :: 0 <= i < |built| ==> built[i].task.worker in s.workers
    requires FreshTasks(s.tables.tasks, built) && s'.tables.tasks == InsertTasks(s.tables.tasks, built)
    ensures TasksKnown(s')
  {
    InsertTasksIs(s.tables.tasks, built);
    forall t | t in s'.tables.tasks ensures s'.tables.tasks[t].worker in s'.workers {
      if t !in s.tables.tasks {
        var i :| 0 <= i < |built| && built[i].id == t;
      } else {
        assert s.tables.tasks[t].worker in s.workers;
      }
    }
  }

  // ----- segment reports -----

  /** A job one of whose segments is not settled is not pending. */
  lemma OpenJob(s: System, t: string)
    requires Inv(s) && t in s.tables.tasks && s.tables.tasks[t].kind == ProcessSegment && Live(s.tables.tasks[t])
    ensures s.tables.tasks[t].job in s.tables.jobs && !Pending(s.tables, s.tables.tasks[t].job)
    ensures s.tables.tasks[t].worker in s.workers
  {
    var i := SegmentPosition(s.tables, t);
    assert JobOk(s.tables, s.tables.tasks[t].job);
    assert s.tables.tasks[t].worker in s.workers;
  }

  lemma SegmentAcceptedInv(s: System, task: string, worker: string)
    requires Inv(s)
    ensures Inv(DoSegmentAccepted(s, task, worker)) && Steady(s.tables, DoSegmentAccepted(s, task, worker).tables)
  {
    if Accept(s.tables, task, worker).Ok? {
      AcceptKeeps(s.tables, task, worker);
      OpenJob(s, task);
      var s' := DoSegmentAccepted(s, task, worker);
      TasksStayKnown(s, s'.tables);
      QuietStep(s, s');
    }
  }

  lemma SegmentCompletesInv(s: System, c: nat, task: string, worker: string, report: SegmentReport)
    requires Inv(s) && !At(s, c)
    ensures Inv(DoSegmentCompletes(s, c, task, worker, report))
    ensures Steady(s.tables, DoSegmentCompletes(s, c, task, worker, report).tables)
  {
    var s' := DoSegmentCompletes(s, c, task, worker, report);
    if Complete(s.tables, task, worker, report).Ok? {
      CompleteKeeps(s.tables, task, worker, report);
      OpenJob(s, task);
      OneJobStep(s, s'.tables, c, s.tables.tasks[task].job, s'.calls[c]);
    } else {
      WorkerStep(s, s.workers, c, s'.calls[c]);
    }
  }

  lemma SegmentFailsInv(s: System, c: nat, task: string, worker: string)
    requires Inv(s) && !At(s, c)
    ensures Inv(DoSegmentFails(s, c, task, worker)) && Steady(s.tables, DoSegmentFails(s, c, task, worker).tables)
  {
    var s' := DoSegmentFails(s, c, task, worker);
    if Jobs.FailSegment(s.tables, task, worker).Ok? {
      FailSegmentKeeps(s.tables, task, worker);
      OpenJob(s, task);
      OneJobStep(s, s'.tables, c, s.tables.tasks[task].job, s'.calls[c]);
    } else {
      WorkerStep(s, s.workers, c, s'.calls[c]);
    }
  }

  lemma SegmentReleaseInv(s: System, c: nat)
    requires Inv(s) && At(s, c) && s.calls[c].SegmentReleasing?
    ensures Inv(DoSegmentRelease(s, c)) && Steady(s.tables, DoSegmentRelease(s, c).tables)
  {
    assert CallOk(s.workers, s.tables, s.calls[c]);
    var s' := DoSegmentRelease(s, c);
    WorkerStep(s, s'.workers, c, s'.calls[c]);
  }

  // ----- assembly -----

  lemma AssembleSnapshotInv(s: System, c: nat)
    requires Inv(s) && At(s, c) && s.calls[c].AssembleReady?
    ensures Inv(DoAssembleSnapshot(s, c)) && Steady(s.tables, DoAssembleSnapshot(s, c).tables)
    ensures DoAssembleSnapshot(s, c).calls[c].AssembleSized?
  {
    assert CallOk(s.workers, s.tables, s.calls[c]);
    var j := s.calls[c].job;
    assert JobOk(s.tables, j);
    var ids := s.tables.jobs[j].taskIDs;
    assert ids[..s.tables.jobs[j].segmentCount] == ids;
    var s' := DoAssembleSnapshot(s, c);
    WorkerStep(s, s.workers, c, s'.calls[c]);
  }

  lemma AssemblePickInv(s: System, c: nat, pick: Option<string>)
    requires Inv(s) && At(s, c) && s.calls[c].AssembleSized?
    requires pick.Some? ==> pick.value in s.workers
    ensures Inv(DoAssemblePick(s, c, pick)) && Steady(s.tables, DoAssemblePick(s, c, pick).tables)
  {
    assert CallOk(s.workers, s.tables, s.calls[c]);
    var s' := DoAssemblePick(s, c, pick);
    WorkerStep(s, s'.workers, c, s'.calls[c]);
  }

  lemma AssembleIdFailsInv(s: System, c: nat)
    requires Inv(s) && At(s, c) && s.calls[c].AssembleReserved?
    ensures Inv(DoAssembleIdFails(s, c)) && Steady(s.tables, DoAssembleIdFails(s, c).tables)
  {
    assert CallOk(s.workers, s.tables, s.calls[c]);
    WorkerStep(s, s.workers, c, DoAssembleIdFails(s, c).calls[c]);
  }

  lemma AssembleGiveUpInv(s: System, c: nat)
    requires Inv(s) && At(s, c) && s.calls[c].AssembleGivingUp?
    ensures Inv(DoAssembleGiveUp(s, c)) && Steady(s.tables, DoAssembleGiveUp(s, c).tables)
  {
    assert CallOk(s.workers, s.tables, s.calls[c]);
    MarkFailedKeeps(s.tables, s.calls[c].job);
    var s' := DoAssembleGiveUp(s, c);
    OneJobStep(s, s'.tables, c, s.calls[c].job, s'.calls[c]);
  }

  /** The re-check in startAssembleGIF never fails. */
  lemma AssembleRecordInv(s: System, c: nat, task: string)
    requires Inv(s) && At(s, c) && s.calls[c].AssembleReserved? && task !in s.tables.tasks
    ensures Inv(DoAssembleRecord(s, c, task)) && Steady(s.tables, DoAssembleRecord(s, c, task).tables)
    ensures DoAssembleRecord(s, c, task).calls[c].AssembleNotifying?
  {
    var call := s.calls[c];
    assert CallOk(s.workers, s.tables, call);
    assert JobOk(s.tables, call.job);
    CommitAssembleKeeps(s.tables, call.job, task, call.worker, call.address, call.disk);
    var s' := DoAssembleRecord(s, c, task);
    ExactKept(s.tables, s'.tables, call.job, call.segments, call.disk);
    RecordedKnown(s, s'.tables, task);
    RecordStep(s, s'.tables, c, call.job, s'.calls[c]);
  }

  lemma RecordedKnown(s: System, tb: Tables, t: string)
    requires TasksKnown(s) && Evolves(s.tables, tb) && tb.tasks.Keys == s.tables.tasks.Keys + {t}
    requires tb.tasks[t].worker in s.workers
    ensures TasksKnown(s.(tables := tb))
  {
    forall u | u in tb.tasks ensures tb.tasks[u].worker in s.workers {
      if u != t {
        assert TaskKept(s.tables, tb, u);
        assert s.tables.tasks[u].worker in s.workers;
      }
    }
  }

  /** A step of the call about to assemble `j` that takes the job out of waiting. */
  lemma RecordStep(s: System, tb: Tables, c: nat, j: string, now: Call)
    requires Inv(s) && TablesOk(tb) && Evolves(s.tables, tb) && OnlyJob(s.tables, tb, j)
    requires tb.jobs.Keys == s.tables.jobs.Keys
    requires c in s.calls && Starting(s.calls[c]) == Some(j) && Starting(now) == None
    requires Pending(s.tables, j) && !Pending(tb, j)
    requires CallOk(s.workers, tb, now) && TasksKnown(s.(tables := tb))
    ensures Inv(Put(s.(tables := tb), c, now)) && Steady(s.tables, tb)
  {
    CallStep(s, Put(s.(tables := tb), c, now), c, now);
  }

  lemma AssembleStartedInv(s: System, c: nat)
    requires Inv(s) && At(s, c) && s.calls[c].AssembleNotifying?
    ensures Inv(DoAssembleStarted(s, c)) && Steady(s.tables, DoAssembleStarted(s, c).tables)
  {
    var call := s.calls[c];
    assert CallOk(s.workers, s.tables, call);
    StartOkKeeps(s.tables, call.job, call.task);
    var s' := DoAssembleStarted(s, c);
    assert JobOk(s.tables, call.job) && JobOk(s'.tables, call.job);
    OneJobStep(s, s'.tables, c, call.job, s'.calls[c]);
  }

  lemma AssembleStartErrsInv(s: System, c: nat)
    requires Inv(s) && At(s, c) && s.calls[c].AssembleNotifying?
    ensures Inv(DoAssembleStartErrs(s, c)) && Steady(s.tables, DoAssembleStartErrs(s, c).tables)
  {
    var call := s.calls[c];
    assert CallOk(s.workers, s.tables, call);
    StartFailedKeeps(s.tables, call.job, call.task);
    var s' := DoAssembleStartErrs(s, c);
    assert JobOk(s.tables, call.job) && JobOk(s'.tables, call.job);
    OneJobStep(s, s'.tables, c, call.job, s'.calls[c]);
  }

  lemma SettleReleaseInv(s: System, c: nat)
    requires Inv(s) && At(s, c) && OwesRelease(s.calls[c])
    ensures Inv(DoSettleRelease(s, c)) && Steady(s.tables, DoSettleRelease(s, c).tables)
  {
    assert CallOk(s.workers, s.tables, s.calls[c]);
    var s' := DoSettleRelease(s, c);
    WorkerStep(s, s'.workers, c, s'.calls[c]);
  }

  // ----- reports about assembled jobs -----

  lemma ReportBeginInv(s: System, c: nat, job: string, worker: string, name: string)
    requires Inv(s) && !At(s, c)
    ensures Inv(DoReportBegin(s, c, job, worker, name))
    ensures Steady(s.tables, DoReportBegin(s, c, job, worker, name).tables)
  {
    WorkerStep(s, s.workers, c, DoReportBegin(s, c, job, worker, name).calls[c]);
  }

  lemma ReportSuccessInv(s: System, c: nat)
    requires Inv(s) && At(s, c) && s.calls[c].ReportReady?
    ensures Inv(DoReportSuccess(s, c)) && Steady(s.tables, DoReportSuccess(s, c).tables)
  {
    var call := s.calls[c];
    assert CallOk(s.workers, s.tables, call);
    var s' := DoReportSuccess(s, c);
    var r := ReportComplete(s.tables, call.job, call.worker, call.address, call.name);
    if r.Ok? {
      ReportCompleteKeeps(s.tables, call.job, call.worker, call.address, call.name);
      OneJobStep(s, r.value.0, c, call.job, s'.calls[c]);
    } else {
      WorkerStep(s, s.workers, c, s'.calls[c]);
    }
  }

  lemma ReportFailureInv(s: System, c: nat, job: string, worker: string)
    requires Inv(s) && !At(s, c)
    ensures Inv(DoReportFailure(s, c, job, worker)) && Steady(s.tables, DoReportFailure(s, c, job, worker).tables)
  {
    var s' := DoReportFailure(s, c, job, worker);
    var r := ReportFail(s.tables, job, worker);
    if r.Ok? {
      TargetIs(s.tables, job, worker);
      ReportFailKeeps(s.tables, job, worker);
      assert s.tables.tasks[r.value.1].worker in s.workers;
      OneJobStep(s, r.value.0, c, job, s'.calls[c]);
    } else {
      WorkerStep(s, s.workers, c, s'.calls[c]);
    }
  }

  lemma RegistryInv(s: System, a: Action)
    requires Inv(s) && Enabled(s, a) && RegistryAction(a)
    ensures Inv(Next(s, a)) && Steady(s.tables, Next(s, a).tables)
  {
    match a
    case Register(req, id) => RegisterInv(s, req, id);
    case Heartbeat(worker, diskFree) => HeartbeatInv(s, worker, diskFree);
    case ExpireSome(late) => ExpireInv(s, late);
    case ObserveDisk(worker, diskFree) => ObserveDiskInv(s, worker, diskFree);
  }

  lemma CreateInv(s: System, a: Action)
    requires Inv(s) && Enabled(s, a) && CreateAction(a)
    ensures Inv(Next(s, a)) && Steady(s.tables, Next(s, a).tables)
  {
    match a
    case CreateBegin(c, source, video, total, plan) => CreateBeginInv(s, c, source, video, total, plan);
    case CreateFind(c, job) => CreateFindInv(s, c, job);
    case CreateReserve(c, task, pick, idFails) => CreateReserveInv(s, c, task, pick, idFails);
    case CreateUndo(c) => CreateUndoInv(s, c);
    case CreateCommit(c) => CreateCommitInv(s, c);
  }

  lemma SegmentInv(s: System, a: Action)
    requires Inv(s) && Enabled(s, a) && SegmentAction(a)
    ensures Inv(Next(s, a)) && Steady(s.tables, Next(s, a).tables)
  {
    match a
    case SegmentAccepted(task, worker) => SegmentAcceptedInv(s, task, worker);
    case SegmentCompletes(c, task, worker, report) => SegmentCompletesInv(s, c, task, worker, report);
    case SegmentFails(c, task, worker) => SegmentFailsInv(s, c, task, worker);
    case SegmentRelease(c) => SegmentReleaseInv(s, c);
  }

  lemma AssembleInv(s: System, a: Action)
    requires Inv(s) && Enabled(s, a) && AssembleAction(a)
    ensures Inv(Next(s, a)) && Steady(s.tables, Next(s, a).tables)
  {
    match a
    case AssembleSnapshot(c) => AssembleSnapshotInv(s, c);
    case AssemblePick(c, pick) => AssemblePickInv(s, c, pick);
    case AssembleIdFails(c) => AssembleIdFailsInv(s, c);
    case AssembleGiveUp(c) => AssembleGiveUpInv(s, c);
    case AssembleRecord(c, task) => AssembleRecordInv(s, c, task);
    case AssembleStarted(c) => AssembleStartedInv(s, c);
    case AssembleStartErrs(c) => AssembleStartErrsInv(s, c);
  }

  lemma ReportInv(s: System, a: Action)
    requires Inv(s) && Enabled(s, a) && ReportAction(a)
    ensures Inv(Next(s, a)) && Steady(s.tables, Next(s, a).tables)
  {
    match a
    case ReportBegin(c, job, worker, name) => ReportBeginInv(s, c, job, worker, name);
    case ReportSuccess(c) => ReportSuccessInv(s, c);
    case ReportFailure(c, job, worker) => ReportFailureInv(s, c, job, worker);
  }

  /** Every action keeps the invariant, drops nothing and leaves jobs that stay pending alone. */
  lemma NextInv(s: System, a: Action)
    requires Inv(s) && Enabled(s, a)
    ensures Inv(Next(s, a)) && Steady(s.tables, Next(s, a).tables)
  {
    if RegistryAction(a) {
      RegistryInv(s, a);
    } else if CreateAction(a) {
      CreateInv(s, a);
    } else if SegmentAction(a) {
      SegmentInv(s, a);
    } else if AssembleAction(a) {
      AssembleInv(s, a);
    } else if ReportAction(a) {
      ReportInv(s, a);
    } else {
      SettleReleaseInv(s, a.c);
    }
  }
}
