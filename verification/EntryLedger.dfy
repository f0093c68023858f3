/** The reservation ledger: what each worker holds against what Entry still owes it. Owed are
    the live tasks, the reservations of requests that have not committed yet, and the releases
    that settled tasks still have coming. */
module EntryLedger {
  import opened Wrappers
  import opened Sums
  import opened Workers
  import opened Jobs
  import opened Entry
  import opened EntryInvariant

  // ----- obligations -----

  function Share(worker: string, disk: int, w: string, r: Resource): int {
    if worker != w then 0 else if r == Slot then 1 else disk
  }

  function TaskWeight(t: Task, w: string, r: Resource): int {
    if Live(t) then Share(t.worker, t.requiredDisk, w, r) else 0
  }

  function CallWeight(call: Call, w: string, r: Resource): int {
    match call
    case Creating(_, _, _, _, _, _, placed) => if r == Slot then Count(WorkersOf(placed), w) else 0
    case CreateUndoing(owed, _) => if r == Slot then Count(owed, w) else 0
    case SegmentReleasing(worker, _, _) => Share(worker, 0, w, r)
    case AssembleReserved(_, _, worker, _, disk) => Share(worker, disk, w, r)
    case AssembleAborting(_, worker, disk) => Share(worker, disk, w, r)
    case AssembleStale(worker, disk) => Share(worker, disk, w, r)
    case AssembleCancelling(worker, disk, surplus) => if surplus then 0 else Share(worker, disk, w, r)
    case ReportReleasing(worker, disk) => Share(worker, disk, w, r)
    case _ => 0
  }

  ghost function TaskWeights(tasks: map<string, Task>, w: string, r: Resource): map<string, int> {
    map t | t in tasks :: TaskWeight(tasks[t], w, r)
  }

  ghost function CallWeights(calls: map<nat, Call>, w: string, r: Resource): map<nat, int> {
    map c | c in calls :: CallWeight(calls[c], w, r)
  }

  /** Everything Entry owes worker `w`. */
  ghost function Owed(s: System, w: string, r: Resource): int {
    Sum(TaskWeights(s.tables.tasks, w, r)) + Sum(CallWeights(s.calls, w, r))
  }

  lemma TaskPut(tasks: map<string, Task>, t: string, task: Task, w: string, r: Resource)
    ensures Sum(TaskWeights(tasks[t := task], w, r)) ==
            Sum(TaskWeights(tasks, w, r)) + TaskWeight(task, w, r) - (if t in tasks then TaskWeight(tasks[t], w, r) else 0)
  {
    assert TaskWeights(tasks[t := task], w, r) == TaskWeights(tasks, w, r)[t := TaskWeight(task, w, r)];
    SumUpdate(TaskWeights(tasks, w, r), t, TaskWeight(task, w, r));
  }

  lemma CallPut(calls: map<nat, Call>, c: nat, call: Call, w: string, r: Resource)
    ensures Sum(CallWeights(calls[c := call], w, r)) ==
            Sum(CallWeights(calls, w, r)) + CallWeight(call, w, r) - (if c in calls then CallWeight(calls[c], w, r) else 0)
  {
    assert CallWeights(calls[c := call], w, r) == CallWeights(calls, w, r)[c := CallWeight(call, w, r)];
    SumUpdate(CallWeights(calls, w, r), c, CallWeight(call, w, r));
  }

  /** Recording a job moves its reservations from the request to the new tasks. */
  lemma {:induction false} InsertedWeights(tasks: map<string, Task>, added: seq<NamedTask>, w: string, r: Resource)
    requires FreshTasks(tasks, added)
    requires forall i :: 0 <= i < |added| ==> added[i].task.status == Assigned && added[i].task.requiredDisk == 0
    ensures Sum(TaskWeights(InsertTasks(tasks, added), w, r)) ==
            Sum(TaskWeights(tasks, w, r)) + (if r == Slot then Count(TaskWorkers(added), w) else 0)
    decreases |added|
  {
    if added != [] {
      var mid := tasks[added[0].id := added[0].task];
      TaskPut(tasks, added[0].id, added[0].task, w, r);
      assert FreshTasks(mid, added[1..]);
      InsertedWeights(mid, added[1..], w, r);
      assert TaskWorkers(added)[1..] == TaskWorkers(added[1..]);
    }
  }

  function TaskWorkers(added: seq<NamedTask>): (ids: seq<string>)
    ensures |ids| == |added|
  {
    seq(|added|, i requires 0 <= i < |added| => added[i].task.worker)
  }

  // ----- the two statements -----

  /** Nothing negative is recorded: always so for slots, and for disk as long as no estimate
      overflowed. */
  ghost predicate WeightsOk(s: System, r: Resource) {
    r == Disk ==>
      && (forall t {:trigger s.tables.tasks[t]} :: t in s.tables.tasks ==> 0 <= s.tables.tasks[t].requiredDisk)
      && (forall c {:trigger s.calls[c]} :: c in s.calls ==> 0 <= ReservedBy(s.calls[c]))
  }

  /** The disk a call has reserved. */
  function ReservedBy(call: Call): int {
    match call
    case AssembleReserved(_, _, _, _, disk) => disk
    case AssembleAborting(_, _, disk) => disk
    case AssembleStale(_, disk) => disk
    case AssembleNotifying(_, _, _, disk, _) => disk
    case AssembleCancelling(_, disk, _) => disk
    case ReportReleasing(_, disk) => disk
    case _ => 0
  }

  /** The step does not reserve a negative amount of disk, which only an estimate that overflowed
      can ask for. */
  predicate NoOverflow(s: System, a: Action, r: Resource) {
    r == Disk && a.AssemblePick? && a.pick.Some? && At(s, a.c) && s.calls[a.c].AssembleSized? ==> 0 <= s.calls[a.c].disk
  }

  ghost predicate Bounded(s: System, w: string, r: Resource)
    requires w in s.workers
  {
    0 <= Held(s.workers[w], r) <= Owed(s, w, r)
  }

  ghost predicate Balanced(s: System, w: string, r: Resource)
    requires w in s.workers
  {
    Held(s.workers[w], r) == Owed(s, w, r)
  }

  /** A second release of a reservation that was already released, which still finds something
      to take from worker `w`. */
  predicate TakesTwice(s: System, a: Action, w: string, r: Resource)
    requires w in s.workers
  {
    && a.SettleRelease? && At(s, a.c) && s.calls[a.c].AssembleCancelling? && s.calls[a.c].surplus
    && s.calls[a.c].worker == w && Held(s.workers[w], r) > 0 && (r == Disk ==> s.calls[a.c].disk > 0)
  }

  // ----- effect of a step on what is owed -----

  lemma OwedByCall(s: System, s': System, c: nat, now: Call, w: string, r: Resource)
    requires s'.calls == s.calls[c := now] && s'.tables.tasks == s.tables.tasks
    ensures Owed(s', w, r) == Owed(s, w, r) + CallWeight(now, w, r) - (if c in s.calls then CallWeight(s.calls[c], w, r) else 0)
  {
    CallPut(s.calls, c, now, w, r);
  }

  lemma OwedByTask(s: System, s': System, c: nat, now: Call, t: string, task: Task, w: string, r: Resource)
    requires s'.calls == s.calls[c := now] && s'.tables.tasks == s.tables.tasks[t := task]
    ensures Owed(s', w, r) == Owed(s, w, r)
              + CallWeight(now, w, r) - (if c in s.calls then CallWeight(s.calls[c], w, r) else 0)
              + TaskWeight(task, w, r) - (if t in s.tables.tasks then TaskWeight(s.tables.tasks[t], w, r) else 0)
  {
    CallPut(s.calls, c, now, w, r);
    TaskPut(s.tables.tasks, t, task, w, r);
  }

  lemma WeightsNonNegative(s: System, w: string, r: Resource)
    requires WeightsOk(s, r)
    ensures forall t :: t in s.tables.tasks ==> 0 <= TaskWeight(s.tables.tasks[t], w, r)
    ensures forall c :: c in s.calls ==> 0 <= CallWeight(s.calls[c], w, r)
  {
  }

  /** What a call holds is part of what is owed. */
  lemma CallShare(s: System, c: nat, w: string, r: Resource)
    requires WeightsOk(s, r) && c in s.calls
    ensures 0 <= CallWeight(s.calls[c], w, r) <= Owed(s, w, r)
  {
    WeightsNonNegative(s, w, r);
    SumAtLeast(CallWeights(s.calls, w, r), c);
    SumAtLeast(TaskWeights(s.tables.tasks, w, r), "");
    assert CallWeights(s.calls, w, r)[c] == CallWeight(s.calls[c], w, r);
  }

  /** A worker Entry does not know is owed nothing. */
  lemma UnknownOwedNothing(s: System, w: string, r: Resource)
    requires Inv(s) && w !in s.workers
    ensures Owed(s, w, r) == 0
  {
    forall t | t in s.tables.tasks ensures TaskWeight(s.tables.tasks[t], w, r) == 0 {
      assert s.tables.tasks[t].worker in s.workers;
    }
    forall c | c in s.calls ensures CallWeight(s.calls[c], w, r) == 0 {
      assert CallOk(s.workers, s.tables, s.calls[c]);
      match s.calls[c]
      case Creating(_, _, _, _, _, _, placed) => CountPositive(WorkersOf(placed), w);
      case CreateUndoing(owed, _) => CountPositive(owed, w);
      case _ =>
    }
    SumZero(TaskWeights(s.tables.tasks, w, r));
    SumZero(CallWeights(s.calls, w, r));
  }

  // ----- the ledger over one action -----

  /** Held and owed move so that the bound survives, balance survives unless something is taken
      twice, and taking twice always breaks it. */
  ghost predicate LedgerStep(s: System, s': System, w: string, r: Resource, twice: bool) {
    w in s.workers && Bounded(s, w, r) ==>
      && w in s'.workers
      && Bounded(s', w, r)
      && (Balanced(s, w, r) ==> (Balanced(s', w, r) <==> !twice))
  }

  /** Steps that rewrite one call without changing what it holds. */
  lemma IdleLedger(s: System, s': System, c: nat, now: Call, w: string, r: Resource)
    requires s'.calls == s.calls[c := now] && s'.tables.tasks == s.tables.tasks && s'.workers == s.workers
    requires CallWeight(now, w, r) == if c in s.calls then CallWeight(s.calls[c], w, r) else 0
    ensures LedgerStep(s, s', w, r, false)
  {
    OwedByCall(s, s', c, now, w, r);
  }

  /** Steps that rewrite one call and one task so that together they hold what they held. */
  lemma HandOverLedger(s: System, s': System, c: nat, now: Call, t: string, task: Task, w: string, r: Resource)
    requires s'.calls == s.calls[c := now] && s'.tables.tasks == s.tables.tasks[t := task] && s'.workers == s.workers
    requires CallWeight(now, w, r) + TaskWeight(task, w, r) ==
             (if c in s.calls then CallWeight(s.calls[c], w, r) else 0)
             + (if t in s.tables.tasks then TaskWeight(s.tables.tasks[t], w, r) else 0)
    ensures LedgerStep(s, s', w, r, false)
  {
    OwedByTask(s, s', c, now, t, task, w, r);
  }

  /** Actions on the registry alone change neither what is held nor what is owed. */
  lemma RegistryLedger(s: System, ws: Table, ids: map<string, string>, w: string, r: Resource)
    requires w in s.workers ==> w in ws && Held(ws[w], r) == Held(s.workers[w], r)
    ensures LedgerStep(s, s.(workers := ws, idByAddress := ids), w, r, false)
  {
  }

  lemma CreateReserveLedger(s: System, c: nat, task: string, pick: Option<string>, idFails: bool, w: string,
                            r: Resource)
    requires At(s, c) && s.calls[c].Creating? && (pick.Some? ==> pick.value in s.workers)
    ensures LedgerStep(s, DoCreateReserve(s, c, task, pick, idFails), w, r, false)
  {
    var s' := DoCreateReserve(s, c, task, pick, idFails);
    var placed := s.calls[c].placed;
    OwedByCall(s, s', c, s'.calls[c], w, r);
    if pick.Some? {
      var placed' := placed + [Placed(task, pick.value, s.workers[pick.value].address)];
      assert WorkersOf(placed') == WorkersOf(placed) + [pick.value];
      CountAppend(WorkersOf(placed), [pick.value], w);
    }
  }

  /** A batch release by a call that owes exactly that batch. */
  lemma BatchReleaseLedger(s: System, c: nat, ids: seq<string>, now: Call, w: string, r: Resource)
    requires WeightsOk(s, r) && c in s.calls && (w in s.workers ==> 0 <= s.workers[w].reservedSlots)
    requires CallWeight(s.calls[c], w, r) == if r == Slot then Count(ids, w) else 0
    requires CallWeight(now, w, r) == 0
    ensures LedgerStep(s, Put(s.(workers := ReleaseAll(s.workers, ids)), c, now), w, r, false)
  {
    if w in s.workers {
      ReleaseAllHeld(s.workers, ids, w);
      OwedByCall(s, Put(s.(workers := ReleaseAll(s.workers, ids)), c, now), c, now, w, r);
      CallShare(s, c, w, r);
    }
  }

  lemma CreateCommitLedger(s: System, c: nat, w: string, r: Resource)
    requires At(s, c) && s.calls[c].Creating? && |s.calls[c].placed| == |s.calls[c].plan|
    requires IdentityKey(s.calls[c].address, s.calls[c].video) in s.tables.byIdentity || FreshIds(s, s.calls[c])
    requires WeightsOk(s, r) && (w in s.workers ==> 0 <= s.workers[w].reservedSlots)
    ensures LedgerStep(s, DoCreateCommit(s, c), w, r, false)
  {
    var s' := DoCreateCommit(s, c);
    var call := s.calls[c];
    if IdentityKey(call.address, call.video) in s.tables.byIdentity {
      BatchReleaseLedger(s, c, WorkersOf(call.placed), s'.calls[c], w, r);
    } else {
      InsertLedger(s, c, w, r);
    }
  }

  /** The new tasks take over what the request held. */
  lemma InsertLedger(s: System, c: nat, w: string, r: Resource)
    requires At(s, c) && s.calls[c].Creating? && |s.calls[c].placed| == |s.calls[c].plan| && FreshIds(s, s.calls[c])
    requires IdentityKey(s.calls[c].address, s.calls[c].video) !in s.tables.byIdentity
    ensures LedgerStep(s, DoCreateCommit(s, c), w, r, false)
  {
    var s' := DoCreateCommit(s, c);
    var call := s.calls[c];
    var built := BuiltTasks(call.job, call.plan, call.placed);
    InsertedWeights(s.tables.tasks, built, w, r);
    assert TaskWorkers(built) == WorkersOf(call.placed);
    CallPut(s.calls, c, s'.calls[c], w, r);
  }

  lemma SegmentAcceptedLedger(s: System, t: string, worker: string, w: string, r: Resource)
    ensures LedgerStep(s, DoSegmentAccepted(s, t, worker), w, r, false)
  {
    if Accept(s.tables, t, worker).Ok? {
      TaskPut(s.tables.tasks, t, s.tables.tasks[t].(status := Running), w, r);
    }
  }

  /** The live segment's share becomes the call's pending release. */
  lemma SegmentCompletesLedger(s: System, c: nat, t: string, worker: string, report: SegmentReport, w: string,
                               r: Resource)
    requires !At(s, c) && (FindSegment(s.tables, t, worker).Ok? ==> s.tables.tasks[t].requiredDisk == 0)
    ensures LedgerStep(s, DoSegmentCompletes(s, c, t, worker, report), w, r, false)
  {
    var s' := DoSegmentCompletes(s, c, t, worker, report);
    if Complete(s.tables, t, worker, report).Ok? {
      HandOverLedger(s, s', c, s'.calls[c], t, s'.tables.tasks[t], w, r);
    } else {
      IdleLedger(s, s', c, s'.calls[c], w, r);
    }
  }

  lemma SegmentFailsLedger(s: System, c: nat, t: string, worker: string, w: string, r: Resource)
    requires !At(s, c) && (FindSegment(s.tables, t, worker).Ok? ==> s.tables.tasks[t].requiredDisk == 0)
    ensures LedgerStep(s, DoSegmentFails(s, c, t, worker), w, r, false)
  {
    var s' := DoSegmentFails(s, c, t, worker);
    if Jobs.FailSegment(s.tables, t, worker).Ok? {
      HandOverLedger(s, s', c, s'.calls[c], t, s'.tables.tasks[t], w, r);
    } else {
      IdleLedger(s, s', c, s'.calls[c], w, r);
    }
  }

  /** Segment tasks carry no disk. */
  lemma SegmentDiskless(s: System, t: string, worker: string)
    requires TablesOk(s.tables) && FindSegment(s.tables, t, worker).Ok?
    ensures s.tables.tasks[t].requiredDisk == 0
  {
    var i := SegmentPosition(s.tables, t);
    assert JobOk(s.tables, s.tables.tasks[t].job);
  }

  /** One release of `worker` by a call that holds the released share, or holds nothing and
      releases a second time. */
  lemma ReleaseLedger(s: System, c: nat, worker: string, disk: int, surplus: bool, now: Call, w: string, r: Resource)
    requires WeightsOk(s, r) && c in s.calls && (r == Disk ==> 0 <= disk)
    requires w in s.workers ==> 0 <= s.workers[w].reservedSlots
    requires CallWeight(s.calls[c], w, r) == if surplus then 0 else Share(worker, disk, w, r)
    requires CallWeight(now, w, r) == 0
    ensures LedgerStep(s, Put(s.(workers := Release(s.workers, worker, disk)), c, now), w, r,
                       surplus && worker == w && w in s.workers && Held(s.workers[w], r) > 0 && (r == Disk ==> disk > 0))
  {
    OwedByCall(s, Put(s.(workers := Release(s.workers, worker, disk)), c, now), c, now, w, r);
    CallShare(s, c, w, r);
  }

  lemma AssemblePickLedger(s: System, c: nat, pick: Option<string>, w: string, r: Resource)
    requires At(s, c) && s.calls[c].AssembleSized? && (pick.Some? ==> pick.value in s.workers)
    requires r == Disk && pick.Some? ==> 0 <= s.calls[c].disk
    ensures LedgerStep(s, DoAssemblePick(s, c, pick), w, r, false)
  {
    var s' := DoAssemblePick(s, c, pick);
    OwedByCall(s, s', c, s'.calls[c], w, r);
  }

  lemma AssembleRecordLedger(s: System, c: nat, task: string, w: string, r: Resource)
    requires At(s, c) && s.calls[c].AssembleReserved? && task !in s.tables.tasks
    ensures LedgerStep(s, DoAssembleRecord(s, c, task), w, r, false)
  {
    var s' := DoAssembleRecord(s, c, task);
    if s'.calls[c].AssembleStale? {
      IdleLedger(s, s', c, s'.calls[c], w, r);
    } else {
      HandOverLedger(s, s', c, s'.calls[c], task, s'.tables.tasks[task], w, r);
    }
  }

  lemma AssembleStartedLedger(s: System, c: nat, w: string, r: Resource)
    requires At(s, c) && s.calls[c].AssembleNotifying? && s.calls[c].task in s.tables.tasks
    ensures LedgerStep(s, DoAssembleStarted(s, c), w, r, false)
  {
    var s' := DoAssembleStarted(s, c);
    var t := s.calls[c].task;
    assert s'.tables.tasks == s.tables.tasks[t := s'.tables.tasks[t]];
    HandOverLedger(s, s', c, s'.calls[c], t, s'.tables.tasks[t], w, r);
  }

  lemma AssembleStartErrsLedger(s: System, c: nat, w: string, r: Resource)
    requires At(s, c) && s.calls[c].AssembleNotifying? && s.calls[c].task in s.tables.tasks
    requires s.tables.tasks[s.calls[c].task].worker == s.calls[c].worker
    requires s.tables.tasks[s.calls[c].task].requiredDisk == s.calls[c].disk
    ensures LedgerStep(s, DoAssembleStartErrs(s, c), w, r, false)
  {
    var s' := DoAssembleStartErrs(s, c);
    var t := s.calls[c].task;
    assert s'.tables.tasks == s.tables.tasks[t := s'.tables.tasks[t]];
    HandOverLedger(s, s', c, s'.calls[c], t, s'.tables.tasks[t], w, r);
  }

  lemma ReportSuccessLedger(s: System, c: nat, w: string, r: Resource)
    requires TablesOk(s.tables) && At(s, c) && s.calls[c].ReportReady?
    ensures LedgerStep(s, DoReportSuccess(s, c), w, r, false)
  {
    var s' := DoReportSuccess(s, c);
    var call := s.calls[c];
    TargetIs(s.tables, call.job, call.worker);
    var r' := ReportComplete(s.tables, call.job, call.worker, call.address, call.name);
    if r'.Ok? {
      HandOverLedger(s, s', c, s'.calls[c], r'.value.1, s'.tables.tasks[r'.value.1], w, r);
    } else {
      IdleLedger(s, s', c, s'.calls[c], w, r);
    }
  }

  lemma ReportFailureLedger(s: System, c: nat, job: string, worker: string, w: string, r: Resource)
    requires TablesOk(s.tables) && !At(s, c)
    ensures LedgerStep(s, DoReportFailure(s, c, job, worker), w, r, false)
  {
    var s' := DoReportFailure(s, c, job, worker);
    TargetIs(s.tables, job, worker);
    var r' := ReportFail(s.tables, job, worker);
    if r'.Ok? {
      HandOverLedger(s, s', c, s'.calls[c], r'.value.1, s'.tables.tasks[r'.value.1], w, r);
    } else {
      IdleLedger(s, s', c, s'.calls[c], w, r);
    }
  }

  // ----- all actions -----

  lemma RegistryNext(s: System, a: Action, w: string, r: Resource)
    requires RegistryAction(a) && Enabled(s, a) && w in s.workers && AddressesOk(s)
    ensures LedgerStep(s, Next(s, a), w, r, false)
  {
    match a
    case Register(req, id) =>
      var s' := DoRegister(s, req, id);
      RegistryLedger(s, s'.workers, s'.idByAddress, w, r);
    case Heartbeat(worker, diskFree) => RegistryLedger(s, DoHeartbeat(s, worker, diskFree).workers, s.idByAddress, w, r);
    case ExpireSome(late) => RegistryLedger(s, Expire(s.workers, late), s.idByAddress, w, r);
    case ObserveDisk(worker, diskFree) => RegistryLedger(s, DoObserveDisk(s, worker, diskFree).workers, s.idByAddress, w, r);
  }

  lemma CreateNext(s: System, a: Action, w: string, r: Resource)
    requires CreateAction(a) && Enabled(s, a) && w in s.workers && 0 <= s.workers[w].reservedSlots && WeightsOk(s, r)
    ensures LedgerStep(s, Next(s, a), w, r, false)
  {
    match a
    case CreateBegin(c, source, video, total, plan) =>
      IdleLedger(s, Next(s, a), c, DoCreateBegin(s, c, source, video, total, plan).calls[c], w, r);
    case CreateFind(c, job) => IdleLedger(s, Next(s, a), c, DoCreateFind(s, c, job).calls[c], w, r);
    case CreateReserve(c, task, pick, idFails) => CreateReserveLedger(s, c, task, pick, idFails, w, r);
    case CreateUndo(c) => BatchReleaseLedger(s, c, s.calls[c].owed, DoCreateUndo(s, c).calls[c], w, r);
    case CreateCommit(c) => CreateCommitLedger(s, c, w, r);
  }

  lemma SegmentNext(s: System, a: Action, w: string, r: Resource)
    requires TablesOk(s.tables) && SegmentAction(a) && Enabled(s, a) && w in s.workers
    requires 0 <= s.workers[w].reservedSlots && WeightsOk(s, r)
    ensures LedgerStep(s, Next(s, a), w, r, false)
  {
    match a
    case SegmentAccepted(task, worker) => SegmentAcceptedLedger(s, task, worker, w, r);
    case SegmentCompletes(c, task, worker, report) =>
      if FindSegment(s.tables, task, worker).Ok? { SegmentDiskless(s, task, worker); }
      SegmentCompletesLedger(s, c, task, worker, report, w, r);
    case SegmentFails(c, task, worker) =>
      if FindSegment(s.tables, task, worker).Ok? { SegmentDiskless(s, task, worker); }
      SegmentFailsLedger(s, c, task, worker, w, r);
    case SegmentRelease(c) =>
      ReleaseLedger(s, c, s.calls[c].worker, 0, false, DoSegmentRelease(s, c).calls[c], w, r);
  }

  lemma ReportNext(s: System, a: Action, w: string, r: Resource)
    requires TablesOk(s.tables) && ReportAction(a) && Enabled(s, a) && w in s.workers
    ensures LedgerStep(s, Next(s, a), w, r, false)
  {
    match a
    case ReportBegin(c, job, worker, name) => IdleLedger(s, Next(s, a), c, DoReportBegin(s, c, job, worker, name).calls[c], w, r);
    case ReportSuccess(c) => ReportSuccessLedger(s, c, w, r);
    case ReportFailure(c, job, worker) => ReportFailureLedger(s, c, job, worker, w, r);
  }

  lemma AssembleNext(s: System, a: Action, w: string, r: Resource)
    requires AssembleAction(a) && !a.AssembleStarted? && !a.AssembleStartErrs? && Enabled(s, a) && NoOverflow(s, a, r)
    ensures LedgerStep(s, Next(s, a), w, r, false)
  {
    match a
    case AssembleSnapshot(c) => IdleLedger(s, DoAssembleSnapshot(s, c), c, DoAssembleSnapshot(s, c).calls[c], w, r);
    case AssemblePick(c, pick) => AssemblePickLedger(s, c, pick, w, r);
    case AssembleIdFails(c) => IdleLedger(s, DoAssembleIdFails(s, c), c, DoAssembleIdFails(s, c).calls[c], w, r);
    case AssembleGiveUp(c) => IdleLedger(s, DoAssembleGiveUp(s, c), c, DoAssembleGiveUp(s, c).calls[c], w, r);
    case AssembleRecord(c, task) => AssembleRecordLedger(s, c, task, w, r);
  }

  lemma ReplyLedger(s: System, c: nat, w: string, r: Resource)
    requires Inv(s) && At(s, c) && s.calls[c].AssembleNotifying?
    ensures LedgerStep(s, DoAssembleStarted(s, c), w, r, false)
    ensures LedgerStep(s, DoAssembleStartErrs(s, c), w, r, false)
  {
    assert CallOk(s.workers, s.tables, s.calls[c]);
    AssembleStartedLedger(s, c, w, r);
    AssembleStartErrsLedger(s, c, w, r);
  }

  lemma SettleNext(s: System, c: nat, w: string, r: Resource)
    requires At(s, c) && OwesRelease(s.calls[c]) && w in s.workers && 0 <= s.workers[w].reservedSlots && WeightsOk(s, r)
    ensures LedgerStep(s, DoSettleRelease(s, c), w, r, TakesTwice(s, SettleRelease(c), w, r))
  {
    var call := s.calls[c];
    assert r == Disk ==> 0 <= ReservedBy(call);
    ReleaseLedger(s, c, call.worker, call.disk, call.AssembleCancelling? && call.surplus, DoSettleRelease(s, c).calls[c], w, r);
  }

  /** Every action keeps the bound of every worker; it keeps balance exactly when it does not
      take twice. */
  lemma LedgerNext(s: System, a: Action, w: string, r: Resource)
    requires Inv(s) && Enabled(s, a) && w in s.workers
    requires Bounded(s, w, Slot) && WeightsOk(s, r) && NoOverflow(s, a, r)
    ensures LedgerStep(s, Next(s, a), w, r, TakesTwice(s, a, w, r))
  {
    if a.SettleRelease? {
      SettleNext(s, a.c, w, r);
    } else if RegistryAction(a) {
      RegistryNext(s, a, w, r);
    } else if CreateAction(a) {
      CreateNext(s, a, w, r);
    } else if SegmentAction(a) {
      SegmentNext(s, a, w, r);
    } else if ReportAction(a) {
      ReportNext(s, a, w, r);
    } else if a.AssembleStarted? || a.AssembleStartErrs? {
      ReplyLedger(s, a.c, w, r);
    } else {
      AssembleNext(s, a, w, r);
    }
  }

  // ----- disk amounts -----

  lemma CreateWeights(s: System, a: Action)
    requires CreateAction(a) && Enabled(s, a) && WeightsOk(s, Disk)
    ensures WeightsOk(Next(s, a), Disk)
  {
    if a.CreateCommit? {
      CommitWeights(s, a.c);
    }
  }

  lemma CommitWeights(s: System, c: nat)
    requires Enabled(s, CreateCommit(c)) && WeightsOk(s, Disk)
    ensures WeightsOk(DoCreateCommit(s, c), Disk)
  {
    var call, tasks' := s.calls[c], DoCreateCommit(s, c).tables.tasks;
    if IdentityKey(call.address, call.video) !in s.tables.byIdentity {
      var built := BuiltTasks(call.job, call.plan, call.placed);
      InsertTasksIs(s.tables.tasks, built);
      forall t | t in tasks' ensures 0 <= tasks'[t].requiredDisk {
        if t !in s.tables.tasks {
          var i :| 0 <= i < |built| && built[i].id == t;
        }
      }
    }
  }

  lemma SegmentWeights(s: System, a: Action)
    requires SegmentAction(a) && Enabled(s, a) && WeightsOk(s, Disk)
    ensures WeightsOk(Next(s, a), Disk)
  {
  }

  lemma ReportWeights(s: System, a: Action)
    requires ReportAction(a) && Enabled(s, a) && WeightsOk(s, Disk)
    ensures WeightsOk(Next(s, a), Disk)
  {
  }

  lemma AssembleWeights(s: System, a: Action)
    requires (AssembleAction(a) || a.SettleRelease?) && Enabled(s, a) && WeightsOk(s, Disk) && NoOverflow(s, a, Disk)
    ensures WeightsOk(Next(s, a), Disk)
  {
    match a
    case AssembleStarted(c) => ReplyWeights(s, c);
    case AssembleStartErrs(c) => ReplyWeights(s, c);
    case AssembleRecord(c, task) => RecordWeights(s, c, task);
    case AssemblePick(c, pick) => PickWeights(s, c, pick);
    case SettleRelease(c) => SettleWeights(s, c);
    case AssembleIdFails(c) => AbortWeights(s, c);
    case AssembleSnapshot(c) => SnapshotWeights(s, c);
    case AssembleGiveUp(c) => GiveUpWeights(s, c);
  }

  lemma SnapshotWeights(s: System, c: nat)
    requires At(s, c) && s.calls[c].AssembleReady? && WeightsOk(s, Disk)
    ensures WeightsOk(DoAssembleSnapshot(s, c), Disk)
  {
  }

  lemma GiveUpWeights(s: System, c: nat)
    requires At(s, c) && s.calls[c].AssembleGivingUp? && WeightsOk(s, Disk)
    ensures WeightsOk(DoAssembleGiveUp(s, c), Disk)
  {
  }

  lemma AbortWeights(s: System, c: nat)
    requires At(s, c) && s.calls[c].AssembleReserved? && WeightsOk(s, Disk)
    ensures WeightsOk(DoAssembleIdFails(s, c), Disk)
  {
  }

  lemma PickWeights(s: System, c: nat, pick: Option<string>)
    requires At(s, c) && s.calls[c].AssembleSized? && WeightsOk(s, Disk)
    requires pick.Some? ==> pick.value in s.workers && 0 <= s.calls[c].disk
    ensures WeightsOk(DoAssemblePick(s, c, pick), Disk)
  {
  }

  lemma SettleWeights(s: System, c: nat)
    requires At(s, c) && OwesRelease(s.calls[c]) && WeightsOk(s, Disk)
    ensures WeightsOk(DoSettleRelease(s, c), Disk)
  {
  }

  lemma ReplyWeights(s: System, c: nat)
    requires At(s, c) && s.calls[c].AssembleNotifying? && WeightsOk(s, Disk)
    ensures WeightsOk(DoAssembleStarted(s, c), Disk) && WeightsOk(DoAssembleStartErrs(s, c), Disk)
  {
  }

  lemma RecordWeights(s: System, c: nat, task: string)
    requires At(s, c) && s.calls[c].AssembleReserved? && WeightsOk(s, Disk)
    ensures WeightsOk(DoAssembleRecord(s, c, task), Disk)
  {
  }

  /** No action records a negative amount unless an estimate overflowed. */
  lemma WeightsNext(s: System, a: Action, r: Resource)
    requires Enabled(s, a) && WeightsOk(s, r) && NoOverflow(s, a, r)
    ensures WeightsOk(Next(s, a), r)
  {
    if r == Disk {
      if RegistryAction(a) {
        assert Next(s, a).tables == s.tables && Next(s, a).calls == s.calls;
      } else if CreateAction(a) {
        CreateWeights(s, a);
      } else if SegmentAction(a) {
        SegmentWeights(s, a);
      } else if ReportAction(a) {
        ReportWeights(s, a);
      } else {
        AssembleWeights(s, a);
      }
    }
  }
}
