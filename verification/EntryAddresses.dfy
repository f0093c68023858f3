/** Every address Entry hands out is the one its worker is registered under, in every state of every
    run: for segments of a start request, for the assemble worker and for the result. */
module EntryAddresses {
  import opened Wrappers
  import opened Workers
  import opened Jobs
  import opened Entry
  import opened EntryInvariant
  import opened EntryLedger
  import opened EntryRuns
  import opened EntryTheorems
  import opened EntryOrigins

  predicate WorkerAt(ws: Table, id: string, address: string) {
    id in ws && ws[id].address == address
  }

  predicate CallAddressed(ws: Table, call: Call) {
    match call
    case CreateChecked(source, address, _, _, _) => WorkerAt(ws, source, address)
    case Creating(source, address, _, _, _, _, placed) =>
      && WorkerAt(ws, source, address)
      && forall i :: 0 <= i < |placed| ==> WorkerAt(ws, placed[i].worker, placed[i].address)
    case AssembleReserved(_, _, worker, address, _) => WorkerAt(ws, worker, address)
    case ReportReady(_, worker, address, _) => WorkerAt(ws, worker, address)
    case _ => true
  }

  ghost predicate TasksAddressed(s: System) {
    forall t {:trigger s.tables.tasks[t]} :: t in s.tables.tasks ==>
      WorkerAt(s.workers, s.tables.tasks[t].worker, s.tables.tasks[t].address)
  }

  ghost predicate CallsAddressed(s: System) {
    forall c {:trigger s.calls[c]} :: c in s.calls ==> CallAddressed(s.workers, s.calls[c])
  }

  /** Nobody moves. */
  ghost predicate SamePlaces(ws: Table, ws': Table) {
    forall id {:trigger ws[id]} :: id in ws ==> WorkerAt(ws', id, ws[id].address)
  }

  lemma PlacesNext(s: System, a: Action)
    requires Enabled(s, a)
    ensures SamePlaces(s.workers, Next(s, a).workers)
  {
    if CreateAction(a) {
      PlacesByCreate(s, a);
    } else if RegistryAction(a) {
      PlacesByRegistry(s, a);
    } else if AssembleAction(a) {
      PlacesByAssembly(s, a);
    } else if SegmentAction(a) {
      PlacesBySegment(s, a);
    } else if ReportAction(a) {
      PlacesByReport(s, a);
    }
  }

  lemma PlacesByCreate(s: System, a: Action)
    requires Enabled(s, a) && CreateAction(a)
    ensures SamePlaces(s.workers, Next(s, a).workers)
  {
    match a
    case CreateUndo(c) => ReleaseAllKeys(s.workers, s.calls[c].owed);
    case CreateCommit(c) => ReleaseAllKeys(s.workers, WorkersOf(s.calls[c].placed));
    case _ =>
  }

  lemma PlacesByRegistry(s: System, a: Action)
    requires Enabled(s, a) && RegistryAction(a)
    ensures SamePlaces(s.workers, Next(s, a).workers)
  {
  }

  lemma PlacesByAssembly(s: System, a: Action)
    requires Enabled(s, a) && AssembleAction(a)
    ensures SamePlaces(s.workers, Next(s, a).workers)
  {
  }

  lemma PlacesBySegment(s: System, a: Action)
    requires Enabled(s, a) && SegmentAction(a)
    ensures SamePlaces(s.workers, Next(s, a).workers)
  {
  }

  lemma PlacesByReport(s: System, a: Action)
    requires Enabled(s, a) && ReportAction(a)
    ensures SamePlaces(s.workers, Next(s, a).workers)
  {
  }

  lemma CallStillAddressed(ws: Table, ws': Table, call: Call)
    requires SamePlaces(ws, ws') && CallAddressed(ws, call)
    ensures CallAddressed(ws', call)
  {
    if call.Creating? {
      forall i | 0 <= i < |call.placed| ensures WorkerAt(ws', call.placed[i].worker, call.placed[i].address) {
        var _ := ws[call.placed[i].worker];
      }
    }
  }

  /** The request that takes the step takes addresses from the registry. */
  lemma ActorAddressed(s: System, a: Action)
    requires Enabled(s, a) && Actor(a).Some? && a.c in Next(s, a).calls
    requires a.c in s.calls ==> CallAddressed(s.workers, s.calls[a.c])
    ensures CallAddressed(Next(s, a).workers, Next(s, a).calls[a.c])
  {
    PlacesNext(s, a);
    if a.CreateReserve? {
      PlacedAddressed(s, a);
    } else if CreateAction(a) {
      if a.CreateFind? { CallStillAddressed(s.workers, Next(s, a).workers, s.calls[a.c]); }
    } else if AssembleAction(a) {
      AssemblerAddressed(s, a);
    } else if !a.SettleRelease? {
      ReporterAddressed(s, a);
    }
  }

  lemma PlacedAddressed(s: System, a: Action)
    requires Enabled(s, a) && a.CreateReserve? && CallAddressed(s.workers, s.calls[a.c])
    requires a.c in Next(s, a).calls
    ensures CallAddressed(Next(s, a).workers, Next(s, a).calls[a.c])
  {
    PlacesByCreate(s, a);
    CallStillAddressed(s.workers, Next(s, a).workers, s.calls[a.c]);
  }

  lemma AssemblerAddressed(s: System, a: Action)
    requires Enabled(s, a) && AssembleAction(a) && a.c in Next(s, a).calls
    ensures CallAddressed(Next(s, a).workers, Next(s, a).calls[a.c])
  {
  }

  lemma ReporterAddressed(s: System, a: Action)
    requires Enabled(s, a) && (SegmentAction(a) || ReportAction(a)) && Actor(a).Some? && a.c in Next(s, a).calls
    ensures CallAddressed(Next(s, a).workers, Next(s, a).calls[a.c])
  {
  }

  lemma CallsAddressedNext(s: System, a: Action)
    requires Enabled(s, a) && CallsAddressed(s)
    ensures CallsAddressed(Next(s, a))
  {
    ActorOnly(s, a);
    PlacesNext(s, a);
    forall c | c in Next(s, a).calls ensures CallAddressed(Next(s, a).workers, Next(s, a).calls[c]) {
      if Actor(a) == Some(c) {
        ActorAddressed(s, a);
      } else {
        CallStillAddressed(s.workers, Next(s, a).workers, s.calls[c]);
      }
    }
  }

  /** A task that appears was placed by a creation or picked for an assembly. */
  lemma NewTaskAddressed(s: System, a: Action, t: string)
    requires Inv(s) && Enabled(s, a) && CallsAddressed(s) && t !in s.tables.tasks && t in Next(s, a).tables.tasks
    ensures WorkerAt(s.workers, Next(s, a).tables.tasks[t].worker, Next(s, a).tables.tasks[t].address)
  {
    NewTaskSteps(s, a, t);
    assert CallAddressed(s.workers, s.calls[a.c]);
    if a.CreateCommit? {
      var built := BuiltTasks(s.calls[a.c].job, s.calls[a.c].plan, s.calls[a.c].placed);
      InsertTasksIs(s.tables.tasks, built);
      var i :| 0 <= i < |built| && built[i].id == t;
    }
  }

  lemma NewTaskSteps(s: System, a: Action, t: string)
    requires Inv(s) && Enabled(s, a) && t !in s.tables.tasks && t in Next(s, a).tables.tasks
    ensures a.CreateCommit? || (a.AssembleRecord? && a.task == t)
    ensures a.c in s.calls && (s.calls[a.c].Creating? || s.calls[a.c].AssembleReserved?)
    ensures Next(s, a).tables != s.tables
  {
    if SegmentAction(a) {
      NoTaskBySegment(s, a);
    } else if ReportAction(a) {
      NoTaskByReport(s, a);
    } else if AssembleAction(a) {
      NoTaskByAssembly(s, a, t);
    }
  }

  lemma NoTaskBySegment(s: System, a: Action)
    requires Enabled(s, a) && SegmentAction(a)
    ensures Next(s, a).tables.tasks.Keys == s.tables.tasks.Keys
  {
  }

  lemma NoTaskByReport(s: System, a: Action)
    requires Enabled(s, a) && ReportAction(a)
    ensures Next(s, a).tables.tasks.Keys == s.tables.tasks.Keys
  {
  }

  lemma NoTaskByAssembly(s: System, a: Action, t: string)
    requires Enabled(s, a) && AssembleAction(a) && t !in s.tables.tasks && t in Next(s, a).tables.tasks
    ensures a.AssembleRecord? && a.task == t
  {
  }

  lemma TasksAddressedNext(s: System, a: Action)
    requires Inv(s) && Enabled(s, a) && TasksAddressed(s) && CallsAddressed(s)
    ensures TasksAddressed(Next(s, a))
  {
    var s' := Next(s, a);
    NextInv(s, a);
    PlacesNext(s, a);
    forall t | t in s'.tables.tasks ensures WorkerAt(s'.workers, s'.tables.tasks[t].worker, s'.tables.tasks[t].address) {
      if t in s.tables.tasks {
        assert TaskKept(s.tables, s'.tables, t);
        var _ := s.workers[s.tables.tasks[t].worker];
      } else {
        NewTaskAddressed(s, a, t);
        var _ := s.workers[s'.tables.tasks[t].worker];
      }
    }
  }

  lemma {:induction false} AddressesRight(states: seq<System>, acts: seq<Action>, n: nat)
    requires Run(states, acts) && n <= |acts|
    ensures TasksAddressed(states[n]) && CallsAddressed(states[n])
    decreases n
  {
    if n > 0 {
      AddressesRight(states, acts, n - 1);
      Reachable(states, acts, n - 1);
      assert Moves(states, acts, n - 1);
      TasksAddressedNext(states[n - 1], acts[n - 1]);
      CallsAddressedNext(states[n - 1], acts[n - 1]);
    }
  }

  lemma {:induction false} NobodyMoves(states: seq<System>, acts: seq<Action>, m: nat, n: nat, id: string)
    requires Run(states, acts) && m <= n <= |acts| && id in states[m].workers
    ensures WorkerAt(states[n].workers, id, states[m].workers[id].address)
    decreases n
  {
    if m < n {
      NobodyMoves(states, acts, m, n - 1, id);
      assert Moves(states, acts, n - 1);
      PlacesNext(states[n - 1], acts[n - 1]);
      var _ := states[n - 1].workers[id];
    }
  }

  /** The address a start request gives for a segment is where its worker is registered. */
  lemma RequestAddresses(states: seq<System>, acts: seq<Action>, n: nat, d: nat, k: nat)
    requires Run(states, acts) && n <= |acts| && d in states[n].calls && states[n].calls[d].AssembleNotifying?
    requires k < |states[n].calls[d].segments|
    ensures var ref := states[n].calls[d].segments[k]; WorkerAt(states[n].workers, ref.worker, ref.address)
  {
    Reachable(states, acts, n);
    AddressesRight(states, acts, n);
    SegmentOfRequest(states[n], d, k);
  }

  /** The address of a result is where the worker that made it is registered. */
  lemma ResultAddress(states: seq<System>, acts: seq<Action>, n: nat, j: string)
    requires Run(states, acts) && n <= |acts| && IsCompleted(states[n], j)
    ensures var job := states[n].tables.jobs[j]; WorkerAt(states[n].workers, job.resultWorker, job.resultAddress)
  {
    ResultFromReport(states, acts, n, j);
    var m: nat :| m < n && Delivers(states[m], acts[m], j, states[n].tables.jobs[j]);
    AddressesRight(states, acts, m);
    assert CallAddressed(states[m].workers, states[m].calls[acts[m].c]);
    NobodyMoves(states, acts, m, n, states[n].tables.jobs[j].resultWorker);
  }
}
