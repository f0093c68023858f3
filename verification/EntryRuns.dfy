/** Safety of Entry over whole runs: any number of requests, interleaved in any order, with any
    replies from workers. */
module EntryRuns {
  import opened Wrappers
  import opened Sums
  import opened Workers
  import opened Jobs
  import opened Entry
  import opened EntryInvariant
  import opened EntryLedger
  import DiskEstimate

  // ----- runs -----

  /** Step `i` of the run is the action it names. */
  ghost predicate Moves(states: seq<System>, acts: seq<Action>, i: nat)
    requires |states| == |acts| + 1 && i < |acts|
  {
    Enabled(states[i], acts[i]) && states[i + 1] == Next(states[i], acts[i])
  }

  ghost predicate Run(states: seq<System>, acts: seq<Action>) {
    && |states| == |acts| + 1
    && states[0] == Initial()
    && forall i: nat {:trigger Moves(states, acts, i)} :: i < |acts| ==> Moves(states, acts, i)
  }

  /** Every reachable state satisfies the invariant. */
  lemma {:induction false} Reachable(states: seq<System>, acts: seq<Action>, n: nat)
    requires Run(states, acts) && n <= |acts|
    ensures Inv(states[n])
    decreases n
  {
    if n == 0 {
      InitialInv();
    } else {
      Reachable(states, acts, n - 1);
      assert Moves(states, acts, n - 1);
      NextInv(states[n - 1], acts[n - 1]);
    }
  }

  /** Nothing recorded is dropped along a run, and a settled task never changes. */
  lemma {:induction false} RunEvolves(states: seq<System>, acts: seq<Action>, i: nat, n: nat)
    requires Run(states, acts) && i <= n <= |acts|
    ensures Evolves(states[i].tables, states[n].tables)
    decreases n
  {
    if i == n {
      EvolvesSelf(states[n].tables);
    } else {
      RunEvolves(states, acts, i, n - 1);
      Reachable(states, acts, n - 1);
      assert Moves(states, acts, n - 1);
      NextInv(states[n - 1], acts[n - 1]);
      EvolvesTransitive(states[i].tables, states[n - 1].tables, states[n].tables);
    }
  }

  /** The request that takes the step, if it is one. */
  function Actor(a: Action): Option<nat> {
    if RegistryAction(a) || a.SegmentAccepted? then None else Some(a.c)
  }

  /** Only call `c`, if any, was written, and no worker came or went. */
  predicate OnlyCall(s: System, s': System, c: Option<nat>) {
    && (if c.None? then s'.calls == s.calls else c.value in s'.calls && s'.calls == s.calls[c.value := s'.calls[c.value]])
    && s'.workers.Keys == s.workers.Keys
  }

  lemma CreateCalls(s: System, a: Action)
    requires Enabled(s, a) && CreateAction(a)
    ensures OnlyCall(s, Next(s, a), Actor(a))
  {
    match a
    case CreateUndo(c) => ReleaseAllKeys(s.workers, s.calls[c].owed);
    case CreateCommit(c) => ReleaseAllKeys(s.workers, WorkersOf(s.calls[c].placed));
    case _ =>
  }

  lemma SegmentCalls(s: System, a: Action)
    requires Enabled(s, a) && SegmentAction(a)
    ensures OnlyCall(s, Next(s, a), Actor(a))
  {
  }

  lemma AssembleCalls(s: System, a: Action)
    requires Enabled(s, a) && (AssembleAction(a) || a.SettleRelease?)
    ensures OnlyCall(s, Next(s, a), Actor(a))
  {
  }

  lemma ReportCalls(s: System, a: Action)
    requires Enabled(s, a) && ReportAction(a)
    ensures OnlyCall(s, Next(s, a), Actor(a))
  {
  }

  /** A step moves only its own request, and only registration brings a worker. */
  lemma ActorOnly(s: System, a: Action)
    requires Enabled(s, a)
    ensures RegistryAction(a) ==> Next(s, a).calls == s.calls
    ensures !RegistryAction(a) ==> OnlyCall(s, Next(s, a), Actor(a))
  {
    if CreateAction(a) {
      CreateCalls(s, a);
    } else if SegmentAction(a) {
      SegmentCalls(s, a);
    } else if ReportAction(a) {
      ReportCalls(s, a);
    } else if !RegistryAction(a) {
      AssembleCalls(s, a);
    }
  }

  // ----- states some run reaches -----

  ghost predicate ReachedBy(states: seq<System>, acts: seq<Action>, s: System) {
    Run(states, acts) && states[|acts|] == s
  }

  ghost predicate Reached(s: System) {
    exists states, acts :: ReachedBy(states, acts, s)
  }

  lemma Extend(s: System, a: Action, s': System)
    requires Reached(s) && Enabled(s, a) && s' == Next(s, a)
    ensures Reached(s')
  {
    var states, acts :| ReachedBy(states, acts, s);
    var states', acts' := states + [s'], acts + [a];
    forall i: nat | i < |acts'| ensures Moves(states', acts', i) {
      if i < |acts| {
        assert Moves(states, acts, i);
      }
    }
    assert ReachedBy(states', acts', s');
  }

  // ----- the reservation ledger -----

  /** No negative estimate is reserved before step `n`. */
  ghost predicate OverflowFree(states: seq<System>, acts: seq<Action>, n: nat, r: Resource)
    requires |states| == |acts| + 1 && n <= |acts|
  {
    forall i {:trigger NoOverflow(states[i], acts[i], r)} :: 0 <= i < n ==> NoOverflow(states[i], acts[i], r)
  }

  lemma NewWorkerLedger(s: System, a: Action, w: string, r: Resource)
    requires Inv(s) && Enabled(s, a) && w !in s.workers && w in Next(s, a).workers
    ensures Bounded(Next(s, a), w, r) && Balanced(Next(s, a), w, r)
  {
    UnknownOwedNothing(s, w, r);
    WorkersComeByRegistration(s, a, w);
    assert Owed(Next(s, a), w, r) == Owed(s, w, r);
  }

  lemma WorkersComeByRegistration(s: System, a: Action, w: string)
    requires Inv(s) && Enabled(s, a) && w !in s.workers && w in Next(s, a).workers
    ensures a.Register? && w == a.id && Next(s, a).workers[w] == NewWorker(a.req)
  {
    ActorOnly(s, a);
  }

  ghost predicate AllBounded(s: System, r: Resource) {
    forall w :: w in s.workers ==> Bounded(s, w, Slot) && Bounded(s, w, r)
  }

  lemma BoundStep(s: System, a: Action, r: Resource)
    requires Inv(s) && Enabled(s, a) && AllBounded(s, r) && WeightsOk(s, r) && NoOverflow(s, a, r)
    ensures AllBounded(Next(s, a), r)
  {
    var s' := Next(s, a);
    forall w | w in s'.workers ensures Bounded(s', w, Slot) && Bounded(s', w, r) {
      if w in s.workers {
        LedgerNext(s, a, w, Slot);
        LedgerNext(s, a, w, r);
      } else {
        NewWorkerLedger(s, a, w, Slot);
        NewWorkerLedger(s, a, w, r);
      }
    }
  }

  /** In every interleaving the reservations held on a worker are never negative and never more
      than what is still owed; for slots always, for disk as long as no estimate overflowed. */
  lemma {:induction false} LedgerBound(states: seq<System>, acts: seq<Action>, n: nat, r: Resource)
    requires Run(states, acts) && n <= |acts| && OverflowFree(states, acts, n, r)
    ensures AllBounded(states[n], r) && WeightsOk(states[n], r)
    decreases n
  {
    if n > 0 {
      LedgerBound(states, acts, n - 1, r);
      Reachable(states, acts, n - 1);
      assert Moves(states, acts, n - 1);
      var s, a := states[n - 1], acts[n - 1];
      BoundStep(s, a, r);
      WeightsNext(s, a, r);
    }
  }

  lemma AmountsStep(s: System, a: Action)
    requires Enabled(s, a) && WeightsOk(s, Disk)
    ensures WeightsOk(Next(s, a), Disk) <==> NoOverflow(s, a, Disk)
  {
    if NoOverflow(s, a, Disk) {
      WeightsNext(s, a, Disk);
    } else {
      var s' := DoAssemblePick(s, a.c, a.pick);
      assert a.c in s'.calls && ReservedBy(s'.calls[a.c]) < 0;
    }
  }

  lemma AmountsAt(states: seq<System>, acts: seq<Action>, i: nat)
    requires Run(states, acts) && i < |acts| && WeightsOk(states[i], Disk)
    ensures WeightsOk(states[i + 1], Disk) <==> NoOverflow(states[i], acts[i], Disk)
  {
    assert Moves(states, acts, i);
    AmountsStep(states[i], acts[i]);
  }

  ghost predicate AmountsOk(s: System) {
    WeightsOk(s, Disk)
  }

  /** No negative amount is ever on record exactly when no negative estimate is ever reserved. */
  lemma {:induction false} AmountsExact(states: seq<System>, acts: seq<Action>, n: nat)
    requires Run(states, acts) && n <= |acts|
    ensures (forall i {:trigger AmountsOk(states[i])} :: 0 <= i <= n ==> AmountsOk(states[i]))
       <==> OverflowFree(states, acts, n, Disk)
    decreases n
  {
    if n > 0 {
      AmountsExact(states, acts, n - 1);
      assert AmountsOk(states[n - 1]) ==> (AmountsOk(states[n]) <==> NoOverflow(states[n - 1], acts[n - 1], Disk)) by {
        if AmountsOk(states[n - 1]) {
          AmountsAt(states, acts, n - 1);
        }
      }
      assert OverflowFree(states, acts, n, Disk) <==>
             OverflowFree(states, acts, n - 1, Disk) && NoOverflow(states[n - 1], acts[n - 1], Disk);
    } else {
      assert AmountsOk(states[0]);
    }
  }

  /** Nothing negative is on record, and what each worker holds is between zero and what it is owed. */
  ghost predicate DiskOk(s: System) {
    AmountsOk(s) && AllBounded(s, Disk)
  }

  /** The disk side of the ledger stays within its bounds exactly when no negative estimate is
      reserved. */
  lemma DiskBoundExact(states: seq<System>, acts: seq<Action>, n: nat)
    requires Run(states, acts) && n <= |acts|
    ensures (forall i {:trigger DiskOk(states[i])} :: 0 <= i <= n ==> DiskOk(states[i]))
       <==> OverflowFree(states, acts, n, Disk)
  {
    AmountsExact(states, acts, n);
    if OverflowFree(states, acts, n, Disk) {
      forall i | 0 <= i <= n ensures DiskOk(states[i]) {
        LedgerBound(states, acts, i, Disk);
      }
    }
    if forall i {:trigger DiskOk(states[i])} :: 0 <= i <= n ==> DiskOk(states[i]) {
      forall i | 0 <= i <= n ensures AmountsOk(states[i]) {
        assert DiskOk(states[i]);
      }
    }
  }

  ghost predicate AllBalanced(s: System, r: Resource) {
    forall w :: w in s.workers ==> Balanced(s, w, r)
  }

  /** The step releases nothing that was released before. */
  ghost predicate TakesOnce(s: System, a: Action, r: Resource) {
    forall w :: w in s.workers ==> !TakesTwice(s, a, w, r)
  }

  lemma BalanceStep(s: System, a: Action, r: Resource)
    requires Inv(s) && Enabled(s, a) && AllBalanced(s, r)
    requires AllBounded(s, r) && WeightsOk(s, r) && NoOverflow(s, a, r)
    ensures AllBalanced(Next(s, a), r) <==> TakesOnce(s, a, r)
  {
    forall w | w in s.workers ensures w in Next(s, a).workers && (Balanced(Next(s, a), w, r) <==> !TakesTwice(s, a, w, r)) {
      LedgerNext(s, a, w, r);
    }
    forall w | w in Next(s, a).workers && w !in s.workers ensures Balanced(Next(s, a), w, r) {
      NewWorkerLedger(s, a, w, r);
    }
  }

  /** What is held equals what is owed, for every worker in every state of the run, exactly when
      no release of the run takes something a second time. */
  lemma {:induction false} LedgerExact(states: seq<System>, acts: seq<Action>, n: nat, r: Resource)
    requires Run(states, acts) && n <= |acts| && OverflowFree(states, acts, n, r)
    ensures (forall i {:trigger AllBalanced(states[i], r)} :: 0 <= i <= n ==> AllBalanced(states[i], r))
       <==> (forall i {:trigger TakesOnce(states[i], acts[i], r)} :: 0 <= i < n ==> TakesOnce(states[i], acts[i], r))
    decreases n
  {
    if n > 0 {
      LedgerExact(states, acts, n - 1, r);
      BalanceAt(states, acts, n - 1, r);
    } else {
      assert AllBalanced(states[0], r);
    }
  }

  lemma BalanceAt(states: seq<System>, acts: seq<Action>, i: nat, r: Resource)
    requires Run(states, acts) && i < |acts| && OverflowFree(states, acts, i + 1, r)
    ensures AllBalanced(states[i], r) ==> (AllBalanced(states[i + 1], r) <==> TakesOnce(states[i], acts[i], r))
  {
    Reachable(states, acts, i);
    LedgerBound(states, acts, i, r);
    assert Moves(states, acts, i);
    if AllBalanced(states[i], r) {
      BalanceStep(states[i], acts[i], r);
    }
  }

  /** The start call of an assembly came back with an error before any report settled it. */
  predicate CleanStart(s: System, a: Action) {
    a.AssembleStartErrs? && At(s, a.c) && s.calls[a.c].AssembleNotifying? ==>
      s.calls[a.c].task in s.tables.tasks && Live(s.tables.tasks[s.calls[a.c].task])
  }

  ghost predicate CleanRun(states: seq<System>, acts: seq<Action>)
    requires |states| == |acts| + 1
  {
    forall i :: 0 <= i < |acts| ==> CleanStart(states[i], acts[i])
  }

  predicate SurplusCall(call: Call) {
    call.AssembleCancelling? && call.surplus
  }

  lemma NoSurplusNext(s: System, a: Action, d: nat)
    requires Enabled(s, a) && CleanStart(s, a) && d in Next(s, a).calls
    requires d in s.calls ==> !SurplusCall(s.calls[d])
    ensures !SurplusCall(Next(s, a).calls[d])
  {
    if Actor(a) != Some(d) {
      ActorOnly(s, a);
    }
  }

  lemma {:induction false} NoSurplus(states: seq<System>, acts: seq<Action>, n: nat)
    requires Run(states, acts) && CleanRun(states, acts) && n <= |acts|
    ensures forall d :: d in states[n].calls ==> !SurplusCall(states[n].calls[d])
    decreases n
  {
    if n > 0 {
      NoSurplus(states, acts, n - 1);
      assert Moves(states, acts, n - 1);
      forall d | d in states[n].calls ensures !SurplusCall(states[n].calls[d]) {
        NoSurplusNext(states[n - 1], acts[n - 1], d);
      }
    }
  }

  /** In clean-start runs the ledger is exact throughout. */
  lemma CleanRunsBalance(states: seq<System>, acts: seq<Action>, n: nat, r: Resource)
    requires Run(states, acts) && CleanRun(states, acts) && n <= |acts| && OverflowFree(states, acts, n, r)
    ensures AllBalanced(states[n], r)
  {
    forall i | 0 <= i < n ensures TakesOnce(states[i], acts[i], r) {
      NoSurplus(states, acts, i);
    }
    LedgerExact(states, acts, n, r);
  }

  /** The step is a release that is due: of a failed creation, of one that came too late, of a
      settled segment, or of an assembly. */
  predicate DueRelease(s: System, a: Action) {
    || a.CreateUndo? || a.SegmentRelease? || a.SettleRelease?
    || (a.CreateCommit? && At(s, a.c) && s.calls[a.c].Creating?
        && IdentityKey(s.calls[a.c].address, s.calls[a.c].video) in s.tables.byIdentity)
  }

  /** A due release pays off what its request owes and nothing else. */
  lemma ReleasePays(s: System, a: Action, w: string, r: Resource)
    requires Enabled(s, a) && DueRelease(s, a)
    ensures Owed(Next(s, a), w, r) == Owed(s, w, r) - CallWeight(s.calls[a.c], w, r)
    ensures Next(s, a).workers.Keys == s.workers.Keys
  {
    ActorOnly(s, a);
    PaidOff(s, a, w, r);
    OwedByCall(s, Next(s, a), a.c, Next(s, a).calls[a.c], w, r);
  }

  lemma PaidOff(s: System, a: Action, w: string, r: Resource)
    requires Enabled(s, a) && DueRelease(s, a)
    ensures a.c in Next(s, a).calls && CallWeight(Next(s, a).calls[a.c], w, r) == 0 && Next(s, a).tables == s.tables
  {
  }

  lemma ReleaseSubtracts(s: System, a: Action, w: string, r: Resource)
    requires Enabled(s, a) && DueRelease(s, a) && w in s.workers
    requires AllBalanced(s, r) && AllBalanced(Next(s, a), r)
    ensures w in Next(s, a).workers
    ensures Held(Next(s, a).workers[w], r) == Held(s.workers[w], r) - CallWeight(s.calls[a.c], w, r)
  {
    ReleasePays(s, a, w, r);
    assert Balanced(s, w, r) && Balanced(Next(s, a), w, r);
  }

  lemma ReleaseAt(states: seq<System>, acts: seq<Action>, n: nat, w: string, r: Resource)
    requires Run(states, acts) && n < |acts| && DueRelease(states[n], acts[n]) && w in states[n].workers
    requires AllBalanced(states[n], r) && AllBalanced(states[n + 1], r)
    ensures acts[n].c in states[n].calls && w in states[n + 1].workers
    ensures Held(states[n + 1].workers[w], r) == Held(states[n].workers[w], r) - CallWeight(states[n].calls[acts[n].c], w, r)
  {
    assert Moves(states, acts, n);
    ReleaseSubtracts(states[n], acts[n], w, r);
  }

  /** What a due release of a single worker is: one slot, and for an assembly its recorded disk. */
  lemma DueShare(states: seq<System>, acts: seq<Action>, n: nat, w: string, r: Resource)
    requires Run(states, acts) && CleanRun(states, acts) && n < |acts|
    requires (acts[n].SettleRelease? || acts[n].SegmentRelease?) && acts[n].c in states[n].calls
    ensures var call := states[n].calls[acts[n].c];
            && (acts[n].SettleRelease? ==> OwesRelease(call) && CallWeight(call, w, r) == Share(call.worker, call.disk, w, r))
            && (acts[n].SegmentRelease? ==> call.SegmentReleasing? && CallWeight(call, w, r) == Share(call.worker, 0, w, r))
  {
    assert Moves(states, acts, n);
    NoSurplus(states, acts, n);
  }

  /** In clean-start runs no clamp at zero ever fires: every due release is exactly the subtraction
      of what its request owes, one slot and the recorded disk for a single worker. */
  lemma ClampsIdle(states: seq<System>, acts: seq<Action>, n: nat, w: string, r: Resource)
    requires Run(states, acts) && CleanRun(states, acts) && n < |acts| && OverflowFree(states, acts, n + 1, r)
    requires DueRelease(states[n], acts[n]) && w in states[n].workers
    ensures acts[n].c in states[n].calls && w in states[n + 1].workers
    ensures Held(states[n + 1].workers[w], r) == Held(states[n].workers[w], r) - CallWeight(states[n].calls[acts[n].c], w, r)
    ensures acts[n].SettleRelease? ==>
              var call := states[n].calls[acts[n].c];
              OwesRelease(call) && CallWeight(call, w, r) == Share(call.worker, call.disk, w, r)
    ensures acts[n].SegmentRelease? ==>
              var call := states[n].calls[acts[n].c];
              call.SegmentReleasing? && CallWeight(call, w, r) == Share(call.worker, 0, w, r)
  {
    assert OverflowFree(states, acts, n, r);
    CleanRunsBalance(states, acts, n, r);
    CleanRunsBalance(states, acts, n + 1, r);
    ReleaseAt(states, acts, n, w, r);
    if acts[n].SettleRelease? || acts[n].SegmentRelease? {
      DueShare(states, acts, n, w, r);
    }
  }

  // ----- each job is assembled once -----

  /** The step completes the last segment of job `j`. */
  predicate LastCompletion(s: System, a: Action, j: string) {
    && a.SegmentCompletes?
    && Complete(s.tables, a.task, a.worker, a.report).Ok?
    && Complete(s.tables, a.task, a.worker, a.report).value.1
    && s.tables.tasks[a.task].job == j
  }

  /** The step runs startAssembleGIF for job `j`. */
  predicate StartsAssembly(s: System, a: Action, j: string) {
    a.AssembleSnapshot? && At(s, a.c) && s.calls[a.c].AssembleReady? && s.calls[a.c].job == j
  }

  ghost function LastCompletions(states: seq<System>, acts: seq<Action>, n: nat, j: string): nat
    requires |states| == |acts| + 1 && n <= |acts|
  {
    if n == 0 then 0
    else LastCompletions(states, acts, n - 1, j) + (if LastCompletion(states[n - 1], acts[n - 1], j) then 1 else 0)
  }

  ghost function AssemblyStarts(states: seq<System>, acts: seq<Action>, n: nat, j: string): nat
    requires |states| == |acts| + 1 && n <= |acts|
  {
    if n == 0 then 0
    else AssemblyStarts(states, acts, n - 1, j) + (if StartsAssembly(states[n - 1], acts[n - 1], j) then 1 else 0)
  }

  predicate Done(s: System, j: string) {
    j in s.tables.jobs && SegmentsDone(s.tables.tasks, s.tables.jobs[j])
  }

  /** A job none of whose tasks was written is as complete as it was. */
  lemma DoneElsewhere(tb: Tables, tb': Tables, o: string)
    requires TablesOk(tb) && o in tb.jobs && o in tb'.jobs && tb'.jobs[o] == tb.jobs[o]
    requires forall t :: t in tb.tasks && tb.tasks[t].job == o ==> t in tb'.tasks && tb'.tasks[t] == tb.tasks[t]
    ensures SegmentsDone(tb'.tasks, tb'.jobs[o]) == SegmentsDone(tb.tasks, tb.jobs[o])
  {
    assert JobOk(tb, o);
    var ids := tb.jobs[o].taskIDs[..tb.jobs[o].segmentCount];
    forall i | 0 <= i < |ids| ensures ids[i] in tb'.tasks && tb'.tasks[ids[i]] == tb.tasks[ids[i]] {
      assert ids[i] == tb.jobs[o].taskIDs[i];
    }
  }

  lemma DoneBySegment(s: System, a: Action, j: string)
    requires TablesOk(s.tables) && Enabled(s, a) && SegmentAction(a)
    ensures Done(Next(s, a), j) <==> Done(s, j) || LastCompletion(s, a, j)
    ensures !(Done(s, j) && LastCompletion(s, a, j))
  {
    var tb := s.tables;
    match a
    case SegmentAccepted(t, w) =>
      if Accept(tb, t, w).Ok? {
        AcceptKeeps(tb, t, w);
        DoneBySettling(s, DoSegmentAccepted(s, t, w), t, j);
      }
    case SegmentCompletes(c, t, w, report) => DoneByCompletion(s, c, t, w, report, j);
    case SegmentFails(c, t, w) =>
      if Jobs.FailSegment(tb, t, w).Ok? {
        FailSegmentKeeps(tb, t, w);
        DoneBySettling(s, DoSegmentFails(s, c, t, w), t, j);
      }
    case SegmentRelease(_) =>
  }

  lemma DoneByCompletion(s: System, c: nat, t: string, w: string, report: SegmentReport, j: string)
    requires TablesOk(s.tables)
    ensures var a := SegmentCompletes(c, t, w, report);
            && (Done(DoSegmentCompletes(s, c, t, w, report), j) <==> Done(s, j) || LastCompletion(s, a, j))
            && !(Done(s, j) && LastCompletion(s, a, j))
  {
    if Complete(s.tables, t, w, report).Ok? {
      CompleteKeeps(s.tables, t, w, report);
      DoneBySettling(s, DoSegmentCompletes(s, c, t, w, report), t, j);
    }
  }

  /** A step that writes a live segment and its job leaves other jobs as complete as they were. */
  lemma DoneBySettling(s: System, s': System, t: string, j: string)
    requires TablesOk(s.tables) && t in s.tables.tasks && s.tables.tasks[t].kind == ProcessSegment
    requires Live(s.tables.tasks[t])
    requires OnlyTouches(s.tables, s'.tables, s.tables.tasks[t].job)
    ensures !Done(s, s.tables.tasks[t].job)
    ensures j != s.tables.tasks[t].job ==> Done(s', j) == Done(s, j)
  {
    var i := SegmentPosition(s.tables, t);
    var job := s.tables.jobs[s.tables.tasks[t].job];
    assert job.taskIDs[..job.segmentCount][i] == t;
    if j != s.tables.tasks[t].job {
      DoneUntouched(s, s', s.tables.tasks[t].job, j);
    }
  }

  lemma DoneByCreate(s: System, a: Action, j: string)
    requires Inv(s) && Enabled(s, a) && CreateAction(a)
    ensures Done(Next(s, a), j) <==> Done(s, j)
  {
    var tb, tb' := s.tables, Next(s, a).tables;
    if tb' != tb {
      var call := s.calls[a.c];
      assert CallOk(s.workers, tb, call);
      var built := BuiltTasks(call.job, call.plan, call.placed);
      InsertKeeps(tb, call.job, BuiltJob(call), built);
      InsertTasksIs(tb.tasks, built);
      if j in tb.jobs {
        DoneElsewhere(tb, tb', j);
      }
    }
  }

  /** From the moment all segments are done nothing undoes it. */
  lemma DoneStays(s: System, a: Action, j: string)
    requires Inv(s) && Enabled(s, a) && Done(s, j)
    ensures Done(Next(s, a), j)
  {
    NextInv(s, a);
    RefsStable(s.tables, Next(s, a).tables, j);
  }

  /** Assembly never completes a segment. */
  lemma DoneByAssembly(s: System, a: Action, j: string)
    requires Inv(s) && Enabled(s, a) && (AssembleAction(a) || ReportAction(a) || a.SettleRelease?)
    ensures Done(Next(s, a), j) <==> Done(s, j)
  {
    if Done(s, j) {
      DoneStays(s, a, j);
    } else {
      AssemblyTouchesDone(s, a, j);
    }
  }

  lemma AssemblyTouchesDone(s: System, a: Action, j: string)
    requires Inv(s) && Enabled(s, a) && (AssembleAction(a) || ReportAction(a) || a.SettleRelease?) && !Done(s, j)
    ensures !Done(Next(s, a), j)
  {
    if Next(s, a).tables != s.tables {
      var o := if a.ReportFailure? then a.job else s.calls[a.c].job;
      AssembledJobDone(s, a, o);
      DoneUntouched(s, Next(s, a), o, j);
    }
  }

  lemma DoneUntouched(s: System, s': System, o: string, j: string)
    requires TablesOk(s.tables) && OnlyTouches(s.tables, s'.tables, o) && j != o
    ensures Done(s', j) == Done(s, j)
  {
    if j in s.tables.jobs {
      DoneElsewhere(s.tables, s'.tables, j);
    }
  }

  /** The job an assembly step writes has all its segments done, and only its tasks are written. */
  lemma AssembledJobDone(s: System, a: Action, o: string)
    requires Inv(s) && Enabled(s, a) && (AssembleAction(a) || ReportAction(a)) && Next(s, a).tables != s.tables
    requires o == if a.ReportFailure? then a.job else s.calls[a.c].job
    ensures Done(s, o) && OnlyTouches(s.tables, Next(s, a).tables, o)
  {
    if a.AssembleStarted? || a.AssembleStartErrs? {
      RepliedJobDone(s, a.c);
    } else if ReportAction(a) {
      ReportedJobDone(s, a, o);
    } else if a.AssembleGiveUp? {
      GivenUpJobDone(s, a.c);
    } else if a.AssembleRecord? {
      RecordedJobDone(s, a.c, a.task);
    }
  }

  lemma GivenUpJobDone(s: System, c: nat)
    requires Inv(s) && At(s, c) && s.calls[c].AssembleGivingUp?
    ensures Done(s, s.calls[c].job) && OnlyTouches(s.tables, DoAssembleGiveUp(s, c).tables, s.calls[c].job)
  {
    assert CallOk(s.workers, s.tables, s.calls[c]);
    assert JobOk(s.tables, s.calls[c].job);
  }

  lemma RecordedJobDone(s: System, c: nat, task: string)
    requires Inv(s) && At(s, c) && s.calls[c].AssembleReserved? && task !in s.tables.tasks
    ensures Done(s, s.calls[c].job) && OnlyTouches(s.tables, DoAssembleRecord(s, c, task).tables, s.calls[c].job)
  {
    assert CallOk(s.workers, s.tables, s.calls[c]);
    assert JobOk(s.tables, s.calls[c].job);
  }

  lemma RepliedJobDone(s: System, c: nat)
    requires Inv(s) && At(s, c) && s.calls[c].AssembleNotifying?
    ensures var o := s.calls[c].job;
            && Done(s, o)
            && OnlyTouches(s.tables, DoAssembleStarted(s, c).tables, o)
            && OnlyTouches(s.tables, DoAssembleStartErrs(s, c).tables, o)
  {
    assert CallOk(s.workers, s.tables, s.calls[c]);
    AssemblePosition(s.tables, s.calls[c].task);
    assert JobOk(s.tables, s.calls[c].job);
  }

  lemma ReportedJobDone(s: System, a: Action, o: string)
    requires TablesOk(s.tables) && Enabled(s, a) && ReportAction(a) && Next(s, a).tables != s.tables
    requires o == if a.ReportFailure? then a.job else s.calls[a.c].job
    ensures Done(s, o) && OnlyTouches(s.tables, Next(s, a).tables, o)
  {
    if a.ReportFailure? {
      TargetDone(s, o, a.worker);
    } else {
      TargetDone(s, o, s.calls[a.c].worker);
    }
  }

  lemma TargetDone(s: System, o: string, worker: string)
    requires TablesOk(s.tables)
    ensures AssembleTarget(s.tables, o, worker).Ok? ==>
              && Done(s, o)
              && AssembleTarget(s.tables, o, worker).value in s.tables.tasks
              && s.tables.tasks[AssembleTarget(s.tables, o, worker).value].job == o
  {
    TargetIs(s.tables, o, worker);
    assert o in s.tables.jobs ==> JobOk(s.tables, o);
  }

  /** Only job `o` and its tasks may differ. */
  ghost predicate OnlyTouches(tb: Tables, tb': Tables, o: string) {
    && tb'.jobs.Keys == tb.jobs.Keys
    && (forall j :: j in tb.jobs && j != o ==> tb'.jobs[j] == tb.jobs[j])
    && (forall t :: t in tb.tasks && tb.tasks[t].job != o ==> t in tb'.tasks && tb'.tasks[t] == tb.tasks[t])
  }

  lemma DoneNext(s: System, a: Action, j: string)
    requires Inv(s) && Enabled(s, a)
    ensures Done(Next(s, a), j) <==> Done(s, j) || LastCompletion(s, a, j)
    ensures !(Done(s, j) && LastCompletion(s, a, j))
  {
    if RegistryAction(a) {
      assert Next(s, a).tables == s.tables;
    } else if SegmentAction(a) {
      DoneBySegment(s, a, j);
    } else if CreateAction(a) {
      DoneByCreate(s, a, j);
    } else {
      DoneByAssembly(s, a, j);
    }
  }

  /** However completions interleave, exactly one of them is the last of its job: one if all
      segments are done by now, none otherwise. */
  lemma {:induction false} ExactlyOneLast(states: seq<System>, acts: seq<Action>, n: nat, j: string)
    requires Run(states, acts) && n <= |acts|
    ensures LastCompletions(states, acts, n, j) == if Done(states[n], j) then 1 else 0
    decreases n
  {
    if n > 0 {
      ExactlyOneLast(states, acts, n - 1, j);
      Reachable(states, acts, n - 1);
      assert Moves(states, acts, n - 1);
      DoneNext(states[n - 1], acts[n - 1], j);
    }
  }

  /** The call has completed the last segment of `j` and has not yet begun to assemble it. */
  predicate Waiting(call: Call, j: string) {
    (call.SegmentReleasing? && call.last && call.job == j) || (call.AssembleReady? && call.job == j)
  }

  ghost predicate SomeoneWaits(s: System, j: string) {
    exists c :: c in s.calls && Waiting(s.calls[c], j)
  }

  lemma OneWaits(s: System, c: nat, d: nat, j: string)
    requires Inv(s) && c in s.calls && d in s.calls && Waiting(s.calls[c], j) && Waiting(s.calls[d], j)
    ensures c == d
  {
  }

  /** Only a last completion makes a call wait, and only starting the assembly ends the wait. */
  lemma WaitingNext(s: System, a: Action, j: string)
    requires Inv(s) && Enabled(s, a)
    ensures LastCompletion(s, a, j) ==> !SomeoneWaits(s, j) && SomeoneWaits(Next(s, a), j)
    ensures StartsAssembly(s, a, j) ==> SomeoneWaits(s, j) && !SomeoneWaits(Next(s, a), j)
    ensures !LastCompletion(s, a, j) && !StartsAssembly(s, a, j) ==> (SomeoneWaits(s, j) <==> SomeoneWaits(Next(s, a), j))
  {
    NextInv(s, a);
    ActorOnly(s, a);
    if Actor(a).Some? {
      ActorWaits(s, a, j);
      WaitersAround(s, Next(s, a), a.c, j);
    }
  }

  /** At most one call waits, so whether someone waits changes just when a call's own wait does. */
  lemma WaitersAround(s: System, s': System, c: nat, j: string)
    requires Inv(s) && Inv(s') && c in s'.calls && s'.calls == s.calls[c := s'.calls[c]]
    ensures var was, now := c in s.calls && Waiting(s.calls[c], j), Waiting(s'.calls[c], j);
            && (was && !now ==> SomeoneWaits(s, j) && !SomeoneWaits(s', j))
            && (!was && now ==> !SomeoneWaits(s, j) && SomeoneWaits(s', j))
            && ((was <==> now) ==> (SomeoneWaits(s, j) <==> SomeoneWaits(s', j)))
  {
    forall d | d in s.calls && d != c && Waiting(s.calls[d], j)
      ensures !(c in s.calls && Waiting(s.calls[c], j)) && !Waiting(s'.calls[c], j)
    {
      assert s'.calls[d] == s.calls[d];
      if c in s.calls && Waiting(s.calls[c], j) { OneWaits(s, c, d, j); }
      if Waiting(s'.calls[c], j) { OneWaits(s', c, d, j); }
    }
    assert forall d :: d in s'.calls && d != c ==> d in s.calls && s.calls[d] == s'.calls[d];
  }

  /** How a step changes whether its own call waits. */
  ghost predicate ActorWait(s: System, a: Action, j: string)
    requires Enabled(s, a) && Actor(a).Some?
  {
    && a.c in Next(s, a).calls
    && var was, now := a.c in s.calls && Waiting(s.calls[a.c], j), Waiting(Next(s, a).calls[a.c], j);
    && (LastCompletion(s, a, j) ==> a.c !in s.calls && now)
    && (StartsAssembly(s, a, j) ==> was && !now)
    && (!LastCompletion(s, a, j) && !StartsAssembly(s, a, j) ==> (was <==> now))
  }

  lemma CreateWaits(s: System, a: Action, j: string)
    requires Enabled(s, a) && CreateAction(a)
    ensures ActorWait(s, a, j)
  {
  }

  lemma SegmentWaits(s: System, a: Action, j: string)
    requires Enabled(s, a) && SegmentAction(a) && !a.SegmentAccepted?
    ensures ActorWait(s, a, j)
  {
  }

  lemma ReportWaits(s: System, a: Action, j: string)
    requires Enabled(s, a) && ReportAction(a)
    ensures ActorWait(s, a, j)
  {
  }

  lemma AssembleWaits(s: System, a: Action, j: string)
    requires Enabled(s, a) && (AssembleAction(a) || a.SettleRelease?)
    ensures ActorWait(s, a, j)
  {
  }

  lemma ActorWaits(s: System, a: Action, j: string)
    requires Enabled(s, a) && Actor(a).Some?
    ensures ActorWait(s, a, j)
  {
    if CreateAction(a) {
      CreateWaits(s, a, j);
    } else if SegmentAction(a) {
      SegmentWaits(s, a, j);
    } else if ReportAction(a) {
      ReportWaits(s, a, j);
    } else {
      AssembleWaits(s, a, j);
    }
  }

  lemma {:induction false} StartsAndWaits(states: seq<System>, acts: seq<Action>, n: nat, j: string)
    requires Run(states, acts) && n <= |acts|
    ensures AssemblyStarts(states, acts, n, j) + (if SomeoneWaits(states[n], j) then 1 else 0)
         == LastCompletions(states, acts, n, j)
    decreases n
  {
    if n > 0 {
      StartsAndWaits(states, acts, n - 1, j);
      Reachable(states, acts, n - 1);
      assert Moves(states, acts, n - 1);
      WaitingNext(states[n - 1], acts[n - 1], j);
    }
  }

  /** Assembly of a job is started at most once in any run. */
  lemma AssembleOnce(states: seq<System>, acts: seq<Action>, j: string)
    requires Run(states, acts)
    ensures AssemblyStarts(states, acts, |acts|, j) <= 1
  {
    ExactlyOneLast(states, acts, |acts|, j);
    StartsAndWaits(states, acts, |acts|, j);
  }

  /** No job ever owns two assemble tasks. */
  lemma OneAssembleTask(states: seq<System>, acts: seq<Action>, n: nat, t: string, u: string)
    requires Run(states, acts) && n <= |acts|
    requires t in states[n].tables.tasks && u in states[n].tables.tasks
    requires states[n].tables.tasks[t].kind == AssembleGif && states[n].tables.tasks[u].kind == AssembleGif
    requires states[n].tables.tasks[t].job == states[n].tables.tasks[u].job
    ensures t == u
  {
    Reachable(states, acts, n);
    AssemblePosition(states[n].tables, t);
    AssemblePosition(states[n].tables, u);
  }
}
