/** What users of Entry rely on, stated over whole runs: stability of a finished job's segments,
    idempotent creation and the order of the assemble request. */
module EntryTheorems {
  import opened Wrappers
  import opened Sums
  import opened Workers
  import opened Jobs
  import opened Entry
  import opened EntryInvariant
  import opened EntryLedger
  import opened EntryRuns
  import DiskEstimate

  // ----- stability under interference -----

  /** From the last segment completion until the assemble task is recorded, no other request
      changes the job or any of its segment tasks. */
  lemma {:induction false} StableWhileStarting(states: seq<System>, acts: seq<Action>, i: nat, n: nat, c: nat,
                                               j: string)
    requires Run(states, acts) && i <= n <= |acts|
    requires forall m :: i <= m <= n ==> c in states[m].calls && Starting(states[m].calls[c]) == Some(j)
    ensures Inv(states[i]) && Inv(states[n])
    ensures j in states[i].tables.jobs && j in states[n].tables.jobs
    ensures states[n].tables.jobs[j] == states[i].tables.jobs[j]
    ensures forall t :: t in states[i].tables.jobs[j].taskIDs ==>
              t in states[i].tables.tasks && t in states[n].tables.tasks
              && states[n].tables.tasks[t] == states[i].tables.tasks[t]
    decreases n
  {
    Reachable(states, acts, i);
    Reachable(states, acts, n);
    StarterPending(states[n], c, j);
    if i < n {
      StableWhileStarting(states, acts, i, n - 1, c, j);
      assert Moves(states, acts, n - 1);
      StableStep(states[n - 1], acts[n - 1], c, j);
    }
  }

  lemma StarterPending(s: System, c: nat, j: string)
    requires Inv(s) && c in s.calls && Starting(s.calls[c]) == Some(j)
    ensures Pending(s.tables, j) && forall t :: t in s.tables.jobs[j].taskIDs ==> t in s.tables.tasks
  {
    assert CallOk(s.workers, s.tables, s.calls[c]);
    assert JobOk(s.tables, j);
  }

  lemma StableStep(s: System, a: Action, c: nat, j: string)
    requires Inv(s) && Enabled(s, a) && c in s.calls && Starting(s.calls[c]) == Some(j)
    requires c in Next(s, a).calls && Starting(Next(s, a).calls[c]) == Some(j)
    ensures j in s.tables.jobs && j in Next(s, a).tables.jobs && Next(s, a).tables.jobs[j] == s.tables.jobs[j]
    ensures forall t :: t in s.tables.jobs[j].taskIDs ==>
              t in s.tables.tasks && t in Next(s, a).tables.tasks && Next(s, a).tables.tasks[t] == s.tables.tasks[t]
  {
    NextInv(s, a);
    StarterPending(s, c, j);
    StarterPending(Next(s, a), c, j);
    SettledTasksStay(s.tables, Next(s, a).tables, j);
  }

  lemma SettledTasksStay(tb: Tables, tb': Tables, j: string)
    requires TablesOk(tb) && Pending(tb, j) && Evolves(tb, tb')
    ensures forall t :: t in tb.jobs[j].taskIDs ==> t in tb.tasks && t in tb'.tasks && tb'.tasks[t] == tb.tasks[t]
  {
    assert JobOk(tb, j);
    var ids := tb.jobs[j].taskIDs;
    assert ids[..tb.jobs[j].segmentCount] == ids;
    forall t | t in ids ensures t in tb.tasks && t in tb'.tasks && tb'.tasks[t] == tb.tasks[t] {
      var i :| 0 <= i < |ids| && ids[i] == t;
      assert TaskKept(tb, tb', t);
    }
  }

  /** The re-check before an assemble task is recorded never fails, and the request sent to the
      assemble worker describes the segments exactly as they are recorded. */
  lemma RequestExact(states: seq<System>, acts: seq<Action>, n: nat, c: nat)
    requires Run(states, acts) && n <= |acts| && c in states[n].calls
    ensures Inv(states[n])
    ensures !states[n].calls[c].AssembleStale?
    ensures states[n].calls[c].AssembleNotifying? ==>
              var call := states[n].calls[c];
              && call.job in states[n].tables.jobs
              && call.segments == SegmentRefs(states[n].tables, call.job)
  {
    Reachable(states, acts, n);
    assert CallOk(states[n].workers, states[n].tables, states[n].calls[c]);
  }

  // ----- idempotent creation -----

  /** Identity keys of different (address, video) pairs differ when addresses contain no NUL. */
  lemma {:induction false} IdentityKeyInjective(a: string, v: string, a': string, v': string)
    requires '\0' !in a && '\0' !in a' && IdentityKey(a, v) == IdentityKey(a', v')
    ensures a == a' && v == v'
  {
    var k := IdentityKey(a, v);
    assert k[|a|] == '\0' && k[|a'|] == '\0';
    assert forall i :: 0 <= i < |a| ==> k[i] == a[i];
    assert forall i :: 0 <= i < |a'| ==> k[i] == a'[i];
    assert |a| == |a'|;
    assert a == k[..|a|] && a' == k[..|a'|];
    assert v == k[|a| + 1..] && v' == k[|a'| + 1..];
  }

  /** Jobs and identity keys are in one-to-one correspondence. */
  lemma JobsAndKeys(states: seq<System>, acts: seq<Action>, n: nat)
    requires Run(states, acts) && n <= |acts|
    ensures var tb := states[n].tables;
            && (forall k :: k in tb.byIdentity ==> tb.byIdentity[k] in tb.jobs && tb.jobs[tb.byIdentity[k]].identity == k)
            && (forall j :: j in tb.jobs ==> tb.jobs[j].identity in tb.byIdentity && tb.byIdentity[tb.jobs[j].identity] == j)
  {
    Reachable(states, acts, n);
    forall j | j in states[n].tables.jobs ensures states[n].tables.jobs[j].identity in states[n].tables.byIdentity
                 && states[n].tables.byIdentity[states[n].tables.jobs[j].identity] == j {
      assert JobOk(states[n].tables, j);
    }
  }

  /** The job id a finished creation answered, with the key it was asked for. */
  function Answered(call: Call): Option<(string, string)> {
    match call
    case Finished(Created(key, job)) => Some((key, job))
    case Finished(Existing(key, job)) => Some((key, job))
    case _ => None
  }

  /** Any two creations for the same key that answered a job id answered the same one, however
      they raced and whenever each of them finished. */
  lemma SameKeySameJob(states: seq<System>, acts: seq<Action>, i: nat, c: nat, n: nat, d: nat)
    requires Run(states, acts) && i <= n <= |acts|
    requires c in states[i].calls && d in states[n].calls
    requires Answered(states[i].calls[c]).Some? && Answered(states[n].calls[d]).Some?
    requires Answered(states[i].calls[c]).value.0 == Answered(states[n].calls[d]).value.0
    ensures Answered(states[i].calls[c]) == Answered(states[n].calls[d])
  {
    Reachable(states, acts, i);
    Reachable(states, acts, n);
    RunEvolves(states, acts, i, n);
    assert CallOk(states[i].workers, states[i].tables, states[i].calls[c]);
    assert CallOk(states[n].workers, states[n].tables, states[n].calls[d]);
    var key := Answered(states[i].calls[c]).value.0;
    assert key in states[i].tables.byIdentity;
  }

  /** A creation that finds its key recorded answers the recorded job at once and holds nothing. */
  lemma KnownKeyAnswers(states: seq<System>, acts: seq<Action>, m: nat, c: nat, w: string, r: Resource)
    requires Run(states, acts) && m < |acts| && acts[m].CreateFind? && acts[m].c == c
    requires c in states[m].calls && states[m].calls[c].CreateChecked?
    requires IdentityKey(states[m].calls[c].address, states[m].calls[c].video) in states[m].tables.byIdentity
    ensures c in states[m + 1].calls && states[m + 1].workers == states[m].workers && states[m + 1].tables == states[m].tables
    ensures var key := IdentityKey(states[m].calls[c].address, states[m].calls[c].video);
            && Answered(states[m + 1].calls[c]) == Some((key, states[m].tables.byIdentity[key]))
            && CallWeight(states[m + 1].calls[c], w, r) == 0
  {
    Reachable(states, acts, m);
    assert Moves(states, acts, m);
    var key := IdentityKey(states[m].calls[c].address, states[m].calls[c].video);
    assert states[m].tables.byIdentity[key] in states[m].tables.jobs;
  }

  /** A creation step that changes the job tables is the one that answers "created". */
  lemma OnlyCreatedWrites(s: System, a: Action)
    requires Enabled(s, a) && CreateAction(a) && Next(s, a).tables != s.tables
    ensures a.c in Next(s, a).calls && Next(s, a).calls[a.c].Finished? && Next(s, a).calls[a.c].answer.Created?
  {
  }

  function HeldAt(s: System, w: string, r: Resource): int {
    if w in s.workers then Held(s.workers[w], r) else 0
  }

  /** What the steps of request `c` did to worker `w` among the first `n` steps. */
  ghost function Net(states: seq<System>, acts: seq<Action>, n: nat, c: nat, w: string, r: Resource): int
    requires |states| == |acts| + 1 && n <= |acts|
  {
    if n == 0 then 0
    else Net(states, acts, n - 1, c, w, r)
         + (if Actor(acts[n - 1]) == Some(c) then HeldAt(states[n], w, r) - HeldAt(states[n - 1], w, r) else 0)
  }

  /** A request that came in as CreateJob and has not recorded a job. */
  predicate CreatingCall(call: Call) {
    call.CreateChecked? || call.Creating? || call.CreateUndoing?
    || (call.Finished? && (call.answer.Existing? || call.answer.Refused?))
  }

  /** A creation's step changes the reservations of a balanced ledger by exactly what the request
      itself then holds more. */
  lemma CreateStepNet(s: System, a: Action, w: string, r: Resource)
    requires Inv(s) && Enabled(s, a) && CreateAction(a) && Next(s, a).tables == s.tables
    requires AllBalanced(s, r) && AllBalanced(Next(s, a), r) && Inv(Next(s, a))
    ensures a.c in Next(s, a).calls
    ensures HeldAt(Next(s, a), w, r) - HeldAt(s, w, r) ==
            HeldBy(Next(s, a), a.c, w, r) - HeldBy(s, a.c, w, r)
  {
    CreateOwedStep(s, a, w, r);
    HeldIsOwed(s, w, r);
    HeldIsOwed(Next(s, a), w, r);
  }

  lemma CreateOwedStep(s: System, a: Action, w: string, r: Resource)
    requires Enabled(s, a) && CreateAction(a) && Next(s, a).tables == s.tables
    ensures a.c in Next(s, a).calls
    ensures Owed(Next(s, a), w, r) - Owed(s, w, r) == HeldBy(Next(s, a), a.c, w, r) - HeldBy(s, a.c, w, r)
  {
    CreateCalls(s, a);
    OwedByCall(s, Next(s, a), a.c, Next(s, a).calls[a.c], w, r);
  }

  lemma HeldIsOwed(s: System, w: string, r: Resource)
    requires Inv(s) && AllBalanced(s, r)
    ensures HeldAt(s, w, r) == Owed(s, w, r)
  {
    if w !in s.workers {
      UnknownOwedNothing(s, w, r);
    }
  }

  lemma ActsOnCreating(s: System, a: Action)
    requires Enabled(s, a) && Actor(a).Some? && a.c in s.calls && CreatingCall(s.calls[a.c])
    ensures CreateAction(a) && !a.CreateBegin?
  {
  }

  ghost function HeldBy(s: System, c: nat, w: string, r: Resource): int {
    if c in s.calls then CallWeight(s.calls[c], w, r) else 0
  }

  /** Request `c`, if it is there, has recorded no job, in a balanced state. */
  ghost predicate CreatingIn(s: System, c: nat, r: Resource) {
    AllBalanced(s, r) && (c in s.calls ==> CreatingCall(s.calls[c]))
  }

  /** A CreateJob request holds, at any moment, exactly the net of what its own steps did. */
  lemma {:induction false} NetIsHeld(states: seq<System>, acts: seq<Action>, n: nat, c: nat, w: string, r: Resource)
    requires Run(states, acts) && n <= |acts|
    requires forall i {:trigger CreatingIn(states[i], c, r)} :: 0 <= i <= n ==> CreatingIn(states[i], c, r)
    ensures Net(states, acts, n, c, w, r) == HeldBy(states[n], c, w, r)
    decreases n
  {
    if n > 0 {
      assert CreatingIn(states[n - 1], c, r) && CreatingIn(states[n], c, r);
      NetIsHeld(states, acts, n - 1, c, w, r);
      NetAt(states, acts, n - 1, c, w, r);
    }
  }

  lemma NetAt(states: seq<System>, acts: seq<Action>, i: nat, c: nat, w: string, r: Resource)
    requires Run(states, acts) && i < |acts| && CreatingIn(states[i], c, r) && CreatingIn(states[i + 1], c, r)
    ensures Net(states, acts, i + 1, c, w, r) - Net(states, acts, i, c, w, r) ==
            HeldBy(states[i + 1], c, w, r) - HeldBy(states[i], c, w, r)
  {
    Reachable(states, acts, i);
    assert Moves(states, acts, i);
    NetStep(states[i], acts[i], c, w, r);
  }

  lemma NetStep(s: System, a: Action, c: nat, w: string, r: Resource)
    requires Inv(s) && Enabled(s, a) && AllBalanced(s, r) && AllBalanced(Next(s, a), r)
    requires c in s.calls ==> CreatingCall(s.calls[c])
    requires c in Next(s, a).calls ==> CreatingCall(Next(s, a).calls[c])
    ensures (if Actor(a) == Some(c) then HeldAt(Next(s, a), w, r) - HeldAt(s, w, r) else 0) ==
            HeldBy(Next(s, a), c, w, r) - HeldBy(s, c, w, r)
  {
    if Actor(a) == Some(c) {
      ActorOnly(s, a);
      CreatingStep(s, a);
      if CreateAction(a) {
        NextInv(s, a);
        CreateStepNet(s, a, w, r);
      }
    } else {
      ActorOnly(s, a);
    }
  }

  /** A step whose request records no job writes no table, and unless it is a step of CreateJob
      it is a refusal on arrival, which does nothing at all. */
  lemma CreatingStep(s: System, a: Action)
    requires Inv(s) && Enabled(s, a) && Actor(a).Some?
    requires a.c in s.calls ==> CreatingCall(s.calls[a.c])
    requires a.c in Next(s, a).calls && CreatingCall(Next(s, a).calls[a.c])
    ensures Next(s, a).tables == s.tables
    ensures !CreateAction(a) ==> a.c !in s.calls && Next(s, a).calls[a.c].Finished? && Next(s, a).workers == s.workers
  {
    if a.c in s.calls {
      ActsOnCreating(s, a);
    } else if !CreateAction(a) {
      RefusedOnArrival(s, a);
    }
    if CreateAction(a) && Next(s, a).tables != s.tables {
      OnlyCreatedWrites(s, a);
    }
  }

  lemma RefusedOnArrival(s: System, a: Action)
    requires Enabled(s, a) && Actor(a).Some? && a.c !in s.calls && !CreateAction(a)
    requires a.c in Next(s, a).calls && CreatingCall(Next(s, a).calls[a.c])
    ensures Next(s, a).tables == s.tables && Next(s, a).workers == s.workers && Next(s, a).calls[a.c].Finished?
  {
  }

  predicate CreatedCall(call: Call) {
    call.Finished? && call.answer.Created?
  }

  lemma CreateLifeStep(s: System, a: Action, c: nat)
    requires Inv(s) && Enabled(s, a) && c in s.calls && (CreatingCall(s.calls[c]) || CreatedCall(s.calls[c]))
    ensures c in Next(s, a).calls && (CreatingCall(Next(s, a).calls[c]) || CreatedCall(Next(s, a).calls[c]))
    ensures CreatedCall(s.calls[c]) ==> CreatedCall(Next(s, a).calls[c])
  {
    if Actor(a) != Some(c) {
      ActorOnly(s, a);
    } else if CreatingCall(s.calls[c]) {
      ActsOnCreating(s, a);
    }
  }

  lemma {:induction false} CreateLife(states: seq<System>, acts: seq<Action>, b: nat, n: nat, c: nat)
    requires Run(states, acts) && b < n <= |acts| && acts[b].CreateBegin? && acts[b].c == c
    ensures c in states[n].calls && (CreatingCall(states[n].calls[c]) || CreatedCall(states[n].calls[c]))
    ensures !CreatedCall(states[n].calls[c]) ==>
              forall i :: b < i <= n ==> c in states[i].calls && CreatingCall(states[i].calls[c])
    decreases n
  {
    assert Moves(states, acts, n - 1);
    if b < n - 1 {
      CreateLife(states, acts, b, n - 1, c);
      Reachable(states, acts, n - 1);
      CreateLifeStep(states[n - 1], acts[n - 1], c);
    }
  }

  lemma {:induction false} NotYetThere(states: seq<System>, acts: seq<Action>, i: nat, b: nat, c: nat)
    requires Run(states, acts) && i <= b <= |acts| && c !in states[b].calls
    ensures c !in states[i].calls
    decreases b - i
  {
    if i < b {
      NotYetThere(states, acts, i + 1, b, c);
      assert Moves(states, acts, i);
      CallsStay(states[i], acts[i], c);
    }
  }

  lemma CallsStay(s: System, a: Action, c: nat)
    requires Enabled(s, a)
    ensures c in s.calls ==> c in Next(s, a).calls
  {
  }

  /** A CreateJob request that ends without creating a job has, by its own steps, changed no
      worker's reservations in the end, however its steps were interleaved with others. */
  lemma UncreatedNetsZero(states: seq<System>, acts: seq<Action>, b: nat, n: nat, c: nat, w: string, r: Resource)
    requires Run(states, acts) && b < n <= |acts| && acts[b].CreateBegin? && acts[b].c == c
    requires forall i :: 0 <= i <= n ==> AllBalanced(states[i], r)
    requires c in states[n].calls && states[n].calls[c].Finished? && !states[n].calls[c].answer.Created?
    ensures Net(states, acts, n, c, w, r) == 0
  {
    CreateLife(states, acts, b, n, c);
    assert Moves(states, acts, b);
    forall i | 0 <= i <= n ensures CreatingIn(states[i], c, r) {
      if i <= b {
        NotYetThere(states, acts, i, b, c);
      }
    }
    NetIsHeld(states, acts, n, c, w, r);
  }

  // ----- order of the assemble request -----

  /** The assemble request lists exactly the planned segments, in plan order, each with the task
      id it was given and the worker it was assigned to, in whatever order they completed. */
  lemma RequestInPlanOrder(states: seq<System>, acts: seq<Action>, i: nat, n: nat, c: nat, d: nat)
    requires Run(states, acts) && i < n <= |acts|
    requires acts[i] == CreateCommit(c) && c in states[i].calls && states[i].calls[c].Creating?
    requires c in states[i + 1].calls && CreatedCall(states[i + 1].calls[c])
    requires d in states[n].calls && states[n].calls[d].AssembleNotifying?
    requires states[n].calls[d].job == states[i].calls[c].job
    ensures var made, segments := states[i].calls[c], states[n].calls[d].segments;
            && |segments| == |made.plan| == |made.placed|
            && forall k :: 0 <= k < |segments| ==>
                 && segments[k].segmentIndex == made.plan[k].segmentIndex
                 && segments[k].task == made.placed[k].id
                 && segments[k].worker == made.placed[k].worker
                 && segments[k].address == made.placed[k].address
  {
    var made := states[i].calls[c];
    var j := made.job;
    var tb, tb' := states[i + 1].tables, states[n].tables;
    CommitRecords(states, acts, i, c);
    RunEvolves(states, acts, i + 1, n);
    RequestExact(states, acts, n, d);
    assert JobKept(tb, tb', j) && JobOk(tb', j);
    var segments := states[n].calls[d].segments;
    forall k | 0 <= k < |made.placed|
      ensures segments[k].segmentIndex == made.plan[k].segmentIndex && segments[k].task == made.placed[k].id
      ensures segments[k].worker == made.placed[k].worker && segments[k].address == made.placed[k].address
    {
      assert tb'.jobs[j].taskIDs[k] == made.placed[k].id;
      assert TaskKept(tb, tb', made.placed[k].id);
    }
  }

  /** What a commit that creates a job records. */
  lemma CommitRecords(states: seq<System>, acts: seq<Action>, i: nat, c: nat)
    requires Run(states, acts) && i < |acts| && acts[i] == CreateCommit(c)
    requires c in states[i].calls && states[i].calls[c].Creating?
    requires c in states[i + 1].calls && CreatedCall(states[i + 1].calls[c])
    ensures var made := states[i].calls[c]; var tb := states[i + 1].tables;
            && |made.placed| == |made.plan|
            && made.job in tb.jobs && tb.jobs[made.job].segmentCount == |made.plan|
            && |tb.jobs[made.job].taskIDs| == |made.plan|
            && forall k :: 0 <= k < |made.placed| ==>
                 && tb.jobs[made.job].taskIDs[k] == made.placed[k].id
                 && made.placed[k].id in tb.tasks
                 && tb.tasks[made.placed[k].id].segmentIndex == made.plan[k].segmentIndex
                 && tb.tasks[made.placed[k].id].worker == made.placed[k].worker
                 && tb.tasks[made.placed[k].id].address == made.placed[k].address
                 && tb.tasks[made.placed[k].id].job == made.job && tb.tasks[made.placed[k].id].kind == ProcessSegment
                 && tb.tasks[made.placed[k].id].status == Assigned && tb.tasks[made.placed[k].id].requiredDisk == 0
    ensures IsNewJob(states[i + 1].tables.jobs[states[i].calls[c].job], states[i].calls[c])
  {
    assert Moves(states, acts, i);
    var made := states[i].calls[c];
    var built := BuiltTasks(made.job, made.plan, made.placed);
    InsertTasksIs(states[i].tables.tasks, built);
    assert forall k :: 0 <= k < |built| ==> built[k].id == made.placed[k].id;
  }

  // ----- disk -----

  /** A worker picked for an assembly records enough free disk for the estimate that worker will
      compute itself from the request, so it refuses for lack of storage only if its real free
      disk is below what Entry has recorded. */
  lemma PickedWorkerHasRoom(states: seq<System>, acts: seq<Action>, n: nat, w: string, realFree: int)
    requires Run(states, acts) && n < |acts| && OverflowFree(states, acts, n, Disk)
    requires acts[n].AssemblePick? && acts[n].pick == Some(w)
    requires w in states[n].workers && realFree >= states[n].workers[w].diskFree
    ensures acts[n].c in states[n].calls && states[n].calls[acts[n].c].AssembleSized?
    ensures var call := states[n].calls[acts[n].c];
            && call.job in states[n].tables.jobs
            && realFree >= DiskEstimate.Estimate(states[n].tables.jobs[call.job].totalSize, Sizes(call.segments))
  {
    assert Moves(states, acts, n);
    Reachable(states, acts, n);
    LedgerBound(states, acts, n, Disk);
    assert CallOk(states[n].workers, states[n].tables, states[n].calls[acts[n].c]);
    assert Bounded(states[n], w, Disk);
  }
}
