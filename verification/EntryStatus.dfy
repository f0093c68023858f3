/** How the status of a job moves over whole runs: what failure means, when it is final, and when
    completion is. */
module EntryStatus {
  import opened Wrappers
  import opened Workers
  import opened Jobs
  import opened Entry
  import opened EntryInvariant
  import opened EntryLedger
  import opened EntryRuns

  // ----- completed -----

  /** A completed job: every segment and the one assemble task are completed, and the result is
      attributed to the worker the assemble task was assigned to. */
  lemma CompletedMeans(states: seq<System>, acts: seq<Action>, n: nat, j: string)
    requires Run(states, acts) && n <= |acts| && j in states[n].tables.jobs
    ensures Inv(states[n]) && JobOk(states[n].tables, j)
    ensures var tb := states[n].tables; var job := tb.jobs[j];
            && (job.status in {AssembleAssigned, AssembleRunning, JobCompleted} ==> HasAssemble(job) && SegmentsDone(tb.tasks, job))
            && (HasAssemble(job) ==>
                  var asm := tb.tasks[job.taskIDs[job.segmentCount]];
                  && (job.status == AssembleAssigned <==> asm.status == Assigned)
                  && (job.status == AssembleRunning <==> asm.status == Running)
                  && (job.status == JobCompleted ==> asm.status == Completed && job.resultWorker == asm.worker))
  {
    Reachable(states, acts, n);
    assert JobOk(states[n].tables, j);
  }

  // ----- a start that was accepted -----

  /** What the success of a start call does: an assigned task and its job are running afterwards and
      nothing else changes; a task that a report settled first is left alone, and so is its job. */
  lemma StartedMeans(s: System, c: nat)
    requires Inv(s) && At(s, c) && s.calls[c].AssembleNotifying?
    ensures var (j, t) := (s.calls[c].job, s.calls[c].task);
            && j in s.tables.jobs && t in s.tables.tasks
            && (s.tables.tasks[t].status == Assigned <==> s.tables.jobs[j].status == AssembleAssigned)
            && DoAssembleStarted(s, c).tables ==
               if s.tables.tasks[t].status == Assigned then
                 s.tables.(tasks := s.tables.tasks[t := s.tables.tasks[t].(status := Running)],
                           jobs := s.tables.jobs[j := s.tables.jobs[j].(status := AssembleRunning)])
               else s.tables
  {
    assert CallOk(s.workers, s.tables, s.calls[c]);
    AssemblePosition(s.tables, s.calls[c].task);
    assert JobOk(s.tables, s.calls[c].job);
  }

  /** After it the notified task is never assigned again and its job never waits for a start again. */
  lemma StartedForGood(states: seq<System>, acts: seq<Action>, m: nat, n: nat, c: nat)
    requires Run(states, acts) && m < n <= |acts| && acts[m] == AssembleStarted(c)
    ensures c in states[m].calls && states[m].calls[c].AssembleNotifying?
    ensures var call := states[m].calls[c];
            && call.task in states[n].tables.tasks && states[n].tables.tasks[call.task].status != Assigned
            && call.job in states[n].tables.jobs && states[n].tables.jobs[call.job].status != AssembleAssigned
  {
    StartedAt(states, acts, m, c);
    var t := states[m].calls[c].task;
    NeverAssignedAgain(states, acts, m + 1, n, t);
    Reachable(states, acts, n);
    NotWaiting(states[n].tables, states[m].calls[c].job, t);
  }

  lemma StartedAt(states: seq<System>, acts: seq<Action>, m: nat, c: nat)
    requires Run(states, acts) && m < |acts| && acts[m] == AssembleStarted(c)
    ensures c in states[m].calls && states[m].calls[c].AssembleNotifying?
    ensures var t := states[m].calls[c].task;
            && t in states[m + 1].tables.tasks && states[m + 1].tables.tasks[t].status != Assigned
            && states[m + 1].tables.tasks[t].kind == AssembleGif
            && states[m + 1].tables.tasks[t].job == states[m].calls[c].job
  {
    Reachable(states, acts, m);
    assert Moves(states, acts, m);
    NotifiedAssembly(states[m], c);
    StartedMeans(states[m], c);
  }

  /** A task that has left assigned never returns to it. */
  lemma NeverAssignedAgain(states: seq<System>, acts: seq<Action>, i: nat, n: nat, t: string)
    requires Run(states, acts) && i <= n <= |acts|
    requires t in states[i].tables.tasks && states[i].tables.tasks[t].status != Assigned
    ensures t in states[n].tables.tasks && states[n].tables.tasks[t].status != Assigned
    ensures states[n].tables.tasks[t].kind == states[i].tables.tasks[t].kind
    ensures states[n].tables.tasks[t].job == states[i].tables.tasks[t].job
  {
    RunEvolves(states, acts, i, n);
    assert TaskKept(states[i].tables, states[n].tables, t);
  }

  lemma NotifiedAssembly(s: System, c: nat)
    requires Inv(s) && At(s, c) && s.calls[c].AssembleNotifying?
    ensures var t := s.calls[c].task;
            t in s.tables.tasks && s.tables.tasks[t].kind == AssembleGif && s.tables.tasks[t].job == s.calls[c].job
  {
    assert CallOk(s.workers, s.tables, s.calls[c]);
  }

  lemma NotWaiting(tb: Tables, j: string, t: string)
    requires TablesOk(tb) && t in tb.tasks && tb.tasks[t].kind == AssembleGif && tb.tasks[t].job == j
    requires tb.tasks[t].status != Assigned
    ensures j in tb.jobs && tb.jobs[j].status != AssembleAssigned
  {
    AssemblePosition(tb, t);
    assert JobOk(tb, j);
  }

  // ----- after the last segment -----

  function Rank(s: JobStatus): nat {
    match s
    case SegmentAssigned => 0
    case SegmentRunning => 0
    case SegmentCompleted => 1
    case AssembleAssigned => 2
    case AssembleRunning => 3
    case JobCompleted => 4
    case JobFailed => 4
  }

  predicate Forward(a: JobStatus, b: JobStatus) {
    a == b || Rank(a) < Rank(b)
  }

  /** The start call of the assembly errs although the job is already completed. */
  predicate ErrsOnCompleted(s: System, a: Action, j: string) {
    && a.AssembleStartErrs? && At(s, a.c) && s.calls[a.c].AssembleNotifying? && s.calls[a.c].job == j
    && j in s.tables.jobs && s.tables.jobs[j].status == JobCompleted
  }

  /** The job goes back exactly when `errs`, and then to failed; failed stays failed. */
  predicate ForwardUnless(s: System, s': System, j: string, errs: bool)
    requires j in s.tables.jobs && j in s'.tables.jobs
  {
    var b, b' := s.tables.jobs[j].status, s'.tables.jobs[j].status;
    && (!Forward(b, b') <==> errs)
    && (errs || b == JobFailed ==> b' == JobFailed)
  }

  /** One step takes a job whose segments are done backwards exactly when the start call errs on
      the completed job. */
  lemma ForwardNext(s: System, a: Action, j: string)
    requires Inv(s) && Enabled(s, a) && Done(s, j)
    ensures j in Next(s, a).tables.jobs
    ensures ForwardUnless(s, Next(s, a), j, ErrsOnCompleted(s, a, j))
  {
    DoneStays(s, a, j);
    if SegmentAction(a) {
      ForwardBySegment(s, a, j);
    } else if AssembleAction(a) || ReportAction(a) {
      ForwardByAssembly(s, a, j);
    }
  }

  lemma ForwardBySegment(s: System, a: Action, j: string)
    requires Inv(s) && Enabled(s, a) && Done(s, j) && SegmentAction(a)
    ensures j in Next(s, a).tables.jobs && Next(s, a).tables.jobs[j] == s.tables.jobs[j]
  {
    if Next(s, a).tables != s.tables {
      NotDone(s.tables, a.task);
    }
  }

  lemma ForwardByAssembly(s: System, a: Action, j: string)
    requires Inv(s) && Enabled(s, a) && Done(s, j) && (AssembleAction(a) || ReportAction(a))
    requires j in Next(s, a).tables.jobs
    ensures ForwardUnless(s, Next(s, a), j, ErrsOnCompleted(s, a, j))
  {
    if a.AssembleStartErrs? {
      ForwardByError(s, a.c, j);
    } else if Next(s, a).tables != s.tables {
      var o := if a.ReportFailure? then a.job else s.calls[a.c].job;
      AssembledJobDone(s, a, o);
      if j == o {
        ForwardOwn(s, a, j);
      }
    }
  }

  lemma ForwardOwn(s: System, a: Action, j: string)
    requires Inv(s) && Enabled(s, a) && (AssembleAction(a) || ReportAction(a)) && !a.AssembleStartErrs?
    requires Next(s, a).tables != s.tables
    requires j == if a.ReportFailure? then a.job else s.calls[a.c].job
    requires j in s.tables.jobs && j in Next(s, a).tables.jobs
    ensures ForwardUnless(s, Next(s, a), j, false)
  {
    if ReportAction(a) {
      ForwardByReport(s, a, j);
    } else if a.AssembleStarted? {
      ForwardByStart(s, a.c);
    } else {
      ForwardToAssembly(s, a);
    }
  }

  lemma ForwardToAssembly(s: System, a: Action)
    requires TablesOk(s.tables) && CallsOk(s) && Enabled(s, a) && (a.AssembleRecord? || a.AssembleGiveUp?)
    requires Next(s, a).tables != s.tables
    ensures s.calls[a.c].job in s.tables.jobs && s.calls[a.c].job in Next(s, a).tables.jobs
    ensures ForwardUnless(s, Next(s, a), s.calls[a.c].job, false)
  {
    assert CallOk(s.workers, s.tables, s.calls[a.c]);
  }

  lemma ForwardByStart(s: System, c: nat)
    requires At(s, c) && s.calls[c].AssembleNotifying? && s.calls[c].job in s.tables.jobs
    ensures s.calls[c].job in DoAssembleStarted(s, c).tables.jobs
    ensures ForwardUnless(s, DoAssembleStarted(s, c), s.calls[c].job, false)
  {
  }

  lemma ForwardByReport(s: System, a: Action, j: string)
    requires TablesOk(s.tables) && Enabled(s, a) && ReportAction(a) && Next(s, a).tables != s.tables
    requires j == if a.ReportFailure? then a.job else s.calls[a.c].job
    ensures j in s.tables.jobs && j in Next(s, a).tables.jobs && ForwardUnless(s, Next(s, a), j, false)
  {
    TargetIs(s.tables, j, if a.ReportFailure? then a.worker else s.calls[a.c].worker);
  }

  lemma ForwardByError(s: System, c: nat, j: string)
    requires At(s, c) && s.calls[c].AssembleNotifying? && j in s.tables.jobs
    ensures j in DoAssembleStartErrs(s, c).tables.jobs
    ensures ForwardUnless(s, DoAssembleStartErrs(s, c), j, ErrsOnCompleted(s, AssembleStartErrs(c), j))
  {
  }

  /** Step `m` of the run does not take `j` back. */
  ghost predicate ForwardAt(states: seq<System>, j: string, m: nat)
    requires m + 1 < |states|
  {
    && j in states[m].tables.jobs && j in states[m + 1].tables.jobs
    && Forward(states[m].tables.jobs[j].status, states[m + 1].tables.jobs[j].status)
  }

  ghost predicate NoErrorOnCompleted(states: seq<System>, acts: seq<Action>, i: nat, n: nat, j: string)
    requires |states| == |acts| + 1 && n <= |acts|
  {
    forall m: nat {:trigger ErrsOnCompleted(states[m], acts[m], j)} :: i <= m < n ==> !ErrsOnCompleted(states[m], acts[m], j)
  }

  lemma {:induction false} DoneThroughout(states: seq<System>, acts: seq<Action>, i: nat, n: nat, j: string)
    requires Run(states, acts) && i <= n <= |acts| && Done(states[i], j)
    ensures Done(states[n], j)
    decreases n
  {
    if i < n {
      DoneThroughout(states, acts, i, n - 1, j);
      Reachable(states, acts, n - 1);
      assert Moves(states, acts, n - 1);
      DoneStays(states[n - 1], acts[n - 1], j);
    }
  }

  lemma ForwardStepAt(states: seq<System>, acts: seq<Action>, m: nat, j: string)
    requires Run(states, acts) && m < |acts| && Done(states[m], j)
    ensures j in states[m + 1].tables.jobs
    ensures ForwardUnless(states[m], states[m + 1], j, ErrsOnCompleted(states[m], acts[m], j))
  {
    Reachable(states, acts, m);
    assert Moves(states, acts, m);
    ForwardNext(states[m], acts[m], j);
  }

  /** Once all its segments are done, every step of the run takes a job forward exactly when no
      start call errs on the completed job. */
  lemma ForwardExactly(states: seq<System>, acts: seq<Action>, i: nat, n: nat, j: string)
    requires Run(states, acts) && i <= n <= |acts| && Done(states[i], j)
    ensures (forall m: nat {:trigger ForwardAt(states, j, m)} :: i <= m < n ==> ForwardAt(states, j, m))
       <==> NoErrorOnCompleted(states, acts, i, n, j)
  {
    forall m: nat | i <= m < n ensures ForwardAt(states, j, m) <==> !ErrsOnCompleted(states[m], acts[m], j) {
      DoneThroughout(states, acts, i, m, j);
      ForwardStepAt(states, acts, m, j);
    }
  }

  /** Completed is final exactly when no start call errs on the completed job; what such an error
      leaves is failed, and failed is final in every run. */
  lemma {:induction false} CompletedFinalExactly(states: seq<System>, acts: seq<Action>, i: nat, n: nat, j: string)
    requires Run(states, acts) && i <= n <= |acts| && Done(states[i], j)
    ensures Done(states[n], j)
    ensures states[i].tables.jobs[j].status == JobFailed ==> states[n].tables.jobs[j].status == JobFailed
    ensures states[i].tables.jobs[j].status == JobCompleted ==>
              states[n].tables.jobs[j].status == if NoErrorOnCompleted(states, acts, i, n, j) then JobCompleted else JobFailed
    decreases n
  {
    if i < n {
      CompletedFinalExactly(states, acts, i, n - 1, j);
      ForwardStepAt(states, acts, n - 1, j);
      DoneThroughout(states, acts, n - 1, n, j);
      assert NoErrorOnCompleted(states, acts, i, n, j) <==>
             NoErrorOnCompleted(states, acts, i, n - 1, j) && !ErrsOnCompleted(states[n - 1], acts[n - 1], j);
    }
  }

  /** Without such an error the status after the last segment only moves forward. */
  lemma {:induction false} StatusMovesForward(states: seq<System>, acts: seq<Action>, i: nat, n: nat, j: string)
    requires Run(states, acts) && i <= n <= |acts| && Done(states[i], j) && NoErrorOnCompleted(states, acts, i, n, j)
    ensures Done(states[n], j) && Forward(states[i].tables.jobs[j].status, states[n].tables.jobs[j].status)
    decreases n
  {
    if i < n {
      StatusMovesForward(states, acts, i, n - 1, j);
      ForwardStepAt(states, acts, n - 1, j);
      DoneThroughout(states, acts, n - 1, n, j);
    }
  }

  /** Clean-start runs have none. */
  lemma CleanRunsMoveForward(states: seq<System>, acts: seq<Action>, i: nat, n: nat, j: string)
    requires Run(states, acts) && CleanRun(states, acts) && i <= n <= |acts|
    ensures NoErrorOnCompleted(states, acts, i, n, j)
  {
    forall m: nat | i <= m < n ensures !ErrsOnCompleted(states[m], acts[m], j) {
      Reachable(states, acts, m);
      assert CleanStart(states[m], acts[m]);
      if ErrsOnCompleted(states[m], acts[m], j) {
        CompletedIsSettled(states[m], acts[m].c, j);
      }
    }
  }

  lemma CompletedIsSettled(s: System, c: nat, j: string)
    requires Inv(s) && ErrsOnCompleted(s, AssembleStartErrs(c), j)
    ensures s.calls[c].task in s.tables.tasks && !Live(s.tables.tasks[s.calls[c].task])
  {
    assert CallOk(s.workers, s.tables, s.calls[c]);
    AssemblePosition(s.tables, s.calls[c].task);
    assert JobOk(s.tables, j);
  }

  // ----- failure -----

  predicate FailedSegment(tb: Tables, j: string, t: string) {
    t in tb.tasks && tb.tasks[t].kind == ProcessSegment && tb.tasks[t].status == Failed && tb.tasks[t].job == j
  }

  ghost predicate HasFailedSegment(tb: Tables, j: string) {
    exists t :: FailedSegment(tb, j, t)
  }

  predicate IsFailed(s: System, j: string) {
    j in s.tables.jobs && s.tables.jobs[j].status == JobFailed
  }

  /** A failed job has all segments done, so that its assembly failed, or has a failed segment. */
  ghost predicate FailureKnown(s: System) {
    forall j {:trigger IsFailed(s, j)} :: IsFailed(s, j) ==> Done(s, j) || HasFailedSegment(s.tables, j)
  }

  lemma FailedSegmentStays(tb: Tables, tb': Tables, j: string)
    requires Evolves(tb, tb') && HasFailedSegment(tb, j)
    ensures HasFailedSegment(tb', j)
  {
    var t :| FailedSegment(tb, j, t);
    assert TaskKept(tb, tb', t);
    assert FailedSegment(tb', j, t);
  }

  lemma FailedSegmentOpen(tb: Tables, j: string)
    requires TablesOk(tb) && HasFailedSegment(tb, j)
    ensures j in tb.jobs && !SegmentsDone(tb.tasks, tb.jobs[j])
  {
    var t :| FailedSegment(tb, j, t);
    NotDone(tb, t);
  }

  lemma BecomesFailed(s: System, a: Action, j: string)
    requires Inv(s) && Enabled(s, a) && IsFailed(Next(s, a), j) && !IsFailed(s, j)
    ensures Done(Next(s, a), j) || HasFailedSegment(Next(s, a).tables, j)
  {
    if SegmentAction(a) {
      FailedBySegment(s, a, j);
    } else if !(j in s.tables.jobs) {
      NotBornFailed(s, a, j);
    } else if Done(s, j) {
      DoneStays(s, a, j);
    } else {
      LeftAlone(s, a, j);
    }
  }

  lemma NotBornFailed(s: System, a: Action, j: string)
    requires Inv(s) && Enabled(s, a) && !SegmentAction(a) && j !in s.tables.jobs && j in Next(s, a).tables.jobs
    ensures !IsFailed(Next(s, a), j)
  {
    if AssembleAction(a) || ReportAction(a) {
      AssembledJobDone(s, a, if a.ReportFailure? then a.job else s.calls[a.c].job);
    }
  }

  lemma FailedBySegment(s: System, a: Action, j: string)
    requires Enabled(s, a) && SegmentAction(a) && IsFailed(Next(s, a), j) && !IsFailed(s, j)
    ensures HasFailedSegment(Next(s, a).tables, j)
  {
    assert a.SegmentFails? && FailedSegment(Next(s, a).tables, j, a.task);
  }

  lemma FailureKnownNext(s: System, a: Action)
    requires Inv(s) && FailureKnown(s) && Enabled(s, a)
    ensures FailureKnown(Next(s, a))
  {
    var s' := Next(s, a);
    NextInv(s, a);
    forall j | IsFailed(s', j) ensures Done(s', j) || HasFailedSegment(s'.tables, j) {
      if !IsFailed(s, j) {
        BecomesFailed(s, a, j);
      } else if Done(s, j) {
        DoneStays(s, a, j);
      } else {
        FailedSegmentStays(s.tables, s'.tables, j);
      }
    }
  }

  /** Every failure has a cause on record. */
  lemma {:induction false} FailureHasCause(states: seq<System>, acts: seq<Action>, n: nat)
    requires Run(states, acts) && n <= |acts|
    ensures FailureKnown(states[n])
    decreases n
  {
    if n > 0 {
      FailureHasCause(states, acts, n - 1);
      Reachable(states, acts, n - 1);
      assert Moves(states, acts, n - 1);
      FailureKnownNext(states[n - 1], acts[n - 1]);
    }
  }

  /** The step accepts a segment of job `j`. */
  predicate Accepts(s: System, a: Action, j: string) {
    a.SegmentAccepted? && Accept(s.tables, a.task, a.worker).Ok? && s.tables.tasks[a.task].job == j
  }

  /** With a failed segment, a job stays failed unless a segment of it is accepted; it never counts
      as anything but failed or running. */
  lemma PoisonedNext(s: System, a: Action, j: string)
    requires Inv(s) && Enabled(s, a) && HasFailedSegment(s.tables, j)
    requires j in s.tables.jobs && s.tables.jobs[j].status in {JobFailed, SegmentRunning}
    ensures j in Next(s, a).tables.jobs && Next(s, a).tables.jobs[j].status in {JobFailed, SegmentRunning}
    ensures IsFailed(s, j) ==> (!IsFailed(Next(s, a), j) <==> Accepts(s, a, j))
  {
    FailedSegmentOpen(s.tables, j);
    if SegmentAction(a) {
      PoisonedBySegment(s, a, j);
    } else {
      LeftAlone(s, a, j);
    }
  }

  /** Only segment reports write a job whose segments are not all done. */
  lemma LeftAlone(s: System, a: Action, j: string)
    requires Inv(s) && Enabled(s, a) && !SegmentAction(a) && j in s.tables.jobs && !Done(s, j)
    ensures j in Next(s, a).tables.jobs && Next(s, a).tables.jobs[j] == s.tables.jobs[j]
  {
    if AssembleAction(a) || ReportAction(a) {
      LeftAloneByAssembly(s, a, j);
    } else if CreateAction(a) {
      LeftAloneByCreate(s, a, j);
    }
  }

  lemma LeftAloneByAssembly(s: System, a: Action, j: string)
    requires Inv(s) && Enabled(s, a) && (AssembleAction(a) || ReportAction(a)) && j in s.tables.jobs && !Done(s, j)
    ensures j in Next(s, a).tables.jobs && Next(s, a).tables.jobs[j] == s.tables.jobs[j]
  {
    if Next(s, a).tables != s.tables {
      AssembledJobDone(s, a, if a.ReportFailure? then a.job else s.calls[a.c].job);
    }
  }

  lemma LeftAloneByCreate(s: System, a: Action, j: string)
    requires Enabled(s, a) && CreateAction(a) && j in s.tables.jobs
    ensures j in Next(s, a).tables.jobs && Next(s, a).tables.jobs[j] == s.tables.jobs[j]
  {
  }

  lemma PoisonedBySegment(s: System, a: Action, j: string)
    requires TablesOk(s.tables) && Enabled(s, a) && SegmentAction(a) && HasFailedSegment(s.tables, j)
    requires j in s.tables.jobs && s.tables.jobs[j].status in {JobFailed, SegmentRunning}
    ensures j in Next(s, a).tables.jobs && Next(s, a).tables.jobs[j].status in {JobFailed, SegmentRunning}
    ensures IsFailed(s, j) ==> (!IsFailed(Next(s, a), j) <==> Accepts(s, a, j))
  {
    if a.SegmentCompletes? {
      NotLast(s.tables, a.task, a.worker, a.report, j);
    }
  }

  /** With a failed segment in the job, no completion is its last. */
  lemma NotLast(tb: Tables, t: string, worker: string, report: SegmentReport, j: string)
    requires TablesOk(tb) && j in tb.jobs && HasFailedSegment(tb, j)
    ensures Complete(tb, t, worker, report).Ok? ==>
              var tb' := Complete(tb, t, worker, report).value.0; j in tb'.jobs && tb'.jobs[j].status == tb.jobs[j].status
  {
    var r := Complete(tb, t, worker, report);
    if r.Ok? && tb.tasks[t].job == j {
      CompleteKeeps(tb, t, worker, report);
      FailedSegmentStays(tb, r.value.0, j);
      FailedSegmentOpen(r.value.0, j);
    }
  }

  /** A failed job leaves failed exactly when a segment of it is accepted, and only to running. */
  lemma LeavesFailed(s: System, a: Action, j: string)
    requires Inv(s) && FailureKnown(s) && Enabled(s, a) && IsFailed(s, j)
    ensures j in Next(s, a).tables.jobs && Next(s, a).tables.jobs[j].status in {JobFailed, SegmentRunning}
    ensures !IsFailed(Next(s, a), j) <==> Accepts(s, a, j)
  {
    if Done(s, j) {
      ForwardNext(s, a, j);
      if Accepts(s, a, j) {
        NotDone(s.tables, a.task);
      }
    } else {
      PoisonedNext(s, a, j);
    }
  }

  /** A job stays failed exactly as long as none of its segments is accepted. */
  lemma {:induction false} FailedFinalExactly(states: seq<System>, acts: seq<Action>, i: nat, n: nat, j: string)
    requires Run(states, acts) && i <= n <= |acts| && IsFailed(states[i], j)
    ensures (forall m: nat {:trigger IsFailed(states[m], j)} :: i <= m <= n ==> IsFailed(states[m], j))
       <==> (forall m: nat {:trigger Accepts(states[m], acts[m], j)} :: i <= m < n ==> !Accepts(states[m], acts[m], j))
    decreases n
  {
    if i < n {
      FailedFinalExactly(states, acts, i, n - 1, j);
      FailedAt(states, acts, n - 1, j);
    }
  }

  lemma FailedAt(states: seq<System>, acts: seq<Action>, m: nat, j: string)
    requires Run(states, acts) && m < |acts|
    ensures IsFailed(states[m], j) ==> (!IsFailed(states[m + 1], j) <==> Accepts(states[m], acts[m], j))
  {
    if IsFailed(states[m], j) {
      Reachable(states, acts, m);
      FailureHasCause(states, acts, m);
      assert Moves(states, acts, m);
      LeavesFailed(states[m], acts[m], j);
    }
  }

  lemma {:induction false} PoisonedAfter(states: seq<System>, acts: seq<Action>, i: nat, n: nat, j: string)
    requires Run(states, acts) && i <= n <= |acts| && HasFailedSegment(states[i].tables, j)
    requires j in states[i].tables.jobs && states[i].tables.jobs[j].status in {JobFailed, SegmentRunning}
    ensures HasFailedSegment(states[n].tables, j)
    ensures j in states[n].tables.jobs && states[n].tables.jobs[j].status in {JobFailed, SegmentRunning}
    decreases n
  {
    if i < n {
      PoisonedAfter(states, acts, i, n - 1, j);
      Reachable(states, acts, n - 1);
      assert Moves(states, acts, n - 1);
      PoisonedNext(states[n - 1], acts[n - 1], j);
      RunEvolves(states, acts, n - 1, n);
      FailedSegmentStays(states[n - 1].tables, states[n].tables, j);
    }
  }

  /** A job once reported failed is never afterwards anything but failed or running: it is never
      under assembly and never completed. */
  lemma FailedNeverCompletes(states: seq<System>, acts: seq<Action>, i: nat, n: nat, j: string)
    requires Run(states, acts) && i <= n <= |acts| && IsFailed(states[i], j)
    ensures j in states[n].tables.jobs && states[n].tables.jobs[j].status in {JobFailed, SegmentRunning}
  {
    FailureHasCause(states, acts, i);
    if Done(states[i], j) {
      CompletedFinalExactly(states, acts, i, n, j);
    } else {
      PoisonedAfter(states, acts, i, n, j);
    }
  }

  /** Once a segment has failed, its job never again counts as complete or under assembly,
      whatever happens afterwards. */
  lemma FailurePoisons(states: seq<System>, acts: seq<Action>, i: nat, n: nat, t: string)
    requires Run(states, acts) && i <= n <= |acts|
    requires t in states[i].tables.tasks
    requires states[i].tables.tasks[t].kind == ProcessSegment && states[i].tables.tasks[t].status == Failed
    ensures var j := states[i].tables.tasks[t].job;
            && j in states[n].tables.jobs
            && states[n].tables.jobs[j].status in {SegmentAssigned, SegmentRunning, JobFailed}
  {
    RunEvolves(states, acts, i, n);
    assert TaskKept(states[i].tables, states[n].tables, t);
    Reachable(states, acts, n);
    NotDone(states[n].tables, t);
    assert JobOk(states[n].tables, states[i].tables.tasks[t].job);
  }
}
