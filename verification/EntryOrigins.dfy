/** Where the things Entry records come from: every field of a finished segment, of a start request
    and of a result is traced back to the step that brought it. */
module EntryOrigins {
  import opened Wrappers
  import opened Workers
  import opened Jobs
  import opened Entry
  import opened EntryInvariant
  import opened EntryLedger
  import opened EntryRuns
  import opened EntryTheorems

  // ----- reports of segments -----

  predicate CompletedSegment(tb: Tables, t: string) {
    t in tb.tasks && tb.tasks[t].kind == ProcessSegment && tb.tasks[t].status == Completed
  }

  /** The step reports task `t`, and this is what it reports. */
  predicate Brings(a: Action, t: string, task: Task) {
    && a.SegmentCompletes? && a.task == t && a.worker == task.worker
    && a.report.checksum == task.checksum && a.report.frameCount == task.frameCount && a.report.outputSize == task.outputSize
  }

  /** Steps of assemblies and their reports touch no segment. */
  lemma SegmentsLeftAlone(s: System, a: Action, t: string)
    requires Inv(s) && Enabled(s, a) && (AssembleAction(a) || ReportAction(a))
    requires t in Next(s, a).tables.tasks && Next(s, a).tables.tasks[t].kind == ProcessSegment
    ensures t in s.tables.tasks && Next(s, a).tables.tasks[t] == s.tables.tasks[t]
  {
    if ReportAction(a) {
      SegmentsLeftByReport(s, a, t);
    } else {
      if a.AssembleStarted? || a.AssembleStartErrs? {
        assert CallOk(s.workers, s.tables, s.calls[a.c]);
      }
      SegmentsLeftByAssembly(s, a, t);
    }
  }

  lemma SegmentsLeftByReport(s: System, a: Action, t: string)
    requires TablesOk(s.tables) && Enabled(s, a) && ReportAction(a)
    requires t in Next(s, a).tables.tasks && Next(s, a).tables.tasks[t].kind == ProcessSegment
    ensures t in s.tables.tasks && Next(s, a).tables.tasks[t] == s.tables.tasks[t]
  {
    match a
    case ReportBegin(_, _, _, _) =>
    case ReportSuccess(c) => TargetIs(s.tables, s.calls[c].job, s.calls[c].worker);
    case ReportFailure(_, job, worker) => TargetIs(s.tables, job, worker);
  }

  lemma SegmentsLeftByAssembly(s: System, a: Action, t: string)
    requires Enabled(s, a) && AssembleAction(a)
    requires a.AssembleStarted? || a.AssembleStartErrs? ==>
               s.calls[a.c].task in s.tables.tasks && s.tables.tasks[s.calls[a.c].task].kind == AssembleGif
    requires t in Next(s, a).tables.tasks && Next(s, a).tables.tasks[t].kind == ProcessSegment
    ensures t in s.tables.tasks && Next(s, a).tables.tasks[t] == s.tables.tasks[t]
  {
  }

  lemma NoneBornCompleted(s: System, a: Action, t: string)
    requires Enabled(s, a) && CreateAction(a) && CompletedSegment(Next(s, a).tables, t)
    ensures CompletedSegment(s.tables, t)
  {
    if Next(s, a).tables != s.tables {
      var built := BuiltTasks(s.calls[a.c].job, s.calls[a.c].plan, s.calls[a.c].placed);
      InsertTasksIs(s.tables.tasks, built);
    }
  }

  /** A segment becomes completed only by a report from its worker while it is live, and what is
      recorded is that report. */
  lemma CompletionStep(s: System, a: Action, t: string)
    requires Inv(s) && Enabled(s, a) && CompletedSegment(Next(s, a).tables, t) && !CompletedSegment(s.tables, t)
    ensures Brings(a, t, Next(s, a).tables.tasks[t])
    ensures t in s.tables.tasks && Live(s.tables.tasks[t])
  {
    if SegmentAction(a) {
      CompletedBySegment(s, a, t);
    } else if CreateAction(a) {
      NoneBornCompleted(s, a, t);
    } else if AssembleAction(a) || ReportAction(a) {
      SegmentsLeftAlone(s, a, t);
    }
  }

  lemma CompletedBySegment(s: System, a: Action, t: string)
    requires Enabled(s, a) && SegmentAction(a) && CompletedSegment(Next(s, a).tables, t) && !CompletedSegment(s.tables, t)
    ensures Brings(a, t, Next(s, a).tables.tasks[t])
    ensures t in s.tables.tasks && Live(s.tables.tasks[t])
  {
  }

  /** Step `m` is the accepted report that completed `t` with what is on record in `task`. */
  ghost predicate AcceptedReport(states: seq<System>, acts: seq<Action>, m: nat, t: string, task: Task)
    requires |states| == |acts| + 1 && m < |acts|
  {
    && Brings(acts[m], t, task)
    && t in states[m].tables.tasks && Live(states[m].tables.tasks[t])
    && CompletedSegment(states[m + 1].tables, t)
  }

  /** Every completed segment carries the report that completed it. */
  lemma {:induction false} CompletedFromReport(states: seq<System>, acts: seq<Action>, n: nat, t: string)
    requires Run(states, acts) && n <= |acts| && CompletedSegment(states[n].tables, t)
    ensures exists m: nat :: m < n && AcceptedReport(states, acts, m, t, states[n].tables.tasks[t])
    decreases n
  {
    if n > 0 {
      assert Moves(states, acts, n - 1);
      Reachable(states, acts, n - 1);
      if CompletedSegment(states[n - 1].tables, t) {
        CompletedFromReport(states, acts, n - 1, t);
        RunEvolves(states, acts, n - 1, n);
        assert TaskKept(states[n - 1].tables, states[n].tables, t);
      } else {
        CompletionStep(states[n - 1], acts[n - 1], t);
        assert AcceptedReport(states, acts, n - 1, t, states[n].tables.tasks[t]);
      }
    }
  }

  /** Every segment of a start request carries what its worker reported for it in an earlier step,
      which Entry accepted: checksum, frame count and output size. */
  lemma RequestCarriesReports(states: seq<System>, acts: seq<Action>, n: nat, d: nat, k: nat)
    requires Run(states, acts) && n <= |acts| && d in states[n].calls && states[n].calls[d].AssembleNotifying?
    requires k < |states[n].calls[d].segments|
    ensures var ref := states[n].calls[d].segments[k];
            exists m: nat :: m < n && m < |acts| && ReportedBy(states, acts, m, ref)
  {
    Reachable(states, acts, n);
    SegmentOfRequest(states[n], d, k);
    var ref := states[n].calls[d].segments[k];
    CompletedFromReport(states, acts, n, ref.task);
    var m: nat :| m < n && AcceptedReport(states, acts, m, ref.task, states[n].tables.tasks[ref.task]);
    assert ReportedBy(states, acts, m, ref);
  }

  /** Step `m` is a report for the task of the reference by its worker, with the reference's figures;
      it came while the task was live and completed it. */
  ghost predicate ReportedBy(states: seq<System>, acts: seq<Action>, m: nat, ref: SegmentRef)
    requires |states| == |acts| + 1 && m < |acts|
  {
    && acts[m].SegmentCompletes? && acts[m].task == ref.task && acts[m].worker == ref.worker
    && acts[m].report.checksum == ref.checksum && acts[m].report.frameCount == ref.frameCount
    && acts[m].report.outputSize == ref.outputSize
    && ref.task in states[m].tables.tasks && Live(states[m].tables.tasks[ref.task])
    && CompletedSegment(states[m + 1].tables, ref.task)
  }

  /** The reference agrees with the recorded task in every field. */
  lemma SegmentOfRequest(s: System, d: nat, k: nat)
    requires Inv(s) && d in s.calls && s.calls[d].AssembleNotifying? && k < |s.calls[d].segments|
    ensures var ref := s.calls[d].segments[k];
            && CompletedSegment(s.tables, ref.task)
            && var t := s.tables.tasks[ref.task];
            && t.segmentIndex == ref.segmentIndex && t.worker == ref.worker && t.address == ref.address
            && t.checksum == ref.checksum && t.frameCount == ref.frameCount && t.outputSize == ref.outputSize
  {
    var call := s.calls[d];
    assert CallOk(s.workers, s.tables, call);
    AssemblePosition(s.tables, call.task);
    assert JobOk(s.tables, call.job);
    var ids := s.tables.jobs[call.job].taskIDs[..s.tables.jobs[call.job].segmentCount];
    assert AllComplete(s.tables.tasks, ids);
    assert call.segments[k] == RefOf(ids[k], s.tables.tasks[ids[k]]);
  }

  // ----- requests that create jobs -----

  predicate IsCreation(call: Call) {
    call.CreateChecked? || call.Creating?
  }

  /** The call carries what the request asked for. */
  predicate Asks(a: Action, c: nat, call: Call)
    requires IsCreation(call)
  {
    && a.CreateBegin? && a.c == c
    && a.source == call.source && a.video == call.video && a.total == call.total && a.plan == call.plan
  }

  lemma CreationStep(s: System, a: Action, c: nat)
    requires Enabled(s, a) && c in Next(s, a).calls && IsCreation(Next(s, a).calls[c])
    ensures Asks(a, c, Next(s, a).calls[c]) ||
            (c in s.calls && IsCreation(s.calls[c]) && SameRequest(s.calls[c], Next(s, a).calls[c]))
  {
    ActorOnly(s, a);
    if Actor(a) == Some(c) {
      CreationByActor(s, a);
    }
  }

  lemma CreationByActor(s: System, a: Action)
    requires Enabled(s, a) && Actor(a).Some? && a.c in Next(s, a).calls && IsCreation(Next(s, a).calls[a.c])
    ensures Asks(a, a.c, Next(s, a).calls[a.c]) ||
            (a.c in s.calls && IsCreation(s.calls[a.c]) && SameRequest(s.calls[a.c], Next(s, a).calls[a.c]))
  {
    if !CreateAction(a) {
      NoCreationElsewhere(s, a);
    }
  }

  lemma NoCreationElsewhere(s: System, a: Action)
    requires Enabled(s, a) && Actor(a).Some? && !CreateAction(a) && a.c in Next(s, a).calls
    ensures !IsCreation(Next(s, a).calls[a.c])
  {
  }

  predicate SameRequest(a: Call, b: Call)
    requires IsCreation(a) && IsCreation(b)
  {
    a.source == b.source && a.address == b.address && a.video == b.video && a.total == b.total && a.plan == b.plan
  }

  /** A creation in flight carries exactly what its request asked for. */
  lemma {:induction false} CreationCarries(states: seq<System>, acts: seq<Action>, n: nat, c: nat)
    requires Run(states, acts) && n <= |acts| && c in states[n].calls && IsCreation(states[n].calls[c])
    ensures exists b: nat :: b < n && Asks(acts[b], c, states[n].calls[c])
    decreases n
  {
    if n > 0 {
      assert Moves(states, acts, n - 1);
      CreationStep(states[n - 1], acts[n - 1], c);
      if !Asks(acts[n - 1], c, states[n].calls[c]) {
        CreationCarries(states, acts, n - 1, c);
        var b: nat :| b < n - 1 && Asks(acts[b], c, states[n - 1].calls[c]);
        assert Asks(acts[b], c, states[n].calls[c]);
      }
    }
  }

  /** The job is the one that was asked for. */
  predicate AskedFor(a: Action, job: Job) {
    && a.CreateBegin? && job.source == a.source && job.video == a.video && job.totalSize == a.total
    && job.segmentCount == |a.plan| && job.identity == IdentityKey(job.sourceAddress, job.video)
  }

  lemma NewJobStep(s: System, a: Action, j: string)
    requires Inv(s) && Enabled(s, a) && j in Next(s, a).tables.jobs && j !in s.tables.jobs
    ensures a.CreateCommit? && a.c in s.calls && s.calls[a.c].Creating? && s.calls[a.c].job == j
    ensures IsNewJob(Next(s, a).tables.jobs[j], s.calls[a.c])
    ensures Next(s, a).tables.jobs[j].identity == IdentityKey(s.calls[a.c].address, s.calls[a.c].video)
  {
    if AssembleAction(a) || ReportAction(a) {
      NoJobByAssembly(s, a);
    } else if SegmentAction(a) {
      NoJobBySegment(s, a);
    } else if CreateAction(a) {
      NewJobByCreate(s, a, j);
    }
  }

  lemma NoJobByAssembly(s: System, a: Action)
    requires Inv(s) && Enabled(s, a) && (AssembleAction(a) || ReportAction(a))
    ensures Next(s, a).tables.jobs.Keys == s.tables.jobs.Keys
  {
    if Next(s, a).tables != s.tables {
      AssembledJobDone(s, a, if a.ReportFailure? then a.job else s.calls[a.c].job);
    }
  }

  lemma NewJobByCreate(s: System, a: Action, j: string)
    requires Enabled(s, a) && CreateAction(a) && j in Next(s, a).tables.jobs && j !in s.tables.jobs
    ensures a.CreateCommit? && a.c in s.calls && s.calls[a.c].Creating? && s.calls[a.c].job == j
    ensures IsNewJob(Next(s, a).tables.jobs[j], s.calls[a.c])
    ensures Next(s, a).tables.jobs[j].identity == IdentityKey(s.calls[a.c].address, s.calls[a.c].video)
  {
  }

  lemma NoJobBySegment(s: System, a: Action)
    requires Enabled(s, a) && SegmentAction(a)
    ensures Next(s, a).tables.jobs.Keys == s.tables.jobs.Keys
  {
  }

  /** Every recorded job is what one CreateJob request asked for. */
  lemma {:induction false} JobFromRequest(states: seq<System>, acts: seq<Action>, n: nat, j: string)
    requires Run(states, acts) && n <= |acts| && j in states[n].tables.jobs
    ensures exists b: nat :: b < n && AskedFor(acts[b], states[n].tables.jobs[j])
    decreases n
  {
    if n > 0 {
      var s, s' := states[n - 1], states[n];
      assert Moves(states, acts, n - 1);
      Reachable(states, acts, n - 1);
      if j in s.tables.jobs {
        JobFromRequest(states, acts, n - 1, j);
        var b: nat :| b < n - 1 && AskedFor(acts[b], s.tables.jobs[j]);
        RunEvolves(states, acts, n - 1, n);
        assert JobKept(s.tables, s'.tables, j);
        assert AskedFor(acts[b], s'.tables.jobs[j]);
      } else {
        NewJobStep(s, acts[n - 1], j);
        var c := acts[n - 1].c;
        CreationCarries(states, acts, n - 1, c);
        var b: nat :| b < n - 1 && Asks(acts[b], c, s.calls[c]);
        assert AskedFor(acts[b], s'.tables.jobs[j]);
      }
    }
  }

  // ----- results -----

  /** The step reports the result that the job records. */
  predicate Delivers(s: System, a: Action, j: string, job: Job) {
    && a.ReportSuccess? && At(s, a.c) && s.calls[a.c].ReportReady? && s.calls[a.c].job == j
    && job.resultWorker == s.calls[a.c].worker && job.resultAddress == s.calls[a.c].address
    && job.resultName == (if s.calls[a.c].name == "" then j + ".gif" else s.calls[a.c].name)
  }

  predicate IsCompleted(s: System, j: string) {
    j in s.tables.jobs && s.tables.jobs[j].status == JobCompleted
  }

  lemma ResultStep(s: System, a: Action, j: string)
    requires Inv(s) && Enabled(s, a) && IsCompleted(Next(s, a), j)
    ensures (IsCompleted(s, j) && Next(s, a).tables.jobs[j] == s.tables.jobs[j])
            || Delivers(s, a, j, Next(s, a).tables.jobs[j])
  {
    if ReportAction(a) {
      ResultByReport(s, a, j);
    } else {
      ResultKept(s, a, j);
    }
  }

  lemma ResultByReport(s: System, a: Action, j: string)
    requires TablesOk(s.tables) && Enabled(s, a) && ReportAction(a) && IsCompleted(Next(s, a), j)
    ensures (IsCompleted(s, j) && Next(s, a).tables.jobs[j] == s.tables.jobs[j])
            || Delivers(s, a, j, Next(s, a).tables.jobs[j])
  {
  }

  lemma ResultKept(s: System, a: Action, j: string)
    requires Enabled(s, a) && !ReportAction(a) && IsCompleted(Next(s, a), j)
    ensures IsCompleted(s, j) && Next(s, a).tables.jobs[j] == s.tables.jobs[j]
  {
    if CreateAction(a) {
      ResultKeptByCreate(s, a, j);
    } else if SegmentAction(a) {
      ResultKeptBySegment(s, a, j);
    } else if AssembleAction(a) {
      ResultKeptByAssembly(s, a, j);
    }
  }

  lemma ResultKeptByCreate(s: System, a: Action, j: string)
    requires Enabled(s, a) && CreateAction(a) && IsCompleted(Next(s, a), j)
    ensures IsCompleted(s, j) && Next(s, a).tables.jobs[j] == s.tables.jobs[j]
  {
  }

  lemma ResultKeptBySegment(s: System, a: Action, j: string)
    requires Enabled(s, a) && SegmentAction(a) && IsCompleted(Next(s, a), j)
    ensures IsCompleted(s, j) && Next(s, a).tables.jobs[j] == s.tables.jobs[j]
  {
  }

  lemma ResultKeptByAssembly(s: System, a: Action, j: string)
    requires Enabled(s, a) && AssembleAction(a) && IsCompleted(Next(s, a), j)
    ensures IsCompleted(s, j) && Next(s, a).tables.jobs[j] == s.tables.jobs[j]
  {
  }

  /** The result of a completed job is the one its assembler reported: worker, address and name, the
      job's own name if the report had none. */
  lemma {:induction false} ResultFromReport(states: seq<System>, acts: seq<Action>, n: nat, j: string)
    requires Run(states, acts) && n <= |acts| && IsCompleted(states[n], j)
    ensures exists m: nat :: m < n && Delivers(states[m], acts[m], j, states[n].tables.jobs[j])
    decreases n
  {
    if n > 0 {
      assert Moves(states, acts, n - 1);
      Reachable(states, acts, n - 1);
      ResultStep(states[n - 1], acts[n - 1], j);
      if !Delivers(states[n - 1], acts[n - 1], j, states[n].tables.jobs[j]) {
        ResultFromReport(states, acts, n - 1, j);
      }
    }
  }

  /** The report in flight came in with these words, from a worker that was registered then. */
  predicate ReportedAs(s: System, a: Action, c: nat, call: Call)
    requires call.ReportReady?
  {
    && a == ReportBegin(c, call.job, call.worker, call.name)
    && call.worker in s.workers && s.workers[call.worker].address == call.address
  }

  lemma ReportStep(s: System, a: Action, c: nat)
    requires Enabled(s, a) && c in Next(s, a).calls && Next(s, a).calls[c].ReportReady?
    ensures ReportedAs(s, a, c, Next(s, a).calls[c]) || (c in s.calls && s.calls[c] == Next(s, a).calls[c])
  {
    ActorOnly(s, a);
    if Actor(a) == Some(c) && !ReportAction(a) {
      NoReportElsewhere(s, a);
    }
  }

  lemma NoReportElsewhere(s: System, a: Action)
    requires Enabled(s, a) && Actor(a).Some? && !ReportAction(a) && a.c in Next(s, a).calls
    ensures !Next(s, a).calls[a.c].ReportReady?
  {
  }

  /** A report of an assembly in flight carries what came in. */
  lemma {:induction false} ReportCarries(states: seq<System>, acts: seq<Action>, n: nat, c: nat)
    requires Run(states, acts) && n <= |acts| && c in states[n].calls && states[n].calls[c].ReportReady?
    ensures exists b: nat :: b < n && ReportedAs(states[b], acts[b], c, states[n].calls[c])
    decreases n
  {
    if n > 0 {
      assert Moves(states, acts, n - 1);
      ReportStep(states[n - 1], acts[n - 1], c);
      if !ReportedAs(states[n - 1], acts[n - 1], c, states[n].calls[c]) {
        ReportCarries(states, acts, n - 1, c);
      }
    }
  }
}
