/** A concrete run in which a job that was reported failed is running again: one of its two
    segments fails, then the other is accepted. */
module EntryRevived {
  import opened Wrappers
  import opened Workers
  import opened Jobs
  import opened Entry
  import opened EntryRuns
  import opened EntryStatus

  const KEY: string := IdentityKey("a", "v")
  const PLAN: seq<PlanEntry> := [PlanEntry(0, Internal), PlanEntry(1, Internal)]
  const NO_TABLES: Tables := Tables(map[], map[], map[])
  const BOTH: seq<Placed> := [Placed("t", "w", "a"), Placed("u", "w", "a")]
  const MADE: Call := Finished(Created(KEY, "j"))

  function Segment(index: int, status: TaskStatus): Task {
    Task("j", ProcessSegment, index, "w", "a", status, 0, "", 0, 0)
  }

  function TwoSegments(job: JobStatus, first: TaskStatus, second: TaskStatus): Tables {
    Tables(map["j" := Job("w", "a", "v", 2, 1, KEY, job, ["t", "u"], "", "", "")],
           map["t" := Segment(0, first), "u" := Segment(1, second)], map[KEY := "j"])
  }

  function Sys(busy: int, tb: Tables, calls: map<nat, Call>): System {
    System(map["w" := Worker("a", 2, [ProcessSegment], 100, 2 - busy, true, busy, 0)], map["a" := "w"], tb, calls)
  }

  function Placing(busy: int, placed: seq<Placed>): System {
    Sys(busy, NO_TABLES, map[0 := Creating("w", "a", "v", 1, PLAN, "j", placed)])
  }

  lemma PlacedReached()
    ensures Reached(Placing(2, BOTH))
  {
    assert ReachedBy([Initial()], [], Initial());
    var s0 := Sys(0, NO_TABLES, map[]);
    Extend(Initial(), Register(Registration("a", 2, [ProcessSegment], 100), "w"), s0);
    var s1 := Sys(0, NO_TABLES, map[0 := CreateChecked("w", "a", "v", 1, PLAN)]);
    Extend(s0, CreateBegin(0, "w", "v", 1, PLAN), s1);
    Extend(s1, CreateFind(0, Some("j")), Placing(0, []));
    PlaceStep(0, [], "t", [Placed("t", "w", "a")]);
    PlaceStep(1, [Placed("t", "w", "a")], "u", BOTH);
  }

  lemma PlaceStep(busy: int, placed: seq<Placed>, task: string, more: seq<Placed>)
    requires Reached(Placing(busy, placed)) && |placed| < 2 && more == placed + [Placed(task, "w", "a")]
    ensures Reached(Placing(busy + 1, more))
  {
    var s, s' := Placing(busy, placed), Placing(busy + 1, more);
    assert Reserve(s.workers, "w", 0) == s'.workers;
    assert s.calls[0 := s'.calls[0]] == s'.calls;
    Extend(s, CreateReserve(0, task, Some("w"), false), s');
  }

  lemma AssignedReached()
    ensures Reached(Sys(2, TwoSegments(SegmentAssigned, Assigned, Assigned), map[0 := MADE]))
  {
    PlacedReached();
    var s, s' := Placing(2, BOTH), Sys(2, TwoSegments(SegmentAssigned, Assigned, Assigned), map[0 := MADE]);
    var built := BuiltTasks("j", PLAN, BOTH);
    assert built == [NamedTask("t", Segment(0, Assigned)), NamedTask("u", Segment(1, Assigned))];
    assert built[1..] == [NamedTask("u", Segment(1, Assigned))] && built[1..][1..] == [];
    assert InsertTasks(map[], built) == InsertTasks(map["t" := Segment(0, Assigned)], built[1..]) == s'.tables.tasks;
    assert BuiltJob(s.calls[0]).taskIDs == ["t", "u"];
    assert s.calls[0 := MADE] == s'.calls;
    Extend(s, CreateCommit(0), s');
  }

  lemma FailedReached()
    ensures Reached(Sys(2, TwoSegments(JobFailed, Assigned, Failed), map[0 := MADE, 1 := SegmentReleasing("w", "j", false)]))
  {
    AssignedReached();
    var s := Sys(2, TwoSegments(SegmentAssigned, Assigned, Assigned), map[0 := MADE]);
    var s' := Sys(2, TwoSegments(JobFailed, Assigned, Failed), map[0 := MADE, 1 := SegmentReleasing("w", "j", false)]);
    assert s.tables.tasks["u" := Segment(1, Failed)] == s'.tables.tasks;
    assert s.tables.jobs["j" := s'.tables.jobs["j"]] == s'.tables.jobs;
    assert s.calls[1 := s'.calls[1]] == s'.calls;
    Extend(s, SegmentFails(1, "u", "w"), s');
  }

  /** So failed is not final in every run. */
  lemma AcceptRevives()
    ensures exists s, a :: Reached(s) && Enabled(s, a) && IsFailed(s, "j") && Reached(Next(s, a))
              && "j" in Next(s, a).tables.jobs && Next(s, a).tables.jobs["j"].status == SegmentRunning
  {
    FailedReached();
    var s := Sys(2, TwoSegments(JobFailed, Assigned, Failed), map[0 := MADE, 1 := SegmentReleasing("w", "j", false)]);
    var a := SegmentAccepted("t", "w");
    Extend(s, a, Next(s, a));
    assert IsFailed(s, "j");
    assert Next(s, a).tables.jobs["j"].status == SegmentRunning;
  }
}
