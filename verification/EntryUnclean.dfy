/** Two concrete runs: one in which the start call of an assembly errs after the worker's report was
    already accepted, so that the reservation is released twice and the ledger is no longer exact,
    and one in which a source size is so large that the disk estimate overflows. */
module EntryUnclean {
  import opened Wrappers
  import opened Workers
  import opened Jobs
  import opened Entry
  import opened EntryInvariant
  import opened EntryLedger
  import opened EntryRuns
  import DiskEstimate

  const KEY: string := IdentityKey("a", "v")

  function Worker1(busy: int, disk: int): Table {
    map["w" := Worker("a", 1, [ProcessSegment, AssembleGif], 100, 1 - busy, true, busy, disk)]
  }

  function Tables1(total: int, job: JobStatus, seg: TaskStatus): Tables {
    Tables(map["j" := Job("w", "a", "v", 1, total, KEY, job, ["t"], "", "", "")],
           map["t" := Task("j", ProcessSegment, 0, "w", "a", seg, 0, "", 0, 0)], map[KEY := "j"])
  }

  function Tables2(job: JobStatus, asm: TaskStatus, result: string): Tables {
    Tables(map["j" := Job("w", "a", "v", 1, 1, KEY, job, ["t", "u"], result, if result == "" then "" else "a",
                          if result == "" then "" else "j.gif")],
           map["t" := Task("j", ProcessSegment, 0, "w", "a", Completed, 0, "", 0, 0),
               "u" := Task("j", AssembleGif, -1, "w", "a", asm, 1, "", 0, 0)], map[KEY := "j"])
  }

  function Sys(busy: int, disk: int, tb: Tables, calls: map<nat, Call>): System {
    System(Worker1(busy, disk), map["a" := "w"], tb, calls)
  }

  const NO_TABLES: Tables := Tables(map[], map[], map[])
  const PLAN: seq<PlanEntry> := [PlanEntry(0, Internal)]
  const SEGMENTS: seq<SegmentRef> := [SegmentRef(0, "t", "w", "a", "", 0, 0)]
  const REPORT: SegmentReport := SegmentReport("", 0, 0)
  const MADE: Call := Finished(Created(KEY, "j"))

  lemma CreateJobReached(total: int)
    ensures Reached(Sys(1, 0, Tables1(total, SegmentAssigned, Assigned), map[0 := MADE]))
  {
    assert ReachedBy([Initial()], [], Initial());
    var s0 := Sys(0, 0, NO_TABLES, map[]);
    Extend(Initial(), Register(Registration("a", 1, [ProcessSegment, AssembleGif], 100), "w"), s0);
    var s1 := Sys(0, 0, NO_TABLES, map[0 := CreateChecked("w", "a", "v", total, PLAN)]);
    Extend(s0, CreateBegin(0, "w", "v", total, PLAN), s1);
    var s2 := Sys(0, 0, NO_TABLES, map[0 := Creating("w", "a", "v", total, PLAN, "j", [])]);
    Extend(s1, CreateFind(0, Some("j")), s2);
    var s3 := Sys(1, 0, NO_TABLES, map[0 := Creating("w", "a", "v", total, PLAN, "j", [Placed("t", "w", "a")])]);
    ReserveStep(total, s2, s3);
    Extend(s2, CreateReserve(0, "t", Some("w"), false), s3);
    CommitStep(total, s3);
  }

  lemma ReserveStep(total: int, s2: System, s3: System)
    requires s2 == Sys(0, 0, NO_TABLES, map[0 := Creating("w", "a", "v", total, PLAN, "j", [])])
    requires s3 == Sys(1, 0, NO_TABLES, map[0 := Creating("w", "a", "v", total, PLAN, "j", [Placed("t", "w", "a")])])
    ensures DoCreateReserve(s2, 0, "t", Some("w"), false) == s3
  {
    assert Reserve(s2.workers, "w", 0) == s3.workers;
    assert [] + [Placed("t", "w", "a")] == [Placed("t", "w", "a")];
    assert s2.calls[0 := s3.calls[0]] == s3.calls;
  }

  lemma CommitStep(total: int, s3: System)
    requires Reached(s3)
    requires s3 == Sys(1, 0, NO_TABLES, map[0 := Creating("w", "a", "v", total, PLAN, "j", [Placed("t", "w", "a")])])
    ensures Reached(Sys(1, 0, Tables1(total, SegmentAssigned, Assigned), map[0 := MADE]))
  {
    var built := BuiltTasks("j", PLAN, [Placed("t", "w", "a")]);
    assert built == [NamedTask("t", Task("j", ProcessSegment, 0, "w", "a", Assigned, 0, "", 0, 0))];
    assert built[1..] == [];
    assert InsertTasks(map[], built) == Tables1(total, SegmentAssigned, Assigned).tasks;
    assert BuiltJob(s3.calls[0]).taskIDs == ["t"];
    Extend(s3, CreateCommit(0), Sys(1, 0, Tables1(total, SegmentAssigned, Assigned), map[0 := MADE]));
  }

  lemma SegmentDoneReached(total: int)
    ensures Reached(Sys(0, 0, Tables1(total, SegmentCompleted, Completed), map[0 := MADE, 1 := AssembleReady("j")]))
  {
    CreateJobReached(total);
    var s4 := Sys(1, 0, Tables1(total, SegmentAssigned, Assigned), map[0 := MADE]);
    var s5 := Sys(1, 0, Tables1(total, SegmentCompleted, Completed), map[0 := MADE, 1 := SegmentReleasing("w", "j", true)]);
    CompleteStep(total, s4.tables, s5.tables);
    assert s4.calls[1 := s5.calls[1]] == s5.calls;
    Extend(s4, SegmentCompletes(1, "t", "w", REPORT), s5);
    var s6 := Sys(0, 0, Tables1(total, SegmentCompleted, Completed), map[0 := MADE, 1 := AssembleReady("j")]);
    assert Release(s5.workers, "w", 0) == s6.workers;
    assert s5.calls[1 := s6.calls[1]] == s6.calls;
    Extend(s5, SegmentRelease(1), s6);
  }

  lemma CompleteStep(total: int, tb: Tables, tb': Tables)
    requires tb == Tables1(total, SegmentAssigned, Assigned) && tb' == Tables1(total, SegmentCompleted, Completed)
    ensures Complete(tb, "t", "w", REPORT) == Ok((tb', true))
  {
    assert tb'.tasks == tb.tasks["t" := tb'.tasks["t"]];
    assert AllComplete(tb'.tasks, ["t"]);
    assert tb'.jobs == tb.jobs["j" := tb'.jobs["j"]];
  }

  lemma PickedReached(total: int)
    requires DiskEstimate.Estimate(total, [0]) <= 100
    ensures var disk := DiskEstimate.Estimate(total, [0]);
            Reached(Sys(1, disk, Tables1(total, SegmentCompleted, Completed),
                        map[0 := MADE, 1 := AssembleReserved("j", SEGMENTS, "w", "a", disk)]))
  {
    var disk := DiskEstimate.Estimate(total, [0]);
    SegmentDoneReached(total);
    var s6 := Sys(0, 0, Tables1(total, SegmentCompleted, Completed), map[0 := MADE, 1 := AssembleReady("j")]);
    var s7 := Sys(0, 0, Tables1(total, SegmentCompleted, Completed), map[0 := MADE, 1 := AssembleSized("j", SEGMENTS, disk)]);
    SnapshotStep(total, s6, s7);
    Extend(s6, AssembleSnapshot(1), s7);
    var s8 := Sys(1, disk, Tables1(total, SegmentCompleted, Completed), map[0 := MADE, 1 := AssembleReserved("j", SEGMENTS, "w", "a", disk)]);
    PickStep(total, disk, s7, s8);
    Extend(s7, AssemblePick(1, Some("w")), s8);
  }

  lemma UnknownSize()
    ensures !DiskEstimate.AllKnown([0])
  {
    assert [0][0] == 0;
  }

  lemma NotifyingReached()
    ensures Reached(Sys(1, 1, Tables2(AssembleAssigned, Assigned, ""),
                        map[0 := MADE, 1 := AssembleNotifying("j", SEGMENTS, "w", 1, "u")]))
  {
    PickedReached(1);
    assert DiskEstimate.Estimate(1, [0]) == 1 by {
      UnknownSize();
    }
    var s8 := Sys(1, 1, Tables1(1, SegmentCompleted, Completed), map[0 := MADE, 1 := AssembleReserved("j", SEGMENTS, "w", "a", 1)]);
    var s9 := Sys(1, 1, Tables2(AssembleAssigned, Assigned, ""), map[0 := MADE, 1 := AssembleNotifying("j", SEGMENTS, "w", 1, "u")]);
    RecordStep(s8, s9);
    Extend(s8, AssembleRecord(1, "u"), s9);
  }

  lemma SnapshotStep(total: int, s6: System, s7: System)
    requires s6 == Sys(0, 0, Tables1(total, SegmentCompleted, Completed), map[0 := MADE, 1 := AssembleReady("j")])
    requires s7 == Sys(0, 0, Tables1(total, SegmentCompleted, Completed), map[0 := MADE, 1 := AssembleSized("j", SEGMENTS, DiskEstimate.Estimate(total, [0]))])
    ensures DoAssembleSnapshot(s6, 1) == s7
  {
    assert Refs(s6.tables.tasks, ["t"]) == SEGMENTS;
    assert Sizes(SEGMENTS) == [0];
    assert s6.calls[1 := s7.calls[1]] == s7.calls;
  }

  lemma PickStep(total: int, disk: int, s7: System, s8: System)
    requires disk <= 100
    requires s7 == Sys(0, 0, Tables1(total, SegmentCompleted, Completed), map[0 := MADE, 1 := AssembleSized("j", SEGMENTS, disk)])
    requires s8 == Sys(1, disk, Tables1(total, SegmentCompleted, Completed), map[0 := MADE, 1 := AssembleReserved("j", SEGMENTS, "w", "a", disk)])
    ensures IsBestDisk(s7.workers, AssembleGif, disk, "w") && DoAssemblePick(s7, 1, Some("w")) == s8
  {
  }

  lemma RecordStep(s8: System, s9: System)
    requires s8 == Sys(1, 1, Tables1(1, SegmentCompleted, Completed), map[0 := MADE, 1 := AssembleReserved("j", SEGMENTS, "w", "a", 1)])
    requires s9 == Sys(1, 1, Tables2(AssembleAssigned, Assigned, ""), map[0 := MADE, 1 := AssembleNotifying("j", SEGMENTS, "w", 1, "u")])
    ensures DoAssembleRecord(s8, 1, "u") == s9
  {
    assert ["t"] + ["u"] == ["t", "u"];
    assert s8.tables.tasks["u" := s9.tables.tasks["u"]] == s9.tables.tasks;
    assert s8.tables.jobs["j" := s9.tables.jobs["j"]] == s9.tables.jobs;
    assert s8.calls[1 := s9.calls[1]] == s9.calls;
  }

  lemma ReportReadyReached()
    ensures Reached(Sys(1, 1, Tables2(AssembleAssigned, Assigned, ""),
                        map[0 := MADE, 1 := AssembleNotifying("j", SEGMENTS, "w", 1, "u"), 2 := ReportReady("j", "w", "a", "")]))
  {
    NotifyingReached();
    var n := AssembleNotifying("j", SEGMENTS, "w", 1, "u");
    var s9 := Sys(1, 1, Tables2(AssembleAssigned, Assigned, ""), map[0 := MADE, 1 := n]);
    var s10 := Sys(1, 1, Tables2(AssembleAssigned, Assigned, ""), map[0 := MADE, 1 := n, 2 := ReportReady("j", "w", "a", "")]);
    assert s9.calls[2 := s10.calls[2]] == s10.calls;
    Extend(s9, ReportBegin(2, "j", "w", ""), s10);
  }

  lemma ReportedReached()
    ensures Reached(Sys(1, 1, Tables2(JobCompleted, Completed, "w"),
                        map[0 := MADE, 1 := AssembleNotifying("j", SEGMENTS, "w", 1, "u"), 2 := ReportReleasing("w", 1)]))
  {
    ReportReadyReached();
    var n := AssembleNotifying("j", SEGMENTS, "w", 1, "u");
    var s10 := Sys(1, 1, Tables2(AssembleAssigned, Assigned, ""), map[0 := MADE, 1 := n, 2 := ReportReady("j", "w", "a", "")]);
    var s11 := Sys(1, 1, Tables2(JobCompleted, Completed, "w"), map[0 := MADE, 1 := n, 2 := ReportReleasing("w", 1)]);
    ReportStep1(s10.tables, s11.tables);
    assert s10.calls[2 := s11.calls[2]] == s11.calls;
    Extend(s10, ReportSuccess(2), s11);
  }

  lemma ReportStep1(tb: Tables, tb': Tables)
    requires tb == Tables2(AssembleAssigned, Assigned, "") && tb' == Tables2(JobCompleted, Completed, "w")
    ensures ReportComplete(tb, "j", "w", "a", "") == Ok((tb', "u"))
  {
    FirstAssembleIs(tb.tasks, ["t", "u"], 1);
    assert ResultName("j", "") == "j.gif";
    assert tb.tasks["u" := tb'.tasks["u"]] == tb'.tasks;
    assert tb.jobs["j" := tb'.jobs["j"]] == tb'.jobs;
  }

  /** The start call errs now: the completed job becomes failed and a surplus release is pending. */
  lemma SurplusReached()
    ensures Reached(Sys(1, 1, Tables2(JobFailed, Completed, "w"),
                        map[0 := MADE, 1 := AssembleCancelling("w", 1, true), 2 := ReportReleasing("w", 1)]))
  {
    ReportedReached();
    var s11 := Sys(1, 1, Tables2(JobCompleted, Completed, "w"),
                   map[0 := MADE, 1 := AssembleNotifying("j", SEGMENTS, "w", 1, "u"), 2 := ReportReleasing("w", 1)]);
    Extend(s11, AssembleStartErrs(1), Sys(1, 1, Tables2(JobFailed, Completed, "w"),
                                          map[0 := MADE, 1 := AssembleCancelling("w", 1, true), 2 := ReportReleasing("w", 1)]));
  }

  /** So the ledger is not exact in every run, and "completed" is not final in every run. */
  lemma UncleanStartBreaksExactness()
    ensures exists s :: Reached(s) && !AllBalanced(s, Slot)
    ensures exists s, a :: Reached(s) && Enabled(s, a) && "j" in s.tables.jobs && s.tables.jobs["j"].status == JobCompleted
              && "j" in Next(s, a).tables.jobs && Next(s, a).tables.jobs["j"].status == JobFailed
  {
    ReportedReached();
    var s11 := Sys(1, 1, Tables2(JobCompleted, Completed, "w"),
                   map[0 := MADE, 1 := AssembleNotifying("j", SEGMENTS, "w", 1, "u"), 2 := ReportReleasing("w", 1)]);
    var errs := AssembleStartErrs(1);
    assert Next(s11, errs).tables.jobs["j"].status == JobFailed;
    SurplusReached();
    var s12 := Sys(1, 1, Tables2(JobFailed, Completed, "w"),
                   map[0 := MADE, 1 := AssembleCancelling("w", 1, true), 2 := ReportReleasing("w", 1)]);
    SurplusUnbalances(s12);
  }

  lemma SurplusUnbalances(s: System)
    requires Reached(s) && 1 in s.calls && s.calls[1] == AssembleCancelling("w", 1, true)
    requires "w" in s.workers && s.workers["w"].reservedSlots == 1
    ensures exists s' :: Reached(s') && !AllBalanced(s', Slot)
  {
    var states, acts :| ReachedBy(states, acts, s);
    Reachable(states, acts, |acts|);
    LedgerBound(states, acts, |acts|, Slot);
    if AllBalanced(s, Slot) {
      BalanceStep(s, SettleRelease(1), Slot);
      assert TakesTwice(s, SettleRelease(1), "w", Slot);
      Extend(s, SettleRelease(1), Next(s, SettleRelease(1)));
    }
  }

  /** A source size large enough to overflow the estimate gets a negative reservation recorded, so
      the bound on disk does not hold in every run. */
  lemma OverflowBreaksBound()
    ensures exists s :: Reached(s) && "w" in s.workers && s.workers["w"].reservedDisk < 0
  {
    var total := DiskEstimate.TWO_63 / 12 + 1;
    DiskEstimate.EstimateCanOverflow();
    UnknownSize();
    assert DiskEstimate.Base(total, [0]) == DiskEstimate.Base(total, []);
    PickedReached(total);
    var disk := DiskEstimate.Estimate(total, [0]);
    var s := Sys(1, disk, Tables1(total, SegmentCompleted, Completed), map[0 := MADE, 1 := AssembleReserved("j", SEGMENTS, "w", "a", disk)]);
    assert s.workers["w"].reservedDisk == disk;
  }
}
