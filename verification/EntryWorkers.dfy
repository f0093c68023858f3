/** Which workers are online over whole runs, and what follows for the workers that are picked. */
module EntryWorkers {
  import opened Wrappers
  import opened Workers
  import opened Jobs
  import opened Entry
  import opened EntryInvariant
  import opened EntryLedger
  import opened EntryRuns

  predicate Online(s: System, w: string) {
    w in s.workers && s.workers[w].online
  }

  /** The worker is heard from again. */
  predicate ComesBack(s: System, a: Action, w: string) {
    || (a.Heartbeat? && a.worker == w)
    || (a.Register? && a.req.address in s.idByAddress && s.idByAddress[a.req.address] == w)
  }

  predicate Expires(a: Action, w: string) {
    a.ExpireSome? && w in a.late
  }

  /** A worker is online after a step exactly when it comes back, or was online and is not late. */
  lemma OnlineNext(s: System, a: Action, w: string)
    requires Inv(s) && Enabled(s, a) && w in s.workers
    ensures w in Next(s, a).workers
    ensures Online(Next(s, a), w) <==> ComesBack(s, a, w) || (Online(s, w) && !Expires(a, w))
  {
    if RegistryAction(a) {
      OnlineByRegistry(s, a, w);
    } else {
      SameOnline(s, a, w);
    }
  }

  lemma OnlineByRegistry(s: System, a: Action, w: string)
    requires AddressesOk(s) && Enabled(s, a) && RegistryAction(a) && w in s.workers
    ensures w in Next(s, a).workers
    ensures Online(Next(s, a), w) <==> ComesBack(s, a, w) || (Online(s, w) && !Expires(a, w))
  {
  }

  lemma SameOnline(s: System, a: Action, w: string)
    requires Enabled(s, a) && !RegistryAction(a) && w in s.workers
    ensures w in Next(s, a).workers && Online(Next(s, a), w) == Online(s, w)
  {
    if CreateAction(a) {
      SameOnlineByCreate(s, a, w);
    } else if SegmentAction(a) {
      SameOnlineBySegment(s, a, w);
    } else if ReportAction(a) {
      SameOnlineByReport(s, a, w);
    } else {
      SameOnlineByAssembly(s, a, w);
    }
  }

  lemma SameOnlineByCreate(s: System, a: Action, w: string)
    requires Enabled(s, a) && CreateAction(a) && w in s.workers
    ensures w in Next(s, a).workers && Online(Next(s, a), w) == Online(s, w)
  {
    match a
    case CreateUndo(c) => ReleaseAllKeys(s.workers, s.calls[c].owed);
    case CreateCommit(c) => ReleaseAllKeys(s.workers, WorkersOf(s.calls[c].placed));
    case _ =>
  }

  lemma SameOnlineBySegment(s: System, a: Action, w: string)
    requires Enabled(s, a) && SegmentAction(a) && w in s.workers
    ensures w in Next(s, a).workers && Online(Next(s, a), w) == Online(s, w)
  {
  }

  lemma SameOnlineByReport(s: System, a: Action, w: string)
    requires Enabled(s, a) && ReportAction(a) && w in s.workers
    ensures w in Next(s, a).workers && Online(Next(s, a), w) == Online(s, w)
  {
  }

  lemma SameOnlineByAssembly(s: System, a: Action, w: string)
    requires Enabled(s, a) && (AssembleAction(a) || a.SettleRelease?) && w in s.workers
    ensures w in Next(s, a).workers && Online(Next(s, a), w) == Online(s, w)
  {
  }

  /** The step gives the worker a segment or an assembly. */
  predicate Picks(a: Action, w: string) {
    (a.CreateReserve? && a.pick == Some(w)) || (a.AssemblePick? && a.pick == Some(w))
  }

  /** Only online workers that support the work are picked. */
  lemma PickedOnline(s: System, a: Action, w: string)
    requires Enabled(s, a) && Picks(a, w)
    ensures Online(s, w)
    ensures (if a.CreateReserve? then ProcessSegment else AssembleGif) in s.workers[w].supports
  {
    if a.AssemblePick? {
      assert Fits(s.workers, AssembleGif, s.calls[a.c].disk, w);
    } else {
      assert Eligible(s.workers, ProcessSegment, w);
    }
  }

  ghost predicate NotHeardFrom(states: seq<System>, acts: seq<Action>, m: nat, n: nat, w: string)
    requires |states| == |acts| + 1 && n <= |acts|
  {
    forall k {:trigger ComesBack(states[k], acts[k], w)} :: m < k < n ==> !ComesBack(states[k], acts[k], w)
  }

  lemma {:induction false} ExpiredStaysOffline(states: seq<System>, acts: seq<Action>, m: nat, n: nat, w: string)
    requires Run(states, acts) && m < n <= |acts| && Expires(acts[m], w) && w in states[m].workers
    requires NotHeardFrom(states, acts, m, n, w)
    ensures w in states[n].workers && !states[n].workers[w].online
    decreases n
  {
    Reachable(states, acts, n - 1);
    assert Moves(states, acts, n - 1);
    if m < n - 1 {
      ExpiredStaysOffline(states, acts, m, n - 1, w);
    }
    OnlineNext(states[n - 1], acts[n - 1], w);
  }

  /** A worker that expired is given nothing until it registers or sends a heartbeat again. */
  lemma ExpiredNotPicked(states: seq<System>, acts: seq<Action>, m: nat, n: nat, w: string)
    requires Run(states, acts) && m < n < |acts| && Expires(acts[m], w) && w in states[m].workers
    requires NotHeardFrom(states, acts, m, n, w)
    ensures !Picks(acts[n], w)
  {
    ExpiredStaysOffline(states, acts, m, n, w);
    assert Moves(states, acts, n);
    if Picks(acts[n], w) {
      PickedOnline(states[n], acts[n], w);
    }
  }
}
