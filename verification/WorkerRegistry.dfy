/** The worker registry. Scans visit the workers in an arbitrary order, as Go's map iteration
    does; each method is proved against a rule that does not mention that order. */
module Registry {
  import opened Wrappers
  import opened Sums
  import opened Text
  import opened Workers
  import opened Jobs

  // ----- bulk reservation: what it is measured by -----

  function Spare(ws: Table, kind: TaskKind, id: string): int
    requires id in ws
  {
    if Eligible(ws, kind, id) && ws[id].freeSlots > 0 then ws[id].freeSlots else 0
  }

  ghost function Spares(ws: Table, kind: TaskKind): map<string, int> {
    map id | id in ws :: Spare(ws, kind, id)
  }

  /** Free slots that eligible workers have to give. */
  ghost function Capacity(ws: Table, kind: TaskKind): int {
    Sum(Spares(ws, kind))
  }

  /** The table after one slot was reserved for each listed id. */
  function Taken(ws: Table, ids: seq<string>): Table {
    map id | id in ws :: if Count(ids, id) == 0 then ws[id] else WithBusy(ws[id], ws[id].reservedSlots + Count(ids, id))
  }

  ghost predicate AllEligible(ws: Table, kind: TaskKind, ids: seq<string>) {
    forall i :: 0 <= i < |ids| ==> Eligible(ws, kind, ids[i])
  }

  /** No eligible worker has more than one free slot more than any chosen one. */
  ghost predicate Leveled(ws: Table, kind: TaskKind, chosen: seq<string>) {
    forall i, v :: 0 <= i < |chosen| && chosen[i] in ws && Eligible(ws, kind, v) ==>
      ws[v].freeSlots <= ws[chosen[i]].freeSlots + 1
  }

  /** Taking one more slot from a worker that has one. */
  lemma TakeOne(ws0: Table, kind: TaskKind, ids: seq<string>, id: string)
    requires FreeDerived(ws0) && Eligible(ws0, kind, id)
    requires var ws := Taken(ws0, ids); ws[id].freeSlots > 0
    ensures var ws := Taken(ws0, ids); var ws' := Taken(ws0, ids + [id]);
            && ws' == ws[id := WithBusy(ws[id], ws[id].reservedSlots + 1)]
            && ws'[id].freeSlots == ws[id].freeSlots - 1
            && Capacity(ws', kind) == Capacity(ws, kind) - 1
  {
    TakenAppend(ws0, ids, id);
    var ws, ws' := Taken(ws0, ids), Taken(ws0, ids + [id]);
    assert Spares(ws', kind) == Spares(ws, kind)[id := Spare(ws', kind, id)];
    SumUpdate(Spares(ws, kind), id, Spare(ws', kind, id));
  }

  lemma TakenAppend(ws0: Table, ids: seq<string>, id: string)
    requires id in ws0
    ensures var ws := Taken(ws0, ids); Taken(ws0, ids + [id]) == ws[id := WithBusy(ws[id], ws[id].reservedSlots + 1)]
  {
    var ws, ws' := Taken(ws0, ids), Taken(ws0, ids + [id]);
    forall o | o in ws0 ensures ws'[o] == if o == id then WithBusy(ws[id], ws[id].reservedSlots + 1) else ws[o] {
      CountAppend(ids, [id], o);
    }
  }

  /** Giving back the first of the slots taken. */
  lemma GiveBackOne(ws0: Table, kind: TaskKind, ids: seq<string>)
    requires FreeDerived(ws0) && ids != [] && Eligible(ws0, kind, ids[0])
    ensures var ws := Taken(ws0, ids);
            Taken(ws0, ids[1..]) == ws[ids[0] := WithBusy(ws[ids[0]], ws[ids[0]].reservedSlots - 1)]
  {
  }

  lemma TakenNone(ws: Table)
    ensures Taken(ws, []) == ws
  {
  }

  lemma NothingSpare(ws: Table, kind: TaskKind)
    requires forall id :: Eligible(ws, kind, id) ==> ws[id].freeSlots <= 0
    ensures Capacity(ws, kind) == 0
  {
    SumZero(Spares(ws, kind));
  }

  lemma CapacityNonNegative(ws: Table, kind: TaskKind)
    ensures Capacity(ws, kind) >= 0
  {
    SumAtLeast(Spares(ws, kind), "");
  }

  /** An eligible worker with a positive and largest number of free slots. */
  ghost predicate HasMostFree(ws: Table, kind: TaskKind, id: string) {
    && Eligible(ws, kind, id) && ws[id].freeSlots > 0
    && forall o :: Eligible(ws, kind, o) ==> ws[o].freeSlots <= ws[id].freeSlots
  }

  // ----- what workers send -----

  /** `addressValid` is the verdict of the host and port parser. */
  datatype RegisterRequest = RegisterRequest(
    address: string, addressValid: bool, totalSlots: int, supports: seq<string>, diskFree: int)

  datatype Refusal = InvalidAddress | InvalidTask | NoWorkerID | UnknownWorker

  function KindOf(name: string): Option<TaskKind> {
    if name == "process_segment" then Some(ProcessSegment)
    else if name == "assemble_gif" then Some(AssembleGif)
    else None
  }

  /** The kinds of these names, if every one is supported. */
  function Kinds(names: seq<string>): Option<seq<TaskKind>> {
    if names == [] then Some([])
    else match KindOf(names[0])
      case None => None
      case Some(kind) =>
        match Kinds(names[1..])
        case None => None
        case Some(more) => Some([kind] + more)
  }

  /** The kinds are those the names say, in order. */
  predicate KindsNamed(kinds: seq<TaskKind>, names: seq<string>) {
    && |kinds| == |names|
    && forall i :: 0 <= i < |names| ==>
         names[i] == match kinds[i] case ProcessSegment => "process_segment" case AssembleGif => "assemble_gif"
  }

  lemma {:induction false} KindsMeans(names: seq<string>)
    ensures Kinds(names).Some? <==> forall i :: 0 <= i < |names| ==> names[i] in {"process_segment", "assemble_gif"}
    ensures Kinds(names).Some? ==> KindsNamed(Kinds(names).value, names)
  {
    if names != [] {
      KindsMeans(names[1..]);
      assert forall i :: 1 <= i < |names| ==> names[i] == names[1..][i - 1];
    }
  }

  // ----- the registry -----

  class WorkerRegistry {
    var byID: Table
    var idByAddr: map<string, string>

    constructor ()
      ensures byID == map[] && idByAddr == map[]
    {
      byID := map[];
      idByAddr := map[];
    }

    /** Registers a worker under a fresh id, or refreshes the one known at that address. Invalid
        requests are refused first; an id is drawn only for a new address. */
    method RegisterWorker(req: RegisterRequest, newID: Option<string>) returns (r: Result<(string, bool), Refusal>)
      requires newID.Some? ==> newID.value !in byID
      requires forall a :: a in idByAddr ==> idByAddr[a] in byID
      modifies this
      ensures r == if !req.addressValid then Err(InvalidAddress)
                   else if Kinds(req.supports).None? then Err(InvalidTask)
                   else if req.address in old(idByAddr) then Ok((old(idByAddr)[req.address], true))
                   else if newID.None? then Err(NoWorkerID)
                   else Ok((newID.value, false))
      ensures r.Err? ==> byID == old(byID) && idByAddr == old(idByAddr)
      ensures r.Ok? ==>
                var reg := Registration(req.address, req.totalSlots, Kinds(req.supports).value, req.diskFree);
                if r.value.1 then
                  idByAddr == old(idByAddr) && byID == old(byID)[r.value.0 := Reregistered(old(byID)[r.value.0], reg)]
                else
                  idByAddr == old(idByAddr)[req.address := r.value.0] && byID == old(byID)[r.value.0 := NewWorker(reg)]
      ensures r.Ok? ==>
                && r.value.0 in byID && byID == old(byID)[r.value.0 := byID[r.value.0]]
                && var w := byID[r.value.0];
                && w.online && w.totalSlots == req.totalSlots && w.diskFree == req.diskFree
                && w.freeSlots == req.totalSlots - w.reservedSlots && KindsNamed(w.supports, req.supports)
                && if r.value.1 then
                     var was := old(byID)[r.value.0];
                     w.address == was.address && w.reservedSlots == was.reservedSlots && w.reservedDisk == was.reservedDisk
                   else w.address == req.address && w.reservedSlots == 0 && w.reservedDisk == 0
    {
      if !req.addressValid {
        return Err(InvalidAddress);
      }
      var kinds := SupportedKinds(req.supports);
      if kinds.None? {
        return Err(InvalidTask);
      }
      if req.address in idByAddr {
        var id := idByAddr[req.address];
        var worker := byID[id];
        worker := worker.(totalSlots := req.totalSlots, supports := kinds.value, diskFree := req.diskFree);
        worker := worker.(freeSlots := req.totalSlots - worker.reservedSlots, online := true);
        byID := byID[id := worker];
        return Ok((id, true));
      }
      if newID.None? {
        return Err(NoWorkerID);
      }
      var id := newID.value;
      byID := byID[id := Worker(req.address, req.totalSlots, kinds.value, req.diskFree, req.totalSlots, true, 0, 0)];
      idByAddr := idByAddr[req.address := id];
      return Ok((id, false));
    }

    /** The check that every named task kind is supported. */
    static method SupportedKinds(names: seq<string>) returns (kinds: Option<seq<TaskKind>>)
      ensures kinds == Kinds(names)
      ensures kinds.Some? <==> forall i :: 0 <= i < |names| ==> names[i] in {"process_segment", "assemble_gif"}
      ensures kinds.Some? ==> KindsNamed(kinds.value, names)
    {
      KindsMeans(names);
      var found: seq<TaskKind> := [];
      assert names[0..] == names && (Kinds(names).Some? ==> [] + Kinds(names).value == Kinds(names).value);
      for i := 0 to |names|
        invariant Kinds(names) == (match Kinds(names[i..]) case None => None case Some(more) => Some(found + more))
      {
        assert names[i..][1..] == names[i + 1..];
        var kind := KindOf(names[i]);
        if kind.None? {
          return None;
        }
        if Kinds(names[i + 1..]).Some? {
          assert found + ([kind.value] + Kinds(names[i + 1..]).value) == (found + [kind.value]) + Kinds(names[i + 1..]).value;
        }
        found := found + [kind.value];
      }
      assert found + [] == found;
      return Some(found);
    }

    /** Takes workers that have not been heard from in time offline. */
    method MarkExpiredWorkers(late: set<string>) returns (expired: nat)
      modifies this`byID
      ensures byID == Expire(old(byID), late)
      ensures expired == |set id | id in old(byID) && id in late && old(byID)[id].online|
      ensures byID.Keys == old(byID).Keys
      ensures forall id :: id in byID ==>
                if id in late && old(byID)[id].online then byID[id] == old(byID)[id].(online := false, freeSlots := 0)
                else byID[id] == old(byID)[id]
      ensures forall id, kind :: id in late ==> !Eligible(byID, kind, id)
    {
      expired := 0;
      var rest := byID.Keys;
      ghost var gone: set<string> := {};
      while rest != {}
        invariant rest <= old(byID).Keys && byID.Keys == old(byID).Keys
        invariant forall id :: id in byID ==> byID[id] == if id in rest then old(byID)[id] else Expire(old(byID), late)[id]
        invariant gone == set id | id in old(byID) && id !in rest && id in late && old(byID)[id].online
        invariant expired == |gone|
        decreases rest
      {
        var id :| id in rest;
        rest := rest - {id};
        if byID[id].online && id in late {
          byID := byID[id := byID[id].(online := false, freeSlots := 0)];
          expired := expired + 1;
          gone := gone + {id};
        }
      }
      assert gone == set id | id in old(byID) && id in late && old(byID)[id].online;
    }

    method ReserveWorkerSlots(workerID: string, kind: TaskKind, count: int) returns (ok: bool)
      modifies this`byID
      ensures ok == (count <= 0 || Eligible(old(byID), kind, workerID))
      ensures byID == if count > 0 && ok
                      then old(byID)[workerID := WithBusy(old(byID)[workerID], old(byID)[workerID].reservedSlots + count)]
                      else old(byID)
    {
      if count <= 0 {
        return true;
      }
      if workerID !in byID || !byID[workerID].online || kind !in byID[workerID].supports {
        return false;
      }
      byID := byID[workerID := WithBusy(byID[workerID], byID[workerID].reservedSlots + count)];
      ok := true;
    }

    /** Places one external segment: least busy eligible worker, the source only as a last resort. */
    method ReserveLeastBusyWorker(kind: TaskKind, fallback: string) returns (picked: Option<string>)
      modifies this`byID
      ensures picked.Some? ==> IsLeastBusy(old(byID), kind, fallback, picked.value)
                               && byID == Reserve(old(byID), picked.value, 0)
      ensures picked.None? ==> (forall id :: !Eligible(old(byID), kind, id)) && byID == old(byID)
      ensures picked.Some? ==> ChosenForSegment(old(byID), kind, fallback, picked.value)
    {
      var rest := byID.Keys;
      picked := None;
      while rest != {}
        invariant rest <= byID.Keys && byID == old(byID)
        invariant picked.None? ==> forall id :: id !in rest ==> !Eligible(byID, kind, id)
        invariant picked.Some? ==> BestSoFar(byID, rest, kind, fallback, picked.value)
        decreases rest
      {
        var id :| id in rest;
        rest := rest - {id};
        if !byID[id].online || kind !in byID[id].supports {
          continue;
        }
        if id == fallback && picked.Some? {
          continue;
        }
        if picked.None?
           || (picked.value == fallback && id != fallback)
           || byID[id].reservedSlots < byID[picked.value].reservedSlots
           || (byID[id].reservedSlots == byID[picked.value].reservedSlots && Before(id, picked.value))
        {
          if picked.Some? {
            LessBusyFrom(byID, id, picked.value);
          }
          picked := Some(id);
        } else {
          BeforeTrichotomy(id, picked.value);
        }
      }
      if picked.None? && fallback != "" {
        if fallback in byID && byID[fallback].online && kind in byID[fallback].supports {
          picked := Some(fallback);
        }
      }
      if picked.None? {
        return;
      }
      LeastBusyMeans(byID, kind, fallback, picked.value);
      var best := byID[picked.value];
      byID := byID[picked.value := WithBusy(best, best.reservedSlots + 1)];
    }

    /** Places an assembly: among workers with enough schedulable disk the least busy one, then
        the one with most disk, then the smallest id. */
    method PickWorkerForDiskReservation(kind: TaskKind, required: int) returns (picked: Option<string>)
      modifies this`byID
      ensures picked.Some? ==> IsBestDisk(old(byID), kind, required, picked.value)
                               && byID == Reserve(old(byID), picked.value, required)
                               && byID[picked.value].reservedDisk <= byID[picked.value].diskFree
      ensures picked.None? ==> (forall id :: !Fits(old(byID), kind, required, id)) && byID == old(byID)
      ensures picked.Some? ==> ChosenForAssembly(old(byID), kind, required, picked.value)
    {
      var rest := byID.Keys;
      picked := None;
      var bestDisk := 0;
      while rest != {}
        invariant rest <= byID.Keys && byID == old(byID)
        invariant picked.None? ==> forall id :: id !in rest ==> !Fits(byID, kind, required, id)
        invariant picked.Some? ==>
                    && picked.value !in rest && Fits(byID, kind, required, picked.value)
                    && bestDisk == SchedulableDisk(byID[picked.value])
                    && forall o :: o !in rest && o != picked.value && Fits(byID, kind, required, o) ==> BetterDisk(byID, picked.value, o)
        decreases rest
      {
        var id :| id in rest;
        rest := rest - {id};
        var worker := byID[id];
        if !worker.online || kind !in worker.supports {
          continue;
        }
        var schedulable := worker.diskFree - worker.reservedDisk;
        if schedulable < required {
          continue;
        }
        if picked.None?
           || worker.reservedSlots < byID[picked.value].reservedSlots
           || (worker.reservedSlots == byID[picked.value].reservedSlots && schedulable > bestDisk)
           || (worker.reservedSlots == byID[picked.value].reservedSlots && schedulable == bestDisk && Before(id, picked.value))
        {
          if picked.Some? {
            BetterDiskFrom(byID, id, picked.value);
          }
          picked, bestDisk := Some(id), schedulable;
        } else {
          BeforeTrichotomy(id, picked.value);
        }
      }
      if picked.None? {
        return;
      }
      BestDiskMeans(byID, kind, required, picked.value);
      var best := byID[picked.value];
      byID := byID[picked.value := WithBusy(best, best.reservedSlots + 1).(reservedDisk := best.reservedDisk + required)];
    }

    /** Reserves `count` slots at once, always from a worker with most free slots, or none at all. */
    method PickWorkersForReservation(kind: TaskKind, count: int) returns (selected: seq<string>, ok: bool)
      requires FreeDerived(byID)
      modifies this`byID
      ensures ok <==> count <= 0 || Capacity(old(byID), kind) >= count
      ensures ok ==> |selected| == (if count <= 0 then 0 else count)
                     && AllEligible(old(byID), kind, selected)
                     && byID == Taken(old(byID), selected) && Leveled(byID, kind, selected)
      ensures !ok ==> byID == old(byID)
    {
      selected := [];
      if count <= 0 {
        TakenNone(byID);
        return [], true;
      }
      ghost var ws0 := byID;
      TakenNone(ws0);
      while |selected| < count
        invariant |selected| <= count && Progress(ws0, byID, kind, selected)
      {
        var best := ReserveMostFree(ws0, kind, selected);
        if best.None? {
          NothingSpare(byID, kind);
          GiveBack(ws0, kind, selected);
          return selected, false;
        }
        selected := selected + [best.value];
      }
      CapacityNonNegative(byID, kind);
      ok := true;
    }

    /** One round: find a worker with most free slots and take one of them. */
    method ReserveMostFree(ghost ws0: Table, kind: TaskKind, ghost selected: seq<string>) returns (best: Option<string>)
      requires Progress(ws0, byID, kind, selected)
      modifies this`byID
      ensures best.None? ==> byID == old(byID) && forall id :: Eligible(byID, kind, id) ==> byID[id].freeSlots <= 0
      ensures best.Some? ==> Progress(ws0, byID, kind, selected + [best.value])
    {
      best := MostFree(kind);
      if best.None? {
        return;
      }
      TakeSlot(ws0, kind, selected, best.value);
    }

    method TakeSlot(ghost ws0: Table, kind: TaskKind, ghost selected: seq<string>, id: string)
      requires Progress(ws0, byID, kind, selected) && HasMostFree(byID, kind, id)
      modifies this`byID
      ensures Progress(ws0, byID, kind, selected + [id])
    {
      ghost var ws := byID;
      byID := byID[id := WithBusy(byID[id], byID[id].reservedSlots + 1)];
      ProgressKept(ws0, ws, byID, kind, selected, id);
    }

    /** The roll-back: one slot back per reservation made. */
    method GiveBack(ghost ws0: Table, kind: TaskKind, selected: seq<string>)
      requires FreeDerived(ws0) && AllEligible(ws0, kind, selected) && byID == Taken(ws0, selected)
      modifies this`byID
      ensures byID == ws0
    {
      var i := 0;
      while i < |selected|
        invariant 0 <= i <= |selected| && byID == Taken(ws0, selected[i..])
      {
        GiveBackOne(ws0, kind, selected[i..]);
        assert selected[i..][1..] == selected[i + 1..];
        var worker := byID[selected[i]];
        byID := byID[selected[i] := WithBusy(worker, worker.reservedSlots - 1)];
        i := i + 1;
      }
      TakenNone(ws0);
    }

    /** The inner scan: some eligible worker with a positive and largest number of free slots. */
    method MostFree(kind: TaskKind) returns (best: Option<string>)
      ensures best.None? ==> forall id :: Eligible(byID, kind, id) ==> byID[id].freeSlots <= 0
      ensures best.Some? ==> HasMostFree(byID, kind, best.value)
    {
      var rest := byID.Keys;
      best := None;
      while rest != {}
        invariant rest <= byID.Keys
        invariant best.None? ==> forall id :: id !in rest && Eligible(byID, kind, id) ==> byID[id].freeSlots <= 0
        invariant best.Some? ==>
                    && Eligible(byID, kind, best.value) && byID[best.value].freeSlots > 0
                    && forall id :: id !in rest && Eligible(byID, kind, id) ==> byID[id].freeSlots <= byID[best.value].freeSlots
        decreases rest
      {
        var id :| id in rest;
        rest := rest - {id};
        if !byID[id].online || byID[id].freeSlots <= 0 || kind !in byID[id].supports {
          continue;
        }
        if best.None? || byID[id].freeSlots > byID[best.value].freeSlots {
          best := Some(id);
        }
      }
    }

    /** `metrics` and `running` are the task kinds the report names. */
    method HeartbeatWorker(id: string, diskFree: int, metrics: set<string>,
                           running: seq<string>) returns (r: Result<(), Refusal>)
      modifies this`byID
      ensures r == if (exists name :: name in metrics && KindOf(name).None?) || Kinds(running).None? then Err(InvalidTask)
                   else if id !in old(byID) then Err(UnknownWorker)
                   else Ok(())
      ensures byID == if r.Ok? then old(byID)[id := HeartBeaten(old(byID)[id], diskFree)] else old(byID)
      ensures FreeDerived(old(byID)) ==> FreeDerived(byID)
      ensures r.Ok? ==>
                var was, now := old(byID)[id], byID[id];
                && now.online && now.diskFree == diskFree && now.freeSlots == was.totalSlots - was.reservedSlots
                && now.address == was.address && now.totalSlots == was.totalSlots && now.supports == was.supports
                && now.reservedSlots == was.reservedSlots && now.reservedDisk == was.reservedDisk
    {
      var rest := metrics;
      while rest != {}
        invariant rest <= metrics && forall name :: name in metrics && name !in rest ==> KindOf(name).Some?
        decreases rest
      {
        var name :| name in rest;
        if KindOf(name).None? {
          return Err(InvalidTask);
        }
        rest := rest - {name};
      }
      var kinds := SupportedKinds(running);
      if kinds.None? {
        return Err(InvalidTask);
      }
      if id !in byID {
        return Err(UnknownWorker);
      }
      var worker := byID[id];
      worker := worker.(freeSlots := worker.totalSlots - worker.reservedSlots);
      worker := worker.(diskFree := diskFree, online := true);
      byID := byID[id := worker];
      return Ok(());
    }

    method UpdateWorkerObservedDiskFree(id: string, diskFree: int)
      modifies this`byID
      ensures byID == if id in old(byID) then old(byID)[id := old(byID)[id].(diskFree := diskFree)] else old(byID)
    {
      if id in byID {
        byID := byID[id := byID[id].(diskFree := diskFree)];
      }
    }

    method ReleaseReservations(ids: seq<string>)
      modifies this`byID
      ensures byID == ReleaseAll(old(byID), ids)
    {
      var i := 0;
      while i < |ids|
        invariant 0 <= i <= |ids|
        invariant ReleaseAll(byID, ids[i..]) == ReleaseAll(old(byID), ids)
      {
        assert ids[i..][1..] == ids[i + 1..];
        if ids[i] in byID {
          var worker := byID[ids[i]];
          if worker.reservedSlots > 0 {
            worker := worker.(reservedSlots := worker.reservedSlots - 1);
          }
          worker := worker.(freeSlots := worker.totalSlots - worker.reservedSlots);
          byID := byID[ids[i] := worker];
        }
        i := i + 1;
      }
    }

    method ReleaseReservation(id: string, disk: int)
      modifies this`byID
      ensures byID == Release(old(byID), id, disk)
      ensures id in old(byID) ==>
                && id in byID && byID == old(byID)[id := byID[id]]
                && var was, now := old(byID)[id], byID[id];
                && now.reservedSlots == (if was.reservedSlots > 0 then was.reservedSlots - 1 else was.reservedSlots)
                && (disk > 0 ==> now.reservedDisk == if was.reservedDisk >= disk then was.reservedDisk - disk else 0)
                && (disk <= 0 ==> now.reservedDisk == was.reservedDisk)
                && now.freeSlots == was.totalSlots - now.reservedSlots
                && now.online == was.online && now.address == was.address && now.diskFree == was.diskFree
    {
      if id !in byID {
        return;
      }
      var worker := byID[id];
      if worker.reservedSlots > 0 {
        worker := worker.(reservedSlots := worker.reservedSlots - 1);
      }
      if disk > 0 {
        worker := worker.(reservedDisk := worker.reservedDisk - disk);
        if worker.reservedDisk < 0 {
          worker := worker.(reservedDisk := 0);
        }
      }
      worker := worker.(freeSlots := worker.totalSlots - worker.reservedSlots);
      byID := byID[id := worker];
    }
  }

  // ----- the rules in plain terms -----

  /** Online and capable, and behind nobody but the source: not behind in reservations, and in a tie
      not behind in the order of ids. The source itself only when there is nobody else. */
  ghost predicate ChosenForSegment(ws: Table, kind: TaskKind, source: string, p: string) {
    && p in ws && ws[p].online && kind in ws[p].supports
    && forall o :: o in ws && o != p && o != source && ws[o].online && kind in ws[o].supports ==>
         && p != source
         && ws[p].reservedSlots <= ws[o].reservedSlots
         && (ws[p].reservedSlots == ws[o].reservedSlots ==> Before(p, o))
  }

  lemma LeastBusyMeans(ws: Table, kind: TaskKind, source: string, p: string)
    ensures IsLeastBusy(ws, kind, source, p) <==> ChosenForSegment(ws, kind, source, p)
  {
    forall o ensures Eligible(ws, kind, o) <==> o in ws && ws[o].online && kind in ws[o].supports {
    }
  }

  /** Online, capable and with enough free disk that is not promised to others; among such workers
      fewest reservations, then most of that disk, then the smallest id. */
  ghost predicate ChosenForAssembly(ws: Table, kind: TaskKind, required: int, p: string) {
    && p in ws && ws[p].online && kind in ws[p].supports && ws[p].diskFree - ws[p].reservedDisk >= required
    && forall o :: o in ws && o != p && ws[o].online && kind in ws[o].supports
                   && ws[o].diskFree - ws[o].reservedDisk >= required ==>
         && ws[p].reservedSlots <= ws[o].reservedSlots
         && (ws[p].reservedSlots == ws[o].reservedSlots ==>
               var mine, theirs := ws[p].diskFree - ws[p].reservedDisk, ws[o].diskFree - ws[o].reservedDisk;
               mine >= theirs && (mine == theirs ==> Before(p, o)))
  }

  lemma BestDiskMeans(ws: Table, kind: TaskKind, required: int, p: string)
    ensures IsBestDisk(ws, kind, required, p) <==> ChosenForAssembly(ws, kind, required, p)
  {
    forall o ensures Fits(ws, kind, required, o) <==>
                     o in ws && ws[o].online && kind in ws[o].supports && ws[o].diskFree - ws[o].reservedDisk >= required {
    }
  }

  // ----- facts the scans use -----

  /** `b` is the choice among the workers already visited. */
  ghost predicate BestSoFar(ws: Table, rest: set<string>, kind: TaskKind, source: string, b: string) {
    && b !in rest && Eligible(ws, kind, b)
    && (b == source ==> forall o :: o !in rest && o != source ==> !Eligible(ws, kind, o))
    && (b != source ==> forall o :: o !in rest && o != source && o != b && Eligible(ws, kind, o) ==> LessBusy(ws, b, o))
  }

  /** What beats the best so far beats everything that best had beaten. */
  lemma LessBusyFrom(ws: Table, a: string, b: string)
    requires a in ws && b in ws
    ensures LessBusy(ws, a, b) ==> forall o :: o in ws && LessBusy(ws, b, o) ==> LessBusy(ws, a, o)
  {
    if LessBusy(ws, a, b) {
      forall o | o in ws && LessBusy(ws, b, o) ensures LessBusy(ws, a, o) {
        if Before(a, b) && Before(b, o) {
          BeforeTransitive(a, b, o);
        }
      }
    }
  }

  lemma BetterDiskFrom(ws: Table, a: string, b: string)
    requires a in ws && b in ws
    ensures BetterDisk(ws, a, b) ==> forall o :: o in ws && BetterDisk(ws, b, o) ==> BetterDisk(ws, a, o)
  {
    if BetterDisk(ws, a, b) {
      forall o | o in ws && BetterDisk(ws, b, o) ensures BetterDisk(ws, a, o) {
        if Before(a, b) && Before(b, o) {
          BeforeTransitive(a, b, o);
        }
      }
    }
  }

  /** Taking from a worker with most free slots keeps the level. */
  lemma LevelKept(ws: Table, kind: TaskKind, chosen: seq<string>, id: string)
    requires Leveled(ws, kind, chosen) && Eligible(ws, kind, id)
    requires ws[id].freeSlots == ws[id].totalSlots - ws[id].reservedSlots
    requires forall o :: Eligible(ws, kind, o) ==> ws[o].freeSlots <= ws[id].freeSlots
    ensures Leveled(ws[id := WithBusy(ws[id], ws[id].reservedSlots + 1)], kind, chosen + [id])
  {
  }

  /** What the bulk reservation has achieved so far, starting from table `ws0`. */
  ghost predicate Progress(ws0: Table, ws: Table, kind: TaskKind, selected: seq<string>) {
    && FreeDerived(ws0) && AllEligible(ws0, kind, selected)
    && ws == Taken(ws0, selected) && Leveled(ws, kind, selected)
    && Capacity(ws, kind) + |selected| == Capacity(ws0, kind)
  }

  lemma ProgressKept(ws0: Table, ws: Table, ws': Table, kind: TaskKind, selected: seq<string>, id: string)
    requires Progress(ws0, ws, kind, selected) && HasMostFree(ws, kind, id)
    requires ws' == ws[id := WithBusy(ws[id], ws[id].reservedSlots + 1)]
    ensures Progress(ws0, ws', kind, selected + [id])
  {
    LevelKept(ws, kind, selected, id);
    EligibleStill(ws0, kind, selected, id);
    TakeOne(ws0, kind, selected, id);
  }

  lemma EligibleStill(ws0: Table, kind: TaskKind, selected: seq<string>, id: string)
    requires AllEligible(ws0, kind, selected) && Eligible(Taken(ws0, selected), kind, id)
    ensures AllEligible(ws0, kind, selected + [id])
  {
  }
}
