/** Workers as the registry records them, and what each registry critical section does to
    the table of workers. The selection rules are stated as predicates on the chosen worker,
    without reference to the order in which the table is scanned. */
module Workers {
  import opened Sums
  import opened Text

  datatype TaskKind = ProcessSegment | AssembleGif

  datatype Worker = Worker(
    address: string,
    totalSlots: int,
    supports: seq<TaskKind>,
    diskFree: int,
    freeSlots: int,
    online: bool,
    reservedSlots: int,
    reservedDisk: int)

  type Table = map<string, Worker>

  /** The two things a reservation holds on a worker. */
  datatype Resource = Slot | Disk

  function Held(w: Worker, r: Resource): int {
    if r == Slot then w.reservedSlots else w.reservedDisk
  }

  /** Writing a busy count always rewrites the derived free count with it. */
  function WithBusy(w: Worker, busy: int): Worker {
    w.(reservedSlots := busy, freeSlots := w.totalSlots - busy)
  }

  predicate Eligible(ws: Table, kind: TaskKind, id: string) {
    id in ws && ws[id].online && kind in ws[id].supports
  }

  // ----- reservations -----

  function Reserve(ws: Table, id: string, disk: int): Table
    requires id in ws
  {
    ws[id := WithBusy(ws[id], ws[id].reservedSlots + 1).(reservedDisk := ws[id].reservedDisk + disk)]
  }

  /** One release: the busy count stops at zero, disk is touched only by a positive amount and
      stops at zero too. */
  function Released(w: Worker, disk: int): Worker {
    WithBusy(w, if w.reservedSlots > 0 then w.reservedSlots - 1 else w.reservedSlots)
      .(reservedDisk := if disk <= 0 then w.reservedDisk
                        else if w.reservedDisk - disk < 0 then 0 else w.reservedDisk - disk)
  }

  function Release(ws: Table, id: string, disk: int): Table {
    if id in ws then ws[id := Released(ws[id], disk)] else ws
  }

  function ReleaseAll(ws: Table, ids: seq<string>): Table {
    if ids == [] then ws else ReleaseAll(Release(ws, ids[0], 0), ids[1..])
  }

  /** A batch release takes from each worker as many slots as the batch names it, down to zero,
      and nothing else. */
  lemma {:induction false} ReleaseAllHeld(ws: Table, ids: seq<string>, id: string)
    requires id in ws && 0 <= ws[id].reservedSlots
    ensures ReleaseAll(ws, ids).Keys == ws.Keys
    ensures var w, w' := ws[id], ReleaseAll(ws, ids)[id];
            && w'.reservedSlots == (if w.reservedSlots < Count(ids, id) then 0 else w.reservedSlots - Count(ids, id))
            && w'.reservedDisk == w.reservedDisk
            && w'.address == w.address && w'.online == w.online && w'.supports == w.supports
            && w'.totalSlots == w.totalSlots && w'.diskFree == w.diskFree
  {
    if ids != [] {
      ReleaseAllHeld(Release(ws, ids[0], 0), ids[1..], id);
    }
  }

  lemma {:induction false} ReleaseAllKeys(ws: Table, ids: seq<string>)
    ensures ReleaseAll(ws, ids).Keys == ws.Keys
    ensures forall id :: id in ws ==>
              var w, w' := ws[id], ReleaseAll(ws, ids)[id];
              w'.address == w.address && w'.online == w.online && w'.supports == w.supports
  {
    if ids != [] {
      ReleaseAllKeys(Release(ws, ids[0], 0), ids[1..]);
    }
  }

  /** A release undoes a reservation of the same disk amount exactly when that is not negative. */
  lemma ReleaseUndoes(ws: Table, id: string, disk: int)
    requires id in ws && ws[id].freeSlots == ws[id].totalSlots - ws[id].reservedSlots
    requires 0 <= ws[id].reservedSlots && 0 <= ws[id].reservedDisk
    ensures Release(Reserve(ws, id, disk), id, disk) == ws <==> 0 <= disk
  {
  }

  // ----- selection of a worker for an external segment -----

  /** `a` is the better choice: fewer reservations, then the smaller id. */
  predicate LessBusy(ws: Table, a: string, b: string)
    requires a in ws && b in ws
  {
    ws[a].reservedSlots < ws[b].reservedSlots
    || (ws[a].reservedSlots == ws[b].reservedSlots && Before(a, b))
  }

  /** The worker an external segment must go to: the least busy eligible worker other than the
      source, or the source when it is the only eligible one. */
  ghost predicate IsLeastBusy(ws: Table, kind: TaskKind, source: string, id: string) {
    && Eligible(ws, kind, id)
    && (id == source ==> forall o :: o != source ==> !Eligible(ws, kind, o))
    && (id != source ==> forall o :: o != source && o != id && Eligible(ws, kind, o) ==> LessBusy(ws, id, o))
  }

  lemma LeastBusyUnique(ws: Table, kind: TaskKind, source: string, a: string, b: string)
    requires IsLeastBusy(ws, kind, source, a) && IsLeastBusy(ws, kind, source, b)
    ensures a == b
  {
    BeforeTrichotomy(a, b);
  }

  // ----- selection of a worker for assembly -----

  function SchedulableDisk(w: Worker): int {
    w.diskFree - w.reservedDisk
  }

  predicate Fits(ws: Table, kind: TaskKind, disk: int, id: string) {
    Eligible(ws, kind, id) && SchedulableDisk(ws[id]) >= disk
  }

  /** Fewer reservations, then more schedulable disk, then the smaller id. */
  predicate BetterDisk(ws: Table, a: string, b: string)
    requires a in ws && b in ws
  {
    || ws[a].reservedSlots < ws[b].reservedSlots
    || (ws[a].reservedSlots == ws[b].reservedSlots && SchedulableDisk(ws[a]) > SchedulableDisk(ws[b]))
    || (ws[a].reservedSlots == ws[b].reservedSlots && SchedulableDisk(ws[a]) == SchedulableDisk(ws[b]) && Before(a, b))
  }

  ghost predicate IsBestDisk(ws: Table, kind: TaskKind, disk: int, id: string) {
    && Fits(ws, kind, disk, id)
    && forall o :: o != id && Fits(ws, kind, disk, o) ==> BetterDisk(ws, id, o)
  }

  lemma BestDiskUnique(ws: Table, kind: TaskKind, disk: int, a: string, b: string)
    requires IsBestDisk(ws, kind, disk, a) && IsBestDisk(ws, kind, disk, b)
    ensures a == b
  {
    BeforeTrichotomy(a, b);
  }

  // ----- worker reports -----

  datatype Registration = Registration(address: string, totalSlots: int, supports: seq<TaskKind>, diskFree: int)

  /** A worker seen for the first time. */
  function NewWorker(req: Registration): Worker {
    Worker(req.address, req.totalSlots, req.supports, req.diskFree, req.totalSlots, true, 0, 0)
  }

  /** A known worker that registers again keeps its address and its reservations. */
  function Reregistered(w: Worker, req: Registration): Worker {
    w.(totalSlots := req.totalSlots, supports := req.supports, diskFree := req.diskFree,
       freeSlots := req.totalSlots - w.reservedSlots, online := true)
  }

  function HeartBeaten(w: Worker, diskFree: int): Worker {
    w.(freeSlots := w.totalSlots - w.reservedSlots, diskFree := diskFree, online := true)
  }

  function Expire(ws: Table, late: set<string>): Table {
    map id | id in ws :: if id in late && ws[id].online then ws[id].(online := false, freeSlots := 0) else ws[id]
  }

  /** What every registry step keeps about the derived free count. */
  ghost predicate FreeDerived(ws: Table) {
    forall id :: id in ws && ws[id].online ==> ws[id].freeSlots == ws[id].totalSlots - ws[id].reservedSlots
  }
}
