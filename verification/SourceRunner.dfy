/** The part of a worker that turns local videos into jobs: a scan loop that queues paths, a
    process loop that splits and dispatches them one at a time, and the engine leases held while a
    split video is registered with Entry. */
module SourceRunner {
  import opened Wrappers

  datatype Video = Video(path: string, name: string, size: int)

  datatype Mode = Internal | External | Unknown

  datatype Assignment = Assignment(index: int, mode: Mode, address: string)

  /** Registering a split video worked: the worker was known to Entry and some attempt to create the
      job was answered with a job. */
  predicate Answered(registered: bool, reply: Option<seq<Assignment>>) {
    registered && reply.Some?
  }

  // ----- the two loops -----

  datatype Stage = Splitting | Split | Dispatched

  datatype Attempt = Attempt(path: string, registered: bool, reply: Option<seq<Assignment>>)

  /** `current` is what the process loop works on. The rest only records history: `seen` every path
      ever queued, `attempts` every run of registerAndDispatch with what it met, and `sent` the
      paths Entry answered with a job. */
  datatype State = State(
    pending: map<string, Video>, done: set<string>, current: Option<(Video, Stage)>,
    seen: set<string>, attempts: seq<Attempt>, sent: seq<string>)

  datatype Action =
    | Enqueue(video: Video)
    | Pop(path: string)
    | SplitFails
    | SplitWorks
    | Dispatch(registered: bool, reply: Option<seq<Assignment>>)
    | MarkDone

  function Initial(): State {
    State(map[], {}, None, {}, [], [])
  }

  function Queued(pending: map<string, Video>, done: set<string>, video: Video): map<string, Video> {
    if video.path in done || video.path in pending then pending else pending[video.path := video]
  }

  function Requeued(pending: map<string, Video>, done: set<string>, video: Video): map<string, Video> {
    if video.path in done then pending else pending[video.path := video]
  }

  predicate InStage(s: State, stage: Stage) {
    s.current.Some? && s.current.value.1 == stage
  }

  predicate Enabled(s: State, a: Action) {
    match a
    case Enqueue(_) => true
    case Pop(path) => s.current == None && path in s.pending
    case SplitFails => InStage(s, Splitting)
    case SplitWorks => InStage(s, Splitting)
    case Dispatch(_, _) => InStage(s, Split)
    case MarkDone => InStage(s, Dispatched)
  }

  /** A path is marked done whether registration worked or not. */
  function Next(s: State, a: Action): State
    requires Enabled(s, a)
  {
    match a
    case Enqueue(video) => s.(pending := Queued(s.pending, s.done, video), seen := s.seen + {video.path})
    case Pop(path) => s.(pending := s.pending - {path}, current := Some((s.pending[path], Splitting)))
    case SplitFails => s.(pending := Requeued(s.pending, s.done, s.current.value.0), current := None)
    case SplitWorks => s.(current := Some((s.current.value.0, Split)))
    case Dispatch(registered, reply) =>
      var video := s.current.value.0;
      s.(current := Some((video, Dispatched)), attempts := s.attempts + [Attempt(video.path, registered, reply)],
         sent := if Answered(registered, reply) then s.sent + [video.path] else s.sent)
    case MarkDone =>
      s.(pending := s.pending - {s.current.value.0.path}, done := s.done + {s.current.value.0.path}, current := None)
  }

  predicate IsCurrent(s: State, path: string) {
    s.current.Some? && s.current.value.0.path == path
  }

  predicate Attempted(s: State, path: string) {
    exists i :: 0 <= i < |s.attempts| && s.attempts[i].path == path
  }

  predicate WasAnswered(s: State, path: string) {
    exists i :: 0 <= i < |s.attempts| && s.attempts[i].path == path && Answered(s.attempts[i].registered, s.attempts[i].reply)
  }

  /** The scan may queue the current path a second time, because it is neither pending nor done
      while it is worked on; marking it done removes that copy before it can be popped. */
  ghost predicate QueueOk(s: State) {
    && s.pending.Keys !! s.done
    && (forall p {:trigger s.pending[p]} :: p in s.pending ==> s.pending[p].path == p)
    && (s.current.Some? ==> s.current.value.0.path !in s.done)
    && (forall p {:trigger p in s.seen} :: p in s.seen <==> p in s.pending || p in s.done || IsCurrent(s, p))
  }

  ghost predicate HistoryOk(s: State) {
    && (forall p {:trigger Attempted(s, p)} :: Attempted(s, p) <==> p in s.done || (IsCurrent(s, p) && InStage(s, Dispatched)))
    && (forall i, k :: 0 <= i < k < |s.attempts| ==> s.attempts[i].path != s.attempts[k].path)
    && (forall p {:trigger p in s.sent} :: p in s.sent <==> WasAnswered(s, p))
    && (forall i, k :: 0 <= i < k < |s.sent| ==> s.sent[i] != s.sent[k])
  }

  ghost predicate Inv(s: State) {
    QueueOk(s) && HistoryOk(s)
  }

  lemma InvNext(s: State, a: Action)
    requires Inv(s) && Enabled(s, a)
    ensures Inv(Next(s, a))
  {
    if a.Dispatch? {
      DispatchHistory(s, a);
    } else {
      var s' := Next(s, a);
      forall p ensures (Attempted(s', p) <==> Attempted(s, p)) && (WasAnswered(s', p) <==> WasAnswered(s, p)) {
      }
    }
  }

  lemma DispatchHistory(s: State, a: Action)
    requires Inv(s) && Enabled(s, a) && a.Dispatch?
    ensures HistoryOk(Next(s, a))
  {
    var s', path := Next(s, a), s.current.value.0.path;
    assert s'.attempts[|s.attempts|].path == path && !Attempted(s, path);
    forall p ensures Attempted(s', p) <==> Attempted(s, p) || p == path {
      if i :| 0 <= i < |s.attempts| && s.attempts[i].path == p {
        assert s'.attempts[i].path == p;
      }
    }
    forall p ensures WasAnswered(s', p) <==> WasAnswered(s, p) || (p == path && Answered(a.registered, a.reply)) {
      if i :| 0 <= i < |s.attempts| && s.attempts[i].path == p && Answered(s.attempts[i].registered, s.attempts[i].reply) {
        assert s'.attempts[i] == s.attempts[i];
      }
    }
    assert path !in s.sent;
    assert forall p :: p in s'.sent <==> p in s.sent || (p == path && Answered(a.registered, a.reply));
  }

  ghost predicate Run(states: seq<State>, acts: seq<Action>) {
    && |states| == |acts| + 1 && states[0] == Initial()
    && forall i: nat {:trigger Moves(states, acts, i)} :: i < |acts| ==> Moves(states, acts, i)
  }

  ghost predicate Moves(states: seq<State>, acts: seq<Action>, i: nat)
    requires |states| == |acts| + 1 && i < |acts|
  {
    Enabled(states[i], acts[i]) && states[i + 1] == Next(states[i], acts[i])
  }

  lemma {:induction false} Reachable(states: seq<State>, acts: seq<Action>, n: nat)
    requires Run(states, acts) && n <= |acts|
    ensures Inv(states[n])
    decreases n
  {
    if n > 0 {
      Reachable(states, acts, n - 1);
      assert Moves(states, acts, n - 1);
      InvNext(states[n - 1], acts[n - 1]);
    }
  }

  /** However the loops interleave: no path is both pending and done, none is dispatched or sent
      twice, and none is forgotten. */
  lemma SourceSafety(states: seq<State>, acts: seq<Action>, n: nat)
    requires Run(states, acts) && n <= |acts|
    ensures states[n].pending.Keys !! states[n].done
    ensures forall i, k :: 0 <= i < k < |states[n].attempts| ==> states[n].attempts[i].path != states[n].attempts[k].path
    ensures forall i, k :: 0 <= i < k < |states[n].sent| ==> states[n].sent[i] != states[n].sent[k]
    ensures forall p :: p in states[n].seen <==> p in states[n].pending || p in states[n].done || IsCurrent(states[n], p)
  {
    Reachable(states, acts, n);
  }

  /** A done path had exactly one attempt, and was sent exactly when that attempt found the worker
      registered and was answered. */
  lemma DoneMeans(states: seq<State>, acts: seq<Action>, n: nat, path: string)
    requires Run(states, acts) && n <= |acts| && path in states[n].done
    ensures exists i :: 0 <= i < |states[n].attempts| && states[n].attempts[i].path == path
    ensures forall i :: 0 <= i < |states[n].attempts| && states[n].attempts[i].path == path ==>
              (path in states[n].sent <==> Answered(states[n].attempts[i].registered, states[n].attempts[i].reply))
  {
    Reachable(states, acts, n);
    assert Attempted(states[n], path);
    if path in states[n].sent {
      assert WasAnswered(states[n], path);
    }
  }

  /** So done does not mean sent: a video that is split before its worker is registered is marked
      done and never looked at again. */
  lemma DoneWithoutSending(video: Video)
    ensures exists states: seq<State>, acts: seq<Action> :: Run(states, acts) && video.path in states[|acts|].done && video.path !in states[|acts|].sent
  {
    var p := video.path;
    var acts := [Enqueue(video), Pop(p), SplitWorks, Dispatch(false, None), MarkDone];
    var s1 := State(map[p := video], {}, None, {p}, [], []);
    var s2 := State(map[], {}, Some((video, Splitting)), {p}, [], []);
    var s3 := State(map[], {}, Some((video, Split)), {p}, [], []);
    var s4 := State(map[], {}, Some((video, Dispatched)), {p}, [Attempt(p, false, None)], []);
    var s5 := State(map[], {p}, None, {p}, [Attempt(p, false, None)], []);
    var states := [Initial(), s1, s2, s3, s4, s5];
    assert s1.pending - {p} == map[] && [] + [Attempt(p, false, None)] == s4.attempts;
    forall i: nat | i < |acts| ensures Moves(states, acts, i) {
    }
    assert Run(states, acts);
  }

  /** The queue the two loops share. */
  class Queue {
    var pendingSplit: map<string, Video>
    var done: set<string>

    ghost predicate Valid()
      reads this
    {
      && pendingSplit.Keys !! done
      && forall p {:trigger pendingSplit[p]} :: p in pendingSplit ==> pendingSplit[p].path == p
    }

    constructor ()
      ensures Valid() && pendingSplit == map[] && done == {}
    {
      pendingSplit, done := map[], {};
    }

    method EnqueueSourceVideo(video: Video)
      requires Valid()
      modifies this`pendingSplit
      ensures Valid() && pendingSplit == Queued(old(pendingSplit), done, video)
    {
      if video.path in done {
        return;
      }
      if video.path in pendingSplit {
        return;
      }
      pendingSplit := pendingSplit[video.path := video];
    }

    /** Takes any pending path. */
    method PopPendingSplit() returns (r: Option<Video>)
      requires Valid()
      modifies this`pendingSplit
      ensures Valid()
      ensures r.None? <==> old(pendingSplit) == map[]
      ensures match r
              case None => pendingSplit == old(pendingSplit)
              case Some(v) => v.path in old(pendingSplit) && v == old(pendingSplit)[v.path] && pendingSplit == old(pendingSplit) - {v.path}
    {
      if pendingSplit == map[] {
        return None;
      }
      var path :| path in pendingSplit;
      r := Some(pendingSplit[path]);
      pendingSplit := pendingSplit - {path};
    }

    method RequeuePendingSplit(video: Video)
      requires Valid()
      modifies this`pendingSplit
      ensures Valid() && pendingSplit == Requeued(old(pendingSplit), done, video)
    {
      if video.path in done {
        return;
      }
      pendingSplit := pendingSplit[video.path := video];
    }

    method MarkDone(path: string)
      requires Valid()
      modifies this
      ensures Valid() && pendingSplit == old(pendingSplit) - {path} && done == old(done) + {path}
    {
      pendingSplit := pendingSplit - {path};
      done := done + {path};
    }
  }

  // ----- leases held while a job is registered -----

  type Lease = nat

  /** What trying to acquire an engine gave for each segment; no engine is handed out twice. */
  ghost predicate Grants(segments: seq<int>, grants: seq<Option<Lease>>) {
    && |grants| == |segments|
    && forall i, k :: 0 <= i < k < |grants| && grants[i].Some? && grants[k].Some? ==> grants[i] != grants[k]
  }

  function Plan(segments: seq<int>, grants: seq<Option<Lease>>): (plan: seq<(int, Mode)>)
    requires |grants| == |segments|
    ensures |plan| == |segments|
  {
    seq(|segments|, i requires 0 <= i < |segments| => (segments[i], if grants[i].Some? then Internal else External))
  }

  /** A segment that got an engine is planned to be done here, every other one elsewhere. */
  predicate IsPlanOf(plan: seq<(int, Mode)>, segments: seq<int>, grants: seq<Option<Lease>>)
    requires |grants| == |segments|
  {
    && |plan| == |segments|
    && forall i :: 0 <= i < |plan| ==>
         && plan[i].0 == segments[i]
         && (grants[i].Some? ==> plan[i].1 == Internal)
         && (grants[i].None? ==> plan[i].1 == External)
  }

  /** The held leases by segment index; a repeated index overwrites. */
  function InternalWork(segments: seq<int>, grants: seq<Option<Lease>>): map<int, Lease>
    requires |grants| == |segments|
  {
    if segments == [] then map[]
    else
      var n := |segments| - 1;
      var before := InternalWork(segments[..n], grants[..n]);
      if grants[n].Some? then before[segments[n] := grants[n].value] else before
  }

  /** An Internal assignment for the segment index occurs among these. */
  predicate Assigned(assignments: seq<Assignment>, index: int) {
    exists k :: 0 <= k < |assignments| && assignments[k].mode == Internal && assignments[k].index == index
  }

  /** Dispatch gives up at assignment `k`: no lease is held for it (any more), the segment or the
      address is missing, the upload fails, or the mode is not known. */
  predicate Stops(segments: seq<int>, held: set<int>, assignments: seq<Assignment>, failedUploads: set<nat>, k: nat)
    requires k < |assignments|
  {
    var a := assignments[k];
    match a.mode
    case Internal => a.index !in held || Assigned(assignments[..k], a.index)
    case External => a.index !in segments || a.address == "" || k in failedUploads
    case Unknown => true
  }

  ghost predicate StopsEarly(segments: seq<int>, held: set<int>, assignments: seq<Assignment>,
                             failedUploads: set<nat>) {
    exists k: nat :: k < |assignments| && Stops(segments, held, assignments, failedUploads, k)
  }

  ghost predicate GrantedTwice(segments: seq<int>, grants: seq<Option<Lease>>)
    requires |grants| == |segments|
  {
    exists i, k :: 0 <= i < k < |segments| && segments[i] == segments[k] && grants[i].Some? && grants[k].Some?
  }

  /** When every lease finds its way back: no segment index was granted twice, and either the
      registration failed, or dispatch gave up early, or every held index was assigned. */
  ghost predicate AllComeBack(segments: seq<int>, grants: seq<Option<Lease>>, reply: Option<seq<Assignment>>,
                              failedUploads: set<nat>)
    requires |grants| == |segments|
  {
    && !GrantedTwice(segments, grants)
    && (reply.Some? ==>
          || StopsEarly(segments, InternalWork(segments, grants).Keys, reply.value, failedUploads)
          || forall x :: x in InternalWork(segments, grants) ==> Assigned(reply.value, x))
  }

  ghost predicate NoneTwice(released: seq<Lease>) {
    forall i, k :: 0 <= i < k < |released| ==> released[i] != released[k]
  }

  ghost predicate HeldIn(work: map<int, Lease>, lease: Lease) {
    exists x :: x in work && work[x] == lease
  }

  ghost predicate Injective(work: map<int, Lease>) {
    forall x, y :: x in work && y in work && work[x] == work[y] ==> x == y
  }

  lemma {:induction false} WorkIs(segments: seq<int>, grants: seq<Option<Lease>>)
    requires Grants(segments, grants)
    ensures forall x :: x in InternalWork(segments, grants) ==>
              exists i :: 0 <= i < |segments| && segments[i] == x && grants[i] == Some(InternalWork(segments, grants)[x])
    ensures forall i :: 0 <= i < |segments| && grants[i].Some? ==> segments[i] in InternalWork(segments, grants)
    decreases |segments|
  {
    if segments != [] {
      var n := |segments| - 1;
      WorkIs(segments[..n], grants[..n]);
      forall x | x in InternalWork(segments, grants)
        ensures exists i :: 0 <= i < |segments| && segments[i] == x && grants[i] == Some(InternalWork(segments, grants)[x])
      {
        if grants[n].Some? && x == segments[n] {
          assert grants[n] == Some(InternalWork(segments, grants)[x]);
        } else {
          var i :| 0 <= i < n && segments[..n][i] == x && grants[..n][i] == Some(InternalWork(segments[..n], grants[..n])[x]);
          assert segments[i] == x && grants[i] == Some(InternalWork(segments, grants)[x]);
        }
      }
      forall i | 0 <= i < |segments| && grants[i].Some? ensures segments[i] in InternalWork(segments, grants) {
        if i < n {
          assert segments[..n][i] == segments[i] && grants[..n][i] == grants[i];
        }
      }
    }
  }

  lemma WorkInjective(segments: seq<int>, grants: seq<Option<Lease>>)
    requires Grants(segments, grants)
    ensures Injective(InternalWork(segments, grants))
  {
    WorkIs(segments, grants);
  }

  lemma WorkWasGranted(segments: seq<int>, grants: seq<Option<Lease>>)
    requires Grants(segments, grants)
    ensures forall l: Lease :: HeldIn(InternalWork(segments, grants), l) ==> Some(l) in grants
  {
  }

  /** No held lease is lost from the map exactly when no index was granted twice. */
  lemma WorkKeepsAll(segments: seq<int>, grants: seq<Option<Lease>>)
    requires Grants(segments, grants)
    ensures (forall i :: 0 <= i < |grants| && grants[i].Some? ==> HeldIn(InternalWork(segments, grants), grants[i].value))
       <==> !GrantedTwice(segments, grants)
  {
    WorkIs(segments, grants);
    var work := InternalWork(segments, grants);
    if GrantedTwice(segments, grants) {
      var i, k :| 0 <= i < k < |segments| && segments[i] == segments[k] && grants[i].Some? && grants[k].Some?;
      var lost := if work[segments[i]] == grants[i].value then k else i;
      forall x | x in work ensures work[x] != grants[lost].value {
        var m :| 0 <= m < |segments| && segments[m] == x && grants[m] == Some(work[x]);
      }
      assert !HeldIn(work, grants[lost].value);
    } else {
      forall i | 0 <= i < |grants| && grants[i].Some? ensures HeldIn(work, grants[i].value) {
        var x := segments[i];
        var m :| 0 <= m < |segments| && segments[m] == x && grants[m] == Some(work[x]);
        assert m == i;
      }
    }
  }

  /** What is still held and what was released add up to what was held, and nothing was released
      twice. */
  ghost predicate Accounted(all: map<int, Lease>, held: map<int, Lease>, released: seq<Lease>) {
    && held.Keys <= all.Keys && (forall x :: x in held ==> held[x] == all[x])
    && (forall x :: x in all ==> (x in held <==> all[x] !in released))
    && (forall l: Lease :: l in released ==> HeldIn(all, l))
    && NoneTwice(released)
  }

  lemma AccountedRelease(all: map<int, Lease>, held: map<int, Lease>, released: seq<Lease>, x: int)
    requires Injective(all) && Accounted(all, held, released) && x in held
    ensures Accounted(all, held - {x}, released + [held[x]])
  {
  }

  lemma SomeKey<K, V>(m: map<K, V>) returns (k: K)
    requires m.Keys != {}
    ensures k in m
  {
    k :| k in m.Keys;
  }

  /** The deferred release of whatever is still held, in any order. */
  method ReleaseRest(ghost all: map<int, Lease>, held: map<int, Lease>, released: seq<Lease>) returns (r: seq<Lease>)
    requires Injective(all) && Accounted(all, held, released)
    ensures Accounted(all, map[], r)
  {
    var rest := held;
    r := released;
    while rest.Keys != {}
      invariant Accounted(all, rest, r)
      decreases |rest|
    {
      ghost var some := SomeKey(rest);
      var x :| x in rest;
      AccountedRelease(all, rest, r, x);
      r := r + [rest[x]];
      ghost var before := rest.Keys;
      rest := rest - {x};
      assert rest.Keys == before - {x};
    }
  }

  /** The planning loop: a segment that gets an engine is done here, the others elsewhere. */
  method PlanSegments(segments: seq<int>,
                      grants: seq<Option<Lease>>) returns (work: map<int, Lease>, plan: seq<(int, Mode)>)
    requires |grants| == |segments|
    ensures work == InternalWork(segments, grants) && plan == Plan(segments, grants)
    ensures IsPlanOf(plan, segments, grants)
  {
    work, plan := map[], [];
    for i := 0 to |segments|
      invariant work == InternalWork(segments[..i], grants[..i])
      invariant plan == Plan(segments[..i], grants[..i])
    {
      assert segments[..i + 1][..i] == segments[..i] && grants[..i + 1][..i] == grants[..i];
      var mode := External;
      if grants[i].Some? {
        mode := Internal;
        work := work[segments[i] := grants[i].value];
      }
      plan := plan + [(segments[i], mode)];
    }
    assert segments[..|segments|] == segments && grants[..|grants|] == grants;
  }

  /** The dispatch loop; `held` is what is left of the work when it ends, `done` the segments
      processed here with the lease each used, and `uploaded` the assignments sent to other workers. */
  method DispatchAssignments(segments: seq<int>, work: map<int, Lease>, assignments: seq<Assignment>, failedUploads: set<nat>)
    returns (stopped: bool, held: map<int, Lease>, released: seq<Lease>,
             done: seq<(int, Lease)>, uploaded: seq<Assignment>)
    requires Injective(work)
    ensures Accounted(work, held, released)
    ensures stopped <==> StopsEarly(segments, work.Keys, assignments, failedUploads)
    ensures !stopped ==> forall x :: x in work ==> (x in held <==> !Assigned(assignments, x))
    ensures forall d :: d in done ==> d.0 in work && d.1 == work[d.0] && Assigned(assignments, d.0)
    ensures forall a :: a in uploaded ==> a in assignments && a.mode == External && a.address != "" && a.index in segments
    ensures !stopped ==> Handled(work, assignments, done, uploaded)
  {
    held, released, done, uploaded, stopped := work, [], [], [], false;
    var k := 0;
    while k < |assignments|
      invariant 0 <= k <= |assignments|
      invariant Accounted(work, held, released)
      invariant forall x :: x in work ==> (x in held <==> !Assigned(assignments[..k], x))
      invariant forall m: nat :: m < k ==> !Stops(segments, work.Keys, assignments, failedUploads, m)
      invariant forall d :: d in done ==> d.0 in work && d.1 == work[d.0] && Assigned(assignments[..k], d.0)
      invariant forall a :: a in uploaded ==> a in assignments && a.mode == External && a.address != "" && a.index in segments
      invariant Handled(work, assignments[..k], done, uploaded)
    {
      var a := assignments[k];
      AssignedNext(assignments, k);
      assert forall m :: 0 <= m < k ==> assignments[..k + 1][m] == assignments[..k][m];
      match a.mode {
        case Internal =>
          stopped := a.index !in held;
        case External => stopped := a.index !in segments || a.address == "" || k in failedUploads;
        case Unknown => stopped := true;
      }
      assert stopped <==> Stops(segments, work.Keys, assignments, failedUploads, k);
      if stopped {
        AssignedMore(assignments, k);
        return;
      }
      if a.mode == Internal {
        done := done + [(a.index, held[a.index])];
        AccountedRelease(work, held, released, a.index);
        released := released + [held[a.index]];
        held := held - {a.index};
      } else {
        uploaded := uploaded + [a];
      }
      k := k + 1;
    }
    assert assignments[..k] == assignments;
  }

  /** Every assignment was carried out: done on its lease, or uploaded. */
  ghost predicate Handled(work: map<int, Lease>, assignments: seq<Assignment>, done: seq<(int, Lease)>, uploaded: seq<Assignment>) {
    forall k :: 0 <= k < |assignments| ==>
      || (assignments[k].mode == Internal && assignments[k].index in work
          && (assignments[k].index, work[assignments[k].index]) in done)
      || (assignments[k].mode == External && assignments[k] in uploaded)
  }

  lemma AssignedMore(assignments: seq<Assignment>, k: nat)
    requires k <= |assignments|
    ensures forall x :: Assigned(assignments[..k], x) ==> Assigned(assignments, x)
  {
    forall x | Assigned(assignments[..k], x) ensures Assigned(assignments, x) {
      var m :| 0 <= m < k && assignments[..k][m].mode == Internal && assignments[..k][m].index == x;
      assert assignments[m] == assignments[..k][m];
    }
  }

  /** registerAndDispatch, with everything that happens outside as parameters: the engines granted,
      Entry's reply if registration succeeded at some attempt, and the uploads that fail. */
  method RegisterAndDispatch(registered: bool, segments: seq<int>, grants: seq<Option<Lease>>,
                             reply: Option<seq<Assignment>>, failedUploads: set<nat>)
    returns (dispatched: bool, plan: seq<(int, Mode)>, released: seq<Lease>,
             done: seq<(int, Lease)>, uploaded: seq<Assignment>)
    requires Grants(segments, grants)
    ensures dispatched == Answered(registered, reply)
    ensures if registered then IsPlanOf(plan, segments, grants) else plan == []
    ensures NoneTwice(released) && (!registered ==> released == [])
    ensures forall l: Lease :: l in released ==> Some(l) in grants
    ensures registered ==> (AllReleased(grants, released) <==> AllComeBack(segments, grants, reply, failedUploads))
    ensures dispatched && Smooth(segments, grants, reply.value, failedUploads) ==>
              forall i :: 0 <= i < |segments| ==>
                if grants[i].Some? then (segments[i], grants[i].value) in done
                else exists a :: a in uploaded && a.index == segments[i] && a.address != ""
  {
    plan, released, done, uploaded, dispatched := [], [], [], [], false;
    if !registered {
      return;
    }
    var work;
    work, plan := PlanSegments(segments, grants);
    WorkInjective(segments, grants);
    if reply.None? {
      released := ReleaseRest(work, work, []);
      ReleasedMeans(segments, grants, map[], released);
      return;
    }
    var stopped, held;
    stopped, held, released, done, uploaded := DispatchAssignments(segments, work, reply.value, failedUploads);
    if stopped {
      released := ReleaseRest(work, held, released);
      held := map[];
    }
    ReleasedMeans(segments, grants, held, released);
    dispatched := true;
    if Smooth(segments, grants, reply.value, failedUploads) {
      SmoothGoesThrough(segments, grants, reply.value, failedUploads);
      SmoothHandlesAll(segments, grants, reply.value, done, uploaded);
    }
  }

  ghost predicate AllReleased(grants: seq<Option<Lease>>, released: seq<Lease>) {
    forall i :: 0 <= i < |grants| && grants[i].Some? ==> grants[i].value in released
  }

  /** When the leases not in `held` were released, everything granted came back exactly if nothing
      is held and the map lost nothing. */
  lemma ReleasedMeans(segments: seq<int>, grants: seq<Option<Lease>>, held: map<int, Lease>, released: seq<Lease>)
    requires Grants(segments, grants) && Accounted(InternalWork(segments, grants), held, released)
    ensures forall l: Lease :: l in released ==> Some(l) in grants
    ensures AllReleased(grants, released) <==>
              !GrantedTwice(segments, grants) && forall x :: x in InternalWork(segments, grants) ==> x !in held
  {
    var work := InternalWork(segments, grants);
    WorkWasGranted(segments, grants);
    WorkKeepsAll(segments, grants);
    if !GrantedTwice(segments, grants) && (forall x :: x in work ==> x !in held) {
      forall i | 0 <= i < |grants| && grants[i].Some? ensures grants[i].value in released {
        var x :| x in work && work[x] == grants[i].value;
      }
    }
    if AllReleased(grants, released) {
      WorkIs(segments, grants);
      forall x | x in work ensures x !in held {
        var i :| 0 <= i < |segments| && segments[i] == x && grants[i] == Some(work[x]);
        assert grants[i].value in released;
      }
    }
  }

  lemma AssignedNext(assignments: seq<Assignment>, k: nat)
    requires k < |assignments|
    ensures forall x :: Assigned(assignments[..k + 1], x) <==>
              Assigned(assignments[..k], x) || (assignments[k].mode == Internal && assignments[k].index == x)
  {
  }

  // ----- the replies Entry gives -----

  /** The reply to a creation lists the planned segments with their modes: internal where an engine
      was granted. */
  predicate Mirrors(segments: seq<int>, grants: seq<Option<Lease>>, assignments: seq<Assignment>)
    requires |grants| == |segments|
  {
    && |assignments| == |segments|
    && forall k :: 0 <= k < |segments| ==>
         assignments[k].index == segments[k] && assignments[k].mode == if grants[k].Some? then Internal else External
  }

  predicate Distinct(segments: seq<int>) {
    forall i, k :: 0 <= i < k < |segments| ==> segments[i] != segments[k]
  }

  /** A reply that mirrors the plan brings every lease back, whatever the addresses and uploads,
      when segment indexes are distinct. */
  lemma CreatedReplyReturnsAll(segments: seq<int>, grants: seq<Option<Lease>>, assignments: seq<Assignment>,
                               failedUploads: set<nat>)
    requires Grants(segments, grants) && Mirrors(segments, grants, assignments) && Distinct(segments)
    ensures AllComeBack(segments, grants, Some(assignments), failedUploads)
  {
    WorkIs(segments, grants);
    forall x | x in InternalWork(segments, grants) ensures Assigned(assignments, x) {
      var i :| 0 <= i < |segments| && segments[i] == x && grants[i] == Some(InternalWork(segments, grants)[x]);
      assert assignments[i].index == x && assignments[i].mode == Internal;
    }
  }

  /** Such a reply with an address on every external assignment, and no upload that fails. */
  predicate Smooth(segments: seq<int>, grants: seq<Option<Lease>>, assignments: seq<Assignment>, failedUploads: set<nat>)
    requires |grants| == |segments|
  {
    && Mirrors(segments, grants, assignments) && Distinct(segments)
    && forall k :: 0 <= k < |assignments| && assignments[k].mode == External ==>
         assignments[k].address != "" && k !in failedUploads
  }

  lemma SmoothGoesThrough(segments: seq<int>, grants: seq<Option<Lease>>, assignments: seq<Assignment>, failedUploads: set<nat>)
    requires Grants(segments, grants) && Smooth(segments, grants, assignments, failedUploads)
    ensures !StopsEarly(segments, InternalWork(segments, grants).Keys, assignments, failedUploads)
  {
    WorkIs(segments, grants);
    forall k: nat | k < |assignments|
      ensures !Stops(segments, InternalWork(segments, grants).Keys, assignments, failedUploads, k)
    {
      assert assignments[k].index == segments[k];
      forall m | 0 <= m < k ensures assignments[..k][m].index != segments[k] {
        assert assignments[m].index == segments[m];
      }
      assert !Assigned(assignments[..k], segments[k]);
    }
  }

  /** Then every segment is done on its own lease or uploaded to an address. */
  lemma SmoothHandlesAll(segments: seq<int>, grants: seq<Option<Lease>>, assignments: seq<Assignment>,
                         done: seq<(int, Lease)>, uploaded: seq<Assignment>)
    requires Grants(segments, grants) && Mirrors(segments, grants, assignments) && Distinct(segments)
    requires Handled(InternalWork(segments, grants), assignments, done, uploaded)
    requires forall a :: a in uploaded ==> a.address != ""
    ensures forall i :: 0 <= i < |segments| ==>
              if grants[i].Some? then (segments[i], grants[i].value) in done
              else exists a :: a in uploaded && a.index == segments[i] && a.address != ""
  {
    WorkIs(segments, grants);
    var work := InternalWork(segments, grants);
    forall i | 0 <= i < |segments|
      ensures if grants[i].Some? then (segments[i], grants[i].value) in done
              else exists a :: a in uploaded && a.index == segments[i] && a.address != ""
    {
      assert assignments[i].index == segments[i];
      if grants[i].Some? {
        var m :| 0 <= m < |segments| && segments[m] == segments[i] && grants[m] == Some(work[segments[i]]);
        assert m == i;
      } else {
        assert assignments[i] in uploaded;
      }
    }
  }

  /** The reply that the job already exists lists no assignments: the leases come back only if
      none was held. */
  lemma ExistingReplyKeepsLeases(segments: seq<int>, grants: seq<Option<Lease>>, failedUploads: set<nat>)
    requires Grants(segments, grants)
    ensures AllComeBack(segments, grants, Some([]), failedUploads) <==> forall i :: 0 <= i < |grants| ==> grants[i].None?
  {
    WorkIs(segments, grants);
  }
}
