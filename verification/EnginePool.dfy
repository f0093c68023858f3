/** The pool of engine processes a worker shares between its tasks: a channel of idle engines, a
    state per slot for the monitor, and leases that give their engine back once. */
module EnginePool {
  import opened Wrappers
  import EngineCall

  datatype Slot = SlotIdle | SlotLeased | SlotExecuting

  /** Where a holder of an engine is. A lease is received from the channel, marked and then held;
      releasing it sets its flag, marks the slot idle and sends the engine back. */
  datatype Phase = Received | Holding | Released | Returning | Gone

  /** `direct` holders are Pool.Call and Pool.TryCall, which own their engine for one call.
      `starting` calls have passed the released check, `running` ones have marked the slot. */
  datatype Holder = Holder(engine: nat, direct: bool, phase: Phase, starting: nat, running: nat)

  datatype State = State(size: nat, idle: seq<nat>, slots: map<nat, Slot>, holders: map<nat, Holder>)

  function IdleSlots(size: nat): (slots: map<nat, Slot>)
    ensures forall e: nat :: e < size ==> e in slots && slots[e] == SlotIdle
  {
    if size == 0 then map[] else IdleSlots(size - 1)[size - 1 := SlotIdle]
  }

  function Started(size: nat): State {
    State(size, seq(size, i => i), IdleSlots(size), map[])
  }

  datatype Action =
    | Receive(h: nat, direct: bool)
    | MarkLeased(h: nat)
    | CheckCall(h: nat)
    | MarkExecuting(h: nat)
    | EndCall(h: nat)
    | SetReleased(h: nat)
    | MarkIdle(h: nat)
    | Send(h: nat)

  predicate Enabled(s: State, a: Action) {
    if a.Receive? then a.h !in s.holders && s.idle != []
    else
      && a.h in s.holders
      && var holder := s.holders[a.h];
      match a
      case MarkLeased(_) => holder.phase == Received
      case CheckCall(_) => holder.phase == Holding && !holder.direct
      case MarkExecuting(_) => holder.starting > 0
      case EndCall(_) => holder.running > 0
      case SetReleased(_) => holder.phase == Holding && (holder.direct ==> holder.starting == 0 && holder.running == 0)
      case MarkIdle(_) => holder.phase == Released
      case _ => holder.phase == Returning
  }

  function Mark(s: State, h: nat, holder: Holder, slot: Slot): State {
    s.(slots := s.slots[holder.engine := slot], holders := s.holders[h := holder])
  }

  function Next(s: State, a: Action): State
    requires Enabled(s, a)
  {
    match a
    case Receive(h, direct) =>
      s.(idle := s.idle[1..],
         holders := s.holders[h := if direct then Holder(s.idle[0], true, Holding, 1, 0)
                                   else Holder(s.idle[0], false, Received, 0, 0)])
    case MarkLeased(h) => Mark(s, h, s.holders[h].(phase := Holding), SlotLeased)
    case CheckCall(h) => s.(holders := s.holders[h := s.holders[h].(starting := s.holders[h].starting + 1)])
    case MarkExecuting(h) =>
      Mark(s, h, s.holders[h].(starting := s.holders[h].starting - 1, running := s.holders[h].running + 1), SlotExecuting)
    case EndCall(h) => Mark(s, h, s.holders[h].(running := s.holders[h].running - 1), SlotLeased)
    case SetReleased(h) => s.(holders := s.holders[h := s.holders[h].(phase := Released)])
    case MarkIdle(h) => Mark(s, h, s.holders[h].(phase := Returning), SlotIdle)
    case Send(h) => s.(idle := s.idle + [s.holders[h].engine], holders := s.holders[h := s.holders[h].(phase := Gone)])
  }

  ghost predicate Run(states: seq<State>, acts: seq<Action>, size: nat) {
    && |states| == |acts| + 1 && states[0] == Started(size)
    && forall i: nat {:trigger Moves(states, acts, i)} :: i < |acts| ==> Moves(states, acts, i)
  }

  ghost predicate Moves(states: seq<State>, acts: seq<Action>, i: nat)
    requires |states| == |acts| + 1 && i < |acts|
  {
    Enabled(states[i], acts[i]) && states[i + 1] == Next(states[i], acts[i])
  }

  // ----- tokens -----

  predicate Holds(s: State, h: nat, e: nat) {
    h in s.holders && s.holders[h].phase != Gone && s.holders[h].engine == e
  }

  /** Every engine is in exactly one place: once in the channel, or with exactly one holder. */
  ghost predicate Tokens(s: State) {
    && (forall i, k :: 0 <= i < k < |s.idle| ==> s.idle[i] != s.idle[k])
    && (forall e: nat :: e in s.idle ==> e < s.size)
    && (forall h: nat, e: nat :: Holds(s, h, e) ==> e < s.size && e !in s.idle)
    && (forall h: nat, g: nat, e: nat :: Holds(s, h, e) && Holds(s, g, e) ==> h == g)
    && (forall e: nat {:trigger e in s.idle} :: e < s.size && e !in s.idle ==> exists h :: Holds(s, h, e))
  }

  lemma TokensNext(s: State, a: Action)
    requires Tokens(s) && Enabled(s, a)
    ensures Tokens(Next(s, a)) && Next(s, a).size == s.size
  {
    var s' := Next(s, a);
    match a
    case Receive(h, _) => ReceiveTokens(s, s', h);
    case Send(h) => SendTokens(s, s', h);
    case _ =>
      forall g, e ensures Holds(s', g, e) <==> Holds(s, g, e) {
      }
      assert s'.idle == s.idle;
  }

  lemma ReceiveTokens(s: State, s': State, h: nat)
    requires Tokens(s) && h !in s.holders && s.idle != []
    requires s'.size == s.size && s'.idle == s.idle[1..] && h in s'.holders
    requires s'.holders == s.holders[h := s'.holders[h]]
    requires s'.holders[h].engine == s.idle[0] && s'.holders[h].phase != Gone
    ensures Tokens(s')
  {
    var e0 := s.idle[0];
    assert forall e :: e in s.idle <==> e == e0 || e in s'.idle;
    assert e0 !in s'.idle;
    assert Holds(s', h, e0);
    forall g, e | g != h ensures Holds(s', g, e) <==> Holds(s, g, e) {
    }
    forall e: nat | e < s'.size && e !in s'.idle ensures exists g :: Holds(s', g, e) {
      if e != e0 {
        var g :| Holds(s, g, e);
        assert Holds(s', g, e);
      }
    }
  }

  lemma SendTokens(s: State, s': State, h: nat)
    requires Tokens(s) && h in s.holders && s.holders[h].phase == Returning
    requires s'.size == s.size && s'.idle == s.idle + [s.holders[h].engine]
    requires s'.holders == s.holders[h := s.holders[h].(phase := Gone)]
    ensures Tokens(s')
  {
    var e0 := s.holders[h].engine;
    assert Holds(s, h, e0);
    assert forall e :: e in s'.idle <==> e == e0 || e in s.idle;
    forall g, e | g != h ensures Holds(s', g, e) <==> Holds(s, g, e) {
    }
    forall e: nat | e < s'.size && e !in s'.idle ensures exists g :: Holds(s', g, e) {
      var g :| Holds(s, g, e);
      assert Holds(s', g, e);
    }
  }

  lemma StartedTokens(size: nat)
    ensures Tokens(Started(size))
  {
    forall e: nat | e < size ensures e in Started(size).idle {
      assert Started(size).idle[e] == e;
    }
  }

  /** In every interleaving of acquiring, calling and (repeated) releasing, no engine is lost and
      none is handed out twice. */
  lemma {:induction false} TokensConserved(states: seq<State>, acts: seq<Action>, size: nat, n: nat)
    requires Run(states, acts, size) && n <= |acts|
    ensures Tokens(states[n]) && states[n].size == size
    decreases n
  {
    if n == 0 {
      StartedTokens(size);
    } else {
      TokensConserved(states, acts, size, n - 1);
      assert Moves(states, acts, n - 1);
      TokensNext(states[n - 1], acts[n - 1]);
    }
  }

  lemma {:induction false} DistinctBelow(xs: seq<nat>, size: nat)
    requires forall i, k :: 0 <= i < k < |xs| ==> xs[i] != xs[k]
    requires forall i :: 0 <= i < |xs| ==> xs[i] < size
    ensures |xs| <= size
    decreases size
  {
    if xs == [] {
    } else if size > 0 && size - 1 in xs {
      var i :| 0 <= i < |xs| && xs[i] == size - 1;
      var rest := xs[..i] + xs[i + 1..];
      DistinctBelow(rest, size - 1);
    } else {
      assert xs[0] < size;
      DistinctBelow(xs, size - 1);
    }
  }

  /** The channel has one place per engine; a send by a holder that is giving its engine back
      always finds room, so release never blocks. */
  lemma SendNeverBlocks(states: seq<State>, acts: seq<Action>, size: nat, n: nat, h: nat)
    requires Run(states, acts, size) && n <= |acts|
    requires h in states[n].holders && states[n].holders[h].phase == Returning
    ensures |states[n].idle| < size
  {
    TokensConserved(states, acts, size, n);
    var s := states[n];
    assert Holds(s, h, s.holders[h].engine);
    assert forall i :: 0 <= i < |s.idle| ==> s.idle[i] in s.idle;
    DistinctBelow(s.idle + [s.holders[h].engine], size);
  }

  // ----- slot states -----

  ghost predicate ChannelIdle(s: State) {
    forall e :: e in s.idle ==> e in s.slots && s.slots[e] == SlotIdle
  }

  predicate Returns(s: State, h: nat, e: nat) {
    h in s.holders && s.holders[h].phase == Returning && s.holders[h].engine == e
  }

  /** Every engine in the channel or on its way back there shows as idle. */
  ghost predicate Shown(s: State) {
    && ChannelIdle(s)
    && forall h {:trigger s.holders[h]} :: h in s.holders && s.holders[h].phase == Returning ==>
         s.holders[h].engine in s.slots && s.slots[s.holders[h].engine] == SlotIdle
  }

  /** A call marks the slot of an engine that is already in the channel or on its way back. */
  ghost predicate LateMark(s: State, a: Action) {
    && (a.MarkExecuting? || a.EndCall?) && a.h in s.holders
    && var e := s.holders[a.h].engine;
    && (e in s.idle || exists h :: Returns(s, h, e))
  }

  lemma ShownNext(s: State, a: Action)
    requires Tokens(s) && Shown(s) && Enabled(s, a)
    ensures Shown(Next(s, a)) <==> !LateMark(s, a)
  {
    if LateMark(s, a) {
      LateMarkMisleads(s, a);
    } else {
      TimelyMark(s, a);
    }
  }

  lemma LateMarkMisleads(s: State, a: Action)
    requires Enabled(s, a) && LateMark(s, a)
    ensures !Shown(Next(s, a))
  {
    var s', e := Next(s, a), s.holders[a.h].engine;
    if e !in s.idle {
      var h :| Returns(s, h, e);
      assert s'.holders[h].phase == Returning && s'.holders[h].engine == e;
    }
  }

  lemma TimelyMark(s: State, a: Action)
    requires Tokens(s) && Shown(s) && Enabled(s, a) && !LateMark(s, a)
    ensures Shown(Next(s, a))
  {
    var s' := Next(s, a);
    if a.MarkLeased? || a.MarkExecuting? || a.EndCall? {
      var e := s.holders[a.h].engine;
      if a.MarkLeased? {
        assert Holds(s, a.h, e);
        forall h ensures !Returns(s, h, e) {
          assert Returns(s, h, e) ==> Holds(s, h, e);
        }
      }
      OtherSlotsStay(s, s', a.h, e);
    } else if a.MarkIdle? || a.Send? {
      assert Holds(s, a.h, s.holders[a.h].engine);
    }
  }

  /** Marking an engine that is neither in the channel nor on its way there hides no idle one. */
  lemma OtherSlotsStay(s: State, s': State, h: nat, e: nat)
    requires Shown(s) && s'.idle == s.idle && h in s.holders && h in s'.holders
    requires s'.holders == s.holders[h := s'.holders[h]]
    requires s'.holders[h].engine == s.holders[h].engine
    requires s'.holders[h].phase == Returning ==> s.holders[h].phase == Returning
    requires e !in s.idle && (forall g :: !Returns(s, g, e)) && e in s'.slots && s'.slots == s.slots[e := s'.slots[e]]
    ensures Shown(s')
  {
    forall g | g in s'.holders && s'.holders[g].phase == Returning
      ensures s'.holders[g].engine in s'.slots && s'.slots[s'.holders[g].engine] == SlotIdle
    {
      assert Returns(s, g, s.holders[g].engine);
    }
  }

  /** The monitor shows engines in the channel and on their way there as idle throughout a run
      exactly when no call marks a slot late. */
  lemma {:induction false} ShownExactly(states: seq<State>, acts: seq<Action>, size: nat, n: nat)
    requires Run(states, acts, size) && n <= |acts|
    ensures (forall i {:trigger Shown(states[i])} :: 0 <= i <= n ==> Shown(states[i]))
       <==> (forall i {:trigger LateMark(states[i], acts[i])} :: 0 <= i < n ==> !LateMark(states[i], acts[i]))
    decreases n
  {
    if n > 0 {
      ShownExactly(states, acts, size, n - 1);
      ShownAt(states, acts, size, n - 1);
    } else {
      assert Shown(states[0]);
    }
  }

  lemma ShownAt(states: seq<State>, acts: seq<Action>, size: nat, i: nat)
    requires Run(states, acts, size) && i < |acts|
    ensures Shown(states[i]) ==> (Shown(states[i + 1]) <==> !LateMark(states[i], acts[i]))
  {
    TokensConserved(states, acts, size, i);
    assert Moves(states, acts, i);
    if Shown(states[i]) {
      ShownNext(states[i], acts[i]);
    }
  }

  /** No lease is released while one of its own calls is under way. */
  predicate Orderly(s: State, a: Action) {
    a.SetReleased? && a.h in s.holders ==> s.holders[a.h].starting == 0 && s.holders[a.h].running == 0
  }

  ghost predicate OrderlyRun(states: seq<State>, acts: seq<Action>)
    requires |states| == |acts| + 1
  {
    forall i :: 0 <= i < |acts| ==> Orderly(states[i], acts[i])
  }

  /** Calls are under way only on leases that are held. */
  ghost predicate CallsHeld(s: State) {
    forall h {:trigger s.holders[h]} :: h in s.holders && s.holders[h].phase != Holding ==>
      s.holders[h].starting == 0 && s.holders[h].running == 0
  }

  lemma {:induction false} OrderlyCallsHeld(states: seq<State>, acts: seq<Action>, size: nat, n: nat)
    requires Run(states, acts, size) && OrderlyRun(states, acts) && n <= |acts|
    ensures CallsHeld(states[n])
    decreases n
  {
    if n > 0 {
      OrderlyCallsHeld(states, acts, size, n - 1);
      assert Moves(states, acts, n - 1);
      assert Orderly(states[n - 1], acts[n - 1]);
    }
  }

  /** When no lease is released during its own call, no mark is late, so every engine in the
      channel shows as idle. */
  lemma ChannelShowsIdle(states: seq<State>, acts: seq<Action>, size: nat, n: nat)
    requires Run(states, acts, size) && OrderlyRun(states, acts) && n <= |acts|
    ensures ChannelIdle(states[n])
  {
    forall i | 0 <= i < n ensures !LateMark(states[i], acts[i]) {
      OrderlyCallsHeld(states, acts, size, i);
      TokensConserved(states, acts, size, i);
      assert Moves(states, acts, i);
      HeldMarks(states[i], acts[i]);
    }
    ShownExactly(states, acts, size, n);
    assert Shown(states[n]);
  }

  lemma HeldMarks(s: State, a: Action)
    requires Tokens(s) && CallsHeld(s) && Enabled(s, a)
    ensures !LateMark(s, a)
  {
    if LateMark(s, a) {
      var e := s.holders[a.h].engine;
      assert Holds(s, a.h, e);
      var h :| Returns(s, h, e);
      assert Holds(s, h, e);
    }
  }

  /** An engine in use is shown as such: executing while a call on it is under way, leased otherwise.
      A direct call is not marked until it starts. */
  ghost predicate UseShown(s: State) {
    forall h {:trigger s.holders[h]} :: h in s.holders && s.holders[h].phase == Holding ==>
      var holder := s.holders[h];
      && holder.starting + holder.running <= 1
      && ((holder.direct && holder.starting == 1) ||
          (holder.engine in s.slots && s.slots[holder.engine] == if holder.running == 1 then SlotExecuting else SlotLeased))
  }

  /** A lease is used for one call at a time. */
  predicate Serial(s: State, a: Action) {
    a.CheckCall? && a.h in s.holders ==> s.holders[a.h].starting == 0 && s.holders[a.h].running == 0
  }

  ghost predicate SerialRun(states: seq<State>, acts: seq<Action>)
    requires |states| == |acts| + 1
  {
    forall i :: 0 <= i < |acts| ==> Serial(states[i], acts[i])
  }

  lemma UseNext(s: State, a: Action)
    requires Tokens(s) && CallsHeld(s) && UseShown(s) && Enabled(s, a) && Serial(s, a)
    ensures UseShown(Next(s, a))
  {
    var s' := Next(s, a);
    forall h | h in s'.holders && s'.holders[h].phase == Holding
      ensures var holder := s'.holders[h];
              && holder.starting + holder.running <= 1
              && ((holder.direct && holder.starting == 1) ||
                  (holder.engine in s'.slots
                   && s'.slots[holder.engine] == if holder.running == 1 then SlotExecuting else SlotLeased))
    {
      if h != a.h {
        assert Holds(s, h, s.holders[h].engine);
        assert a.h in s.holders && s.holders[a.h].phase != Gone ==> Holds(s, a.h, s.holders[a.h].engine);
      }
    }
  }

  /** When leases are used for one call at a time and not released during it, the monitor shows
      every engine in use as leased or executing, as it is, and every engine in the channel as idle. */
  lemma {:induction false} ViewIsRight(states: seq<State>, acts: seq<Action>, size: nat, n: nat)
    requires Run(states, acts, size) && OrderlyRun(states, acts) && SerialRun(states, acts) && n <= |acts|
    ensures UseShown(states[n]) && ChannelIdle(states[n])
    decreases n
  {
    ChannelShowsIdle(states, acts, size, n);
    if n > 0 {
      ViewIsRight(states, acts, size, n - 1);
      TokensConserved(states, acts, size, n - 1);
      OrderlyCallsHeld(states, acts, size, n - 1);
      assert Moves(states, acts, n - 1) && Serial(states[n - 1], acts[n - 1]);
      UseNext(states[n - 1], acts[n - 1]);
    }
  }

  ghost predicate ReachedBy(states: seq<State>, acts: seq<Action>, s: State) {
    Run(states, acts, 1) && states[|acts|] == s
  }

  /** A pool of one engine can get into this state. */
  ghost predicate Reached(s: State) {
    exists states, acts :: ReachedBy(states, acts, s)
  }

  lemma Extend(s: State, a: Action, s': State)
    requires Reached(s) && Enabled(s, a) && s' == Next(s, a)
    ensures Reached(s')
  {
    var states, acts :| ReachedBy(states, acts, s);
    var states', acts' := states + [s'], acts + [a];
    forall i: nat | i < |acts'| ensures Moves(states', acts', i) {
      if i < |acts| {
        assert Moves(states, acts, i);
      }
    }
    assert ReachedBy(states', acts', s');
  }

  function One(idle: seq<nat>, slot: Slot, holder: Holder): State {
    State(1, idle, map[0 := slot], map[0 := holder])
  }

  lemma CallReached()
    ensures Reached(One([], SlotExecuting, Holder(0, false, Holding, 0, 1)))
  {
    assert Started(1).idle == [0] && IdleSlots(1) == map[0 := SlotIdle];
    assert ReachedBy([Started(1)], [], Started(1));
    var s1 := One([], SlotIdle, Holder(0, false, Received, 0, 0));
    Extend(Started(1), Receive(0, false), s1);
    var s2 := One([], SlotLeased, Holder(0, false, Holding, 0, 0));
    Extend(s1, MarkLeased(0), s2);
    var s3 := One([], SlotLeased, Holder(0, false, Holding, 1, 0));
    Extend(s2, CheckCall(0), s3);
    Extend(s3, MarkExecuting(0), One([], SlotExecuting, Holder(0, false, Holding, 0, 1)));
  }

  lemma ReturnedReached()
    ensures Reached(One([0], SlotIdle, Holder(0, false, Gone, 0, 1)))
  {
    CallReached();
    var s4 := One([], SlotExecuting, Holder(0, false, Holding, 0, 1));
    var s5 := One([], SlotExecuting, Holder(0, false, Released, 0, 1));
    Extend(s4, SetReleased(0), s5);
    var s6 := One([], SlotIdle, Holder(0, false, Returning, 0, 1));
    Extend(s5, MarkIdle(0), s6);
    assert [] + [0] == [0];
    Extend(s6, Send(0), One([0], SlotIdle, Holder(0, false, Gone, 0, 1)));
  }

  /** Late marks happen: a call that outlives its lease marks the slot of an engine that is already
      back in the channel. */
  lemma ReleaseDuringCallMisleads()
    ensures exists s, a :: Reached(s) && Enabled(s, a) && LateMark(s, a) && Reached(Next(s, a)) && !ChannelIdle(Next(s, a))
  {
    ReturnedReached();
    var s7, s8 := One([0], SlotIdle, Holder(0, false, Gone, 0, 1)), One([0], SlotLeased, Holder(0, false, Gone, 0, 0));
    assert s7.idle[0] == 0;
    assert LateMark(s7, EndCall(0));
    Extend(s7, EndCall(0), s8);
    assert s8.idle[0] == 0;
    assert !ChannelIdle(s8);
  }

  // ----- the pool and its leases as objects -----

  class Pool {
    const capacity: nat
    var started: bool
    var idle: seq<nat>
    var slots: map<nat, Slot>
    var running: set<nat>

    constructor (capacity: nat)
      ensures this.capacity == capacity && !started && idle == [] && slots == map[] && running == {}
    {
      this.capacity, started, idle, slots, running := capacity, false, [], map[], {};
    }

    /** Starts one engine per slot and puts each into the channel; `comesUp` tells which engine
        processes start. A pool that is already started is left alone, a cancelled start does
        nothing, and when one process does not come up those that did are stopped again. */
    method Start(cancelled: bool, comesUp: seq<bool>) returns (ok: bool)
      requires |comesUp| == capacity
      modifies this
      ensures ok == (old(started) || (!cancelled && forall i :: 0 <= i < capacity ==> comesUp[i]))
      ensures started == ok
      ensures old(started) || cancelled ==> idle == old(idle) && slots == old(slots) && running == old(running)
      ensures !old(started) && ok ==>
                idle == Started(capacity).idle && slots == Started(capacity).slots && running == slots.Keys
      ensures !old(started) && !cancelled && !ok ==> running == {}
    {
      if started {
        return true;
      }
      if cancelled {
        return false;
      }
      idle, slots, running := [], map[], {};
      for id := 0 to capacity
        invariant started == old(started) && forall i :: 0 <= i < id ==> comesUp[i]
        invariant |idle| == id && forall i :: 0 <= i < id ==> idle[i] == i
        invariant slots == IdleSlots(id) && running == slots.Keys
      {
        if !comesUp[id] {
          StopStartedEngines();
          return false;
        }
        running := running + {id};
        slots := slots[id := SlotIdle];
        idle := idle + [id];
      }
      started := true;
      return true;
    }

    method StopStartedEngines()
      modifies this`running
      ensures running == {}
    {
      running := {};
    }

    /** tryAcquire: the engine longest in the channel, or none. */
    method TryAcquire() returns (engine: Option<nat>)
      modifies this`idle
      ensures engine.Some? <==> old(started) && old(idle) != []
      ensures engine.Some? ==> engine.value == old(idle)[0] && idle == old(idle)[1..]
      ensures engine.None? ==> idle == old(idle)
    {
      if !started || |idle| == 0 {
        return None;
      }
      engine := Some(idle[0]);
      idle := idle[1..];
    }

    method MarkSlot(engine: nat, slot: Slot)
      modifies this`slots
      ensures slots == old(slots)[engine := slot]
    {
      slots := slots[engine := slot];
    }

    /** release: the slot shows idle before the engine goes back; a stopped pool ignores it. */
    method Release(engine: nat)
      requires started ==> |idle| < capacity
      modifies this`slots, this`idle
      ensures started ==> slots == old(slots)[engine := SlotIdle] && idle == old(idle) + [engine]
      ensures !started ==> slots == old(slots) && idle == old(idle)
    {
      if !started {
        return;
      }
      MarkSlot(engine, SlotIdle);
      idle := idle + [engine];
    }

    /** The monitor's view: one state per slot, idle for a slot nothing was recorded for. */
    method Snapshot() returns (view: seq<Slot>)
      ensures |view| == capacity
      ensures forall id :: 0 <= id < capacity ==> view[id] == if id in slots then slots[id] else SlotIdle
    {
      view := [];
      for id := 0 to capacity
        invariant |view| == id
        invariant forall k :: 0 <= k < id ==> view[k] == if k in slots then slots[k] else SlotIdle
      {
        view := view + [if id in slots then slots[id] else SlotIdle];
      }
    }
  }

  /** A call on a lease that was given back has an answer of its own. */
  datatype Reply = LeaseReleased | Answered(result: Result<EngineCall.Response, EngineCall.Error>)

  class Lease {
    const pool: Pool
    const engine: nat
    const process: EngineCall.Engine
    var released: bool

    constructor (pool: Pool, engine: nat, process: EngineCall.Engine)
      ensures this.pool == pool && this.engine == engine && this.process == process && !released
    {
      this.pool, this.engine, this.process, released := pool, engine, process, false;
    }

    /** Gives the engine back the first time and does nothing after that. */
    method Release()
      requires !released && pool.started ==> |pool.idle| < pool.capacity
      modifies this, pool`slots, pool`idle
      ensures released
      ensures !old(released) && pool.started ==>
                pool.idle == old(pool.idle) + [engine] && pool.slots == old(pool.slots)[engine := SlotIdle]
      ensures old(released) || !pool.started ==> pool.idle == old(pool.idle) && pool.slots == old(pool.slots)
    {
      if !released {
        released := true;
        pool.Release(engine);
      }
    }

    /** A call on a lease that was given back reaches neither slot nor engine; any other is the
        engine's call, with the slot shown as leased again afterwards. The parameters are those of
        the engine's call, see there. */
    method Call(req: EngineCall.Request, generated: string, early: bool, late: bool,
                outcome: EngineCall.Outcome, dies: bool) returns (r: Reply)
      requires process.Valid() && generated != ""
      modifies pool`slots, process.process
      ensures process.Valid()
      ensures r.LeaseReleased? <==> released
      ensures released ==> pool.slots == old(pool.slots)
      ensures !released ==> pool.slots == old(pool.slots)[engine := SlotLeased]
      ensures released && process.process != null ==> process.process.alive == old(process.process.alive)
      ensures !released ==>
                var sent := EngineCall.Prepared(req, generated);
                r.result == if process.process == null then Err(EngineCall.NotStarted)
                            else EngineCall.CallResult(sent, old(process.process.alive), early, late, outcome, dies)
    {
      if released {
        return LeaseReleased;
      }
      var sent := EngineCall.Prepared(req, generated);
      pool.MarkSlot(engine, SlotExecuting);
      var result := process.Call(sent, generated, early, late, outcome, dies);
      pool.MarkSlot(engine, SlotLeased);
      return Answered(result);
    }
  }
}
