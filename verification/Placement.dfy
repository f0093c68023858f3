/** Placing the segments of one job, one by one and without interference, is as level as it can
    be: no other way to put the external segments on the same workers has a lower peak. */
module Placement {
  import opened Wrappers
  import opened Sums
  import opened Workers
  import opened Jobs
  import opened Entry

  /** One reservation per planned segment, each picked by the rule for its mode. */
  ghost predicate PlanRun(tables: seq<Table>, picks: seq<string>, plan: seq<PlanEntry>, source: string) {
    && |tables| == |picks| + 1 && |picks| <= |plan|
    && forall i {:trigger PlacedAt(tables, picks, plan, source, i)} :: 0 <= i < |picks| ==> PlacedAt(tables, picks, plan, source, i)
  }

  ghost predicate PlacedAt(tables: seq<Table>, picks: seq<string>, plan: seq<PlanEntry>, source: string, i: nat)
    requires |tables| == |picks| + 1 && |picks| <= |plan| && i < |picks|
  {
    && PickFor(tables[i], source, plan[i].mode, Some(picks[i]))
    && picks[i] in tables[i]
    && tables[i + 1] == Reserve(tables[i], picks[i], 0)
  }

  /** The workers external segments should go to. */
  predicate Target(ws: Table, source: string, id: string) {
    id != source && Eligible(ws, ProcessSegment, id)
  }

  function Externals(plan: seq<PlanEntry>): nat {
    if plan == [] then 0
    else Externals(plan[..|plan| - 1]) + (if plan[|plan| - 1].mode == External then 1 else 0)
  }

  ghost function Loads(ws: Table, source: string): map<string, int> {
    map id | id in ws && Target(ws, source, id) :: ws[id].reservedSlots
  }

  /** What one placed segment does to the workers that external segments go to. */
  lemma PlaceOne(tables: seq<Table>, picks: seq<string>, plan: seq<PlanEntry>, source: string, i: nat)
    requires PlanRun(tables, picks, plan, source) && i < |picks|
    requires exists v :: Target(tables[i], source, v)
    ensures forall v :: Target(tables[i + 1], source, v) <==> Target(tables[i], source, v)
    ensures plan[i].mode == External ==>
              && Target(tables[i], source, picks[i])
              && forall v :: Target(tables[i], source, v) ==> tables[i][picks[i]].reservedSlots <= tables[i][v].reservedSlots
    ensures plan[i].mode == Internal ==> picks[i] == source
    ensures Loads(tables[i + 1], source) ==
            if plan[i].mode == External then Loads(tables[i], source)[picks[i] := tables[i][picks[i]].reservedSlots + 1]
            else Loads(tables[i], source)
  {
    assert PlacedAt(tables, picks, plan, source, i);
    var v :| Target(tables[i], source, v);
    assert Eligible(tables[i], ProcessSegment, v);
  }

  /** Every worker that got an external segment ends at most one reservation above any other
      target. */
  lemma {:induction false} PlacementBalanced(tables: seq<Table>, picks: seq<string>, plan: seq<PlanEntry>,
                                             source: string, n: nat)
    requires PlanRun(tables, picks, plan, source) && n <= |picks|
    requires exists v :: Target(tables[0], source, v)
    ensures forall v :: Target(tables[n], source, v) <==> Target(tables[0], source, v)
    ensures forall i, v :: 0 <= i < n && plan[i].mode == External && Target(tables[0], source, v) ==>
              && Target(tables[0], source, picks[i]) && picks[i] in tables[n] && v in tables[n]
              && tables[n][picks[i]].reservedSlots <= tables[n][v].reservedSlots + 1
    decreases n
  {
    if n > 0 {
      PlacementBalanced(tables, picks, plan, source, n - 1);
      PlaceOne(tables, picks, plan, source, n - 1);
      assert PlacedAt(tables, picks, plan, source, n - 1);
    }
  }

  /** The targets' reservations add up to what they had plus the external segments. */
  lemma {:induction false} PlacementTotal(tables: seq<Table>, picks: seq<string>, plan: seq<PlanEntry>,
                                          source: string, n: nat)
    requires PlanRun(tables, picks, plan, source) && n <= |picks|
    requires exists v :: Target(tables[0], source, v)
    ensures Loads(tables[n], source).Keys == Loads(tables[0], source).Keys
    ensures Sum(Loads(tables[n], source)) == Sum(Loads(tables[0], source)) + Externals(plan[..n])
    decreases n
  {
    if n > 0 {
      PlacementTotal(tables, picks, plan, source, n - 1);
      PlacementBalanced(tables, picks, plan, source, n - 1);
      PlaceOne(tables, picks, plan, source, n - 1);
      assert plan[..n][..n - 1] == plan[..n - 1];
      if plan[n - 1].mode == External {
        SumUpdate(Loads(tables[n - 1], source), picks[n - 1], tables[n - 1][picks[n - 1]].reservedSlots + 1);
      }
    }
  }

  /** Reservations only grow, and only where an external segment went. */
  lemma {:induction false} PlacementGrows(tables: seq<Table>, picks: seq<string>, plan: seq<PlanEntry>,
                                          source: string, n: nat)
    requires PlanRun(tables, picks, plan, source) && n <= |picks|
    requires exists v :: Target(tables[0], source, v)
    ensures Loads(tables[n], source).Keys == Loads(tables[0], source).Keys
    ensures forall v :: v in Loads(tables[0], source) ==> Loads(tables[0], source)[v] <= Loads(tables[n], source)[v]
    ensures forall v :: v in Loads(tables[0], source) && Loads(tables[0], source)[v] < Loads(tables[n], source)[v] ==>
              exists i :: 0 <= i < n && plan[i].mode == External && picks[i] == v
    decreases n
  {
    if n > 0 {
      PlacementGrows(tables, picks, plan, source, n - 1);
      PlacementBalanced(tables, picks, plan, source, n - 1);
      PlaceOne(tables, picks, plan, source, n - 1);
    }
  }

  /** Another way to place the same number of segments: `more` says how many each target gets. */
  ghost predicate Alternative(ws: Table, source: string, more: map<string, int>, count: nat) {
    && more.Keys == Loads(ws, source).Keys
    && (forall v :: v in more ==> 0 <= more[v])
    && Sum(more) == count
  }

  ghost function LoadsAfter(ws: Table, source: string, more: map<string, int>): map<string, int>
    requires more.Keys == Loads(ws, source).Keys
  {
    map v | v in more :: Loads(ws, source)[v] + more[v]
  }

  lemma {:induction false} SumAdded(a: map<string, int>, b: map<string, int>, c: map<string, int>)
    requires a.Keys == b.Keys == c.Keys
    requires forall k :: k in a ==> c[k] == a[k] + b[k]
    ensures Sum(c) == Sum(a) + Sum(b)
    decreases |a|
  {
    if a == map[] {
      assert b.Keys == {} && c.Keys == {};
    } else {
      var k := AnyKey(a);
      SumRemove(a, k);
      SumRemove(b, k);
      SumRemove(c, k);
      assert (a - {k}).Keys == a.Keys - {k} == (b - {k}).Keys == (c - {k}).Keys;
      SumAdded(a - {k}, b - {k}, c - {k});
    }
  }

  /** A peak any other placement stays within, this one stays within too. */
  lemma PlacementOptimal(tables: seq<Table>, picks: seq<string>, plan: seq<PlanEntry>, source: string,
                         more: map<string, int>, peak: int)
    requires PlanRun(tables, picks, plan, source) && |picks| == |plan|
    requires exists v :: Target(tables[0], source, v)
    requires Alternative(tables[0], source, more, Externals(plan))
    requires forall v :: v in more ==> LoadsAfter(tables[0], source, more)[v] <= peak
    ensures forall v :: Target(tables[|plan|], source, v) ==> tables[|plan|][v].reservedSlots <= peak
  {
    var n := |plan|;
    assert plan[..n] == plan;
    PlacementBalanced(tables, picks, plan, source, n);
    PlacementTotal(tables, picks, plan, source, n);
    PlacementGrows(tables, picks, plan, source, n);
    var mine, theirs := Loads(tables[n], source), LoadsAfter(tables[0], source, more);
    SumAdded(Loads(tables[0], source), more, theirs);
    forall v | Target(tables[n], source, v) ensures tables[n][v].reservedSlots <= peak {
      assert v in Loads(tables[0], source);
      if tables[n][v].reservedSlots > peak {
        LowerSum(mine, theirs, v);
        assert false;
      }
    }
  }

  /** Loads that are level below a worker above the peak leave no room to be lower elsewhere. */
  lemma LowerSum(mine: map<string, int>, theirs: map<string, int>, v: string)
    requires mine.Keys == theirs.Keys && v in mine
    requires forall u :: u in mine ==> theirs[u] < mine[v] && mine[v] <= mine[u] + 1
    ensures Sum(theirs) < Sum(mine)
  {
    assert theirs[v] < mine[v];
    SumMonotone(theirs, mine);
  }
}
