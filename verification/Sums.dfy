/** Finite sums over maps and occurrence counts over sequences: the arithmetic in which
    the reservation ledger and the placement theorems are stated. */
module Sums {

  /** Some key of a nonempty map. Naming the choice lets the sum and its lemmas agree on it. */
  ghost function AnyKey<K>(m: map<K, int>): (k: K)
    requires m != map[]
    ensures k in m
  {
    assert m.Keys != {};
    var k :| k in m;
    k
  }

  /** The sum of all values of a map. */
  ghost function Sum<K>(m: map<K, int>): int
    decreases |m|
  {
    if m == map[] then 0
    else
      var k := AnyKey(m);
      assert (m - {k}).Keys == m.Keys - {k};
      m[k] + Sum(m - {k})
  }

  /** Any key may be taken out first. */
  lemma {:induction false} SumRemove<K>(m: map<K, int>, k: K)
    requires k in m
    ensures Sum(m) == m[k] + Sum(m - {k})
    decreases |m|
  {
    var p := AnyKey(m);
    if p != k {
      assert (m - {p}).Keys == m.Keys - {p};
      assert (m - {k}).Keys == m.Keys - {k};
      SumRemove(m - {p}, k);
      SumRemove(m - {k}, p);
      assert m - {p} - {k} == m - {k} - {p};
    }
  }

  /** Writing one key moves the sum by the difference at that key. */
  lemma SumUpdate<K>(m: map<K, int>, k: K, v: int)
    ensures Sum(m[k := v]) == Sum(m) + v - (if k in m then m[k] else 0)
  {
    SumRemove(m[k := v], k);
    assert m[k := v] - {k} == m - {k};
    if k in m {
      SumRemove(m, k);
    } else {
      assert m - {k} == m;
    }
  }

  lemma {:induction false} SumAtLeast<K>(m: map<K, int>, k: K)
    requires forall j :: j in m ==> 0 <= m[j]
    ensures 0 <= Sum(m)
    ensures k in m ==> m[k] <= Sum(m)
    decreases |m|
  {
    if m != map[] {
      var p := if k in m then k else AnyKey(m);
      SumRemove(m, p);
      assert (m - {p}).Keys == m.Keys - {p};
      SumAtLeast(m - {p}, p);
    }
  }

  /** Pointwise order of two maps over the same keys gives the order of their sums, strictly
      when some key is strictly smaller. */
  lemma {:induction false} SumMonotone<K>(a: map<K, int>, b: map<K, int>)
    requires a.Keys == b.Keys
    requires forall k :: k in a ==> a[k] <= b[k]
    ensures Sum(a) <= Sum(b)
    ensures (exists k :: k in a && a[k] < b[k]) ==> Sum(a) < Sum(b)
    decreases |a|
  {
    if a == map[] {
      assert b.Keys == {};
    } else {
      var k := AnyKey(a);
      SumRemove(a, k);
      SumRemove(b, k);
      assert (a - {k}).Keys == a.Keys - {k} == (b - {k}).Keys;
      SumMonotone(a - {k}, b - {k});
      if j :| j in a && a[j] < b[j] && j != k {
        assert j in a - {k} && (a - {k})[j] < (b - {k})[j];
      }
    }
  }

  lemma {:induction false} SumZero<K>(m: map<K, int>)
    requires forall k :: k in m ==> m[k] == 0
    ensures Sum(m) == 0
    decreases |m|
  {
    if m != map[] {
      var k := AnyKey(m);
      assert (m - {k}).Keys == m.Keys - {k};
      SumZero(m - {k});
    }
  }

  /** How often `x` occurs in `xs`. */
  function Count<T(==)>(xs: seq<T>, x: T): nat {
    if xs == [] then 0 else (if xs[0] == x then 1 else 0) + Count(xs[1..], x)
  }

  lemma {:induction false} CountAppend<T>(xs: seq<T>, ys: seq<T>, x: T)
    ensures Count(xs + ys, x) == Count(xs, x) + Count(ys, x)
  {
    if xs == [] {
      assert xs + ys == ys;
    } else {
      assert (xs + ys)[1..] == xs[1..] + ys;
      CountAppend(xs[1..], ys, x);
    }
  }

  lemma {:induction false} CountPositive<T>(xs: seq<T>, x: T)
    ensures Count(xs, x) > 0 <==> x in xs
  {
    if xs != [] {
      CountPositive(xs[1..], x);
    }
  }
}
