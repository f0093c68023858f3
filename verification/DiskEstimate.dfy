/** How much disk an assembly is expected to need. Entry computes it from the reported output
    sizes before it picks a worker; the chosen worker computes it again from the request. Both
    work in 64-bit signed arithmetic, which wraps. */
module DiskEstimate {

  const TWO_63: int := 0x8000_0000_0000_0000
  const TWO_64: int := 0x1_0000_0000_0000_0000

  predicate Int64(x: int) { -TWO_63 <= x < TWO_63 }

  /** The value a 64-bit signed operation leaves when its exact result is `x`. */
  function Wrap(x: int): (r: int)
    ensures Int64(r)
    ensures Int64(x) ==> r == x
  {
    (x + TWO_63) % TWO_64 - TWO_63
  }

  /** Division by ten that truncates toward zero. */
  function Tenth(x: int): int {
    if x >= 0 then x / 10 else -(-x / 10)
  }

  function WrapSum(sizes: seq<int>): int {
    if sizes == [] then 0 else Wrap(WrapSum(sizes[..|sizes| - 1]) + sizes[|sizes| - 1])
  }

  predicate AllKnown(sizes: seq<int>) {
    forall i :: 0 <= i < |sizes| ==> sizes[i] > 0
  }

  /** The size the estimate scales: twice the artifacts when every size is known, otherwise the
      source video, and never less than one byte. */
  function Base(totalSize: int, sizes: seq<int>): (b: int)
    ensures 1 <= b
  {
    var raw := if AllKnown(sizes) && WrapSum(sizes) > 0 then Wrap(WrapSum(sizes) * 2) else totalSize;
    if raw < 1 then 1 else raw
  }

  function Estimate(totalSize: int, sizes: seq<int>): int {
    Tenth(Wrap(Base(totalSize, sizes) * 12))
  }

  /** Entry's accumulation: it keeps adding after an unknown size. */
  method EntryEstimate(totalSize: int, sizes: seq<int>) returns (required: int)
    ensures required == Estimate(totalSize, sizes)
  {
    var totalOutput, known := 0, true;
    for i := 0 to |sizes|
      invariant totalOutput == WrapSum(sizes[..i])
      invariant known == AllKnown(sizes[..i])
    {
      assert sizes[..i + 1][..i] == sizes[..i];
      if sizes[i] <= 0 {
        assert sizes[..i + 1][i] <= 0;
        known := false;
      }
      totalOutput := Wrap(totalOutput + sizes[i]);
    }
    assert sizes[..|sizes|] == sizes;
    var base := totalSize;
    if known && totalOutput > 0 {
      base := Wrap(totalOutput * 2);
    }
    if base < 1 {
      base := 1;
    }
    required := Tenth(Wrap(base * 12));
  }

  /** The worker's accumulation: it stops at the first unknown size and treats an empty list as
      unknown. */
  method WorkerEstimate(totalSize: int, sizes: seq<int>) returns (required: int)
    ensures required == Estimate(totalSize, sizes)
  {
    var totalOutput, known := 0, |sizes| > 0;
    var i := 0;
    while i < |sizes|
      invariant 0 <= i <= |sizes|
      invariant AllKnown(sizes[..i])
      invariant totalOutput == WrapSum(sizes[..i])
      invariant known == (|sizes| > 0)
    {
      if sizes[i] <= 0 {
        known := false;
        break;
      }
      assert sizes[..i + 1][..i] == sizes[..i];
      totalOutput := Wrap(totalOutput + sizes[i]);
      i := i + 1;
    }
    if known {
      assert sizes[..i] == sizes;
    }
    var base := totalSize;
    if known && totalOutput > 0 {
      base := Wrap(totalOutput * 2);
    }
    if base < 1 {
      base := 1;
    }
    required := Tenth(Wrap(base * 12));
  }

  /** The estimate covers the base size exactly when the multiplication by twelve stays within
      64 bits; the sizes themselves are 64-bit values. */
  lemma EstimateCoversBase(totalSize: int, sizes: seq<int>)
    requires Int64(totalSize)
    ensures Estimate(totalSize, sizes) >= Base(totalSize, sizes) <==> Int64(Base(totalSize, sizes) * 12)
    ensures Int64(Base(totalSize, sizes) * 12) ==> Estimate(totalSize, sizes) == Base(totalSize, sizes) * 12 / 10
  {
  }

  /** A reported size large enough to overflow makes the estimate negative. */
  lemma EstimateCanOverflow()
    ensures Estimate(TWO_63 / 12 + 1, []) < 0
  {
  }

  /** The plain sum, without any width. */
  function Total(sizes: seq<int>): int {
    if sizes == [] then 0 else Total(sizes[..|sizes| - 1]) + sizes[|sizes| - 1]
  }

  lemma {:induction false} SumFits(sizes: seq<int>)
    requires AllKnown(sizes) && Total(sizes) < TWO_63
    ensures WrapSum(sizes) == Total(sizes) >= |sizes|
  {
    if sizes != [] {
      var n := |sizes| - 1;
      assert forall i :: 0 <= i < n ==> sizes[..n][i] == sizes[i];
      assert sizes[n] > 0;
      TotalPositive(sizes[..n]);
      SumFits(sizes[..n]);
    }
  }

  lemma {:induction false} TotalPositive(sizes: seq<int>)
    requires AllKnown(sizes)
    ensures Total(sizes) >= |sizes|
  {
    if sizes != [] {
      var n := |sizes| - 1;
      assert forall i :: 0 <= i < n ==> sizes[..n][i] == sizes[i];
      assert sizes[n] > 0;
      TotalPositive(sizes[..n]);
    }
  }

  /** What the estimate means as long as nothing overflows: 2.4 times the artifacts when all their
      sizes are known, otherwise 1.2 times the source video, and at least what one byte needs. */
  lemma EstimateMeans(totalSize: int, sizes: seq<int>)
    requires Int64(totalSize * 12)
    requires AllKnown(sizes) ==> Total(sizes) * 24 < TWO_63
    ensures AllKnown(sizes) && sizes != [] ==> Estimate(totalSize, sizes) == Total(sizes) * 24 / 10
    ensures !AllKnown(sizes) || sizes == [] ==>
              Estimate(totalSize, sizes) == if totalSize >= 1 then totalSize * 12 / 10 else 1
  {
    if AllKnown(sizes) {
      TotalPositive(sizes);
      SumFits(sizes);
    }
  }
}
