/** Splitting a file into byte ranges, copying each piece and appending the copies again: the
    path the engine takes when video tools are replaced by plain copies. */
module ByteSplit {
  import opened LE = LittleEndian

  const BUFFER_SIZE := 64 * 1024

  /** How many pieces a split request asks for; the size target counts only when no number of
      segments is given. */
  function PieceCount(maxSegments: int, targetSize: int, inputSize: nat): (n: nat)
    ensures n >= 1
    ensures maxSegments > 0 ==> n == maxSegments
    ensures maxSegments <= 0 && targetSize <= 0 ==> n == 1
  {
    if maxSegments > 0 then maxSegments
    else if targetSize > 0 && inputSize > 0 then (inputSize + targetSize - 1) / targetSize
    else 1
  }

  /** Without a given number, the size target asks for the fewest pieces that can stay within it. */
  lemma FewestPieces(maxSegments: int, targetSize: int, inputSize: nat, fewer: nat)
    requires maxSegments <= 0 && targetSize > 0
    ensures PieceCount(maxSegments, targetSize, inputSize) * targetSize >= inputSize
    ensures 1 <= fewer && fewer * targetSize >= inputSize ==> PieceCount(maxSegments, targetSize, inputSize) <= fewer
  {
    var n := PieceCount(maxSegments, targetSize, inputSize);
    if 1 <= fewer < n {
      ProductOrder(targetSize, fewer, n - 1);
    }
  }

  function Join(pieces: seq<seq<byte>>): seq<byte> {
    if pieces == [] then [] else pieces[0] + Join(pieces[1..])
  }

  lemma {:induction false} JoinAppend(pieces: seq<seq<byte>>, piece: seq<byte>)
    ensures Join(pieces + [piece]) == Join(pieces) + piece
  {
    if pieces == [] {
      assert ([] + [piece])[1..] == [];
    } else {
      assert (pieces + [piece])[1..] == pieces[1..] + [piece];
      JoinAppend(pieces[1..], piece);
    }
  }

  /** The larger pieces come first; all are the quotient or one byte more. */
  predicate Even(pieces: seq<seq<byte>>, size: nat) {
    && |pieces| > 0
    && forall k :: 0 <= k < |pieces| ==> |pieces[k]| == size / |pieces| + (if k < size % |pieces| then 1 else 0)
  }

  /** Copies a range through a fixed buffer; fails when the file ends early. */
  method CopyRange(input: seq<byte>, offset: nat, length: nat) returns (ok: bool, output: seq<byte>)
    ensures ok <==> length == 0 || offset + length <= |input|
    ensures ok ==> output == if length == 0 then [] else input[offset..offset + length]
  {
    output := [];
    if offset > |input| && length > 0 {
      return false, output;
    }
    var at, remaining := offset, length;
    while remaining > 0
      invariant 0 <= remaining <= length
      invariant length > 0 ==> offset <= at <= |input| && at + remaining == offset + length && output == input[offset..at]
      invariant length == 0 ==> output == []
    {
      var want := if remaining < BUFFER_SIZE then remaining else BUFFER_SIZE;
      var got := if want <= |input| - at then want else |input| - at;
      if got <= 0 {
        return false, output;
      }
      output := output + input[at..at + got];
      at := at + got;
      remaining := remaining - got;
    }
    return true, output;
  }

  lemma ProductOrder(d: nat, x: int, y: int)
    requires x <= y
    ensures d * x <= d * y
  {
  }

  lemma QuotientIs(a: nat, d: nat, e: nat)
    requires d > 0 && d * e <= a < d * e + d
    ensures a / d == e
  {
    var m := a / d;
    assert a == d * m + a % d;
    if m > e {
      ProductOrder(d, e + 1, m);
    } else if m < e {
      ProductOrder(d, m + 1, e);
    }
  }

  /** Rounding up what is left over the pieces left gives the quotient, plus one while the
      remainder lasts. */
  lemma RoundedUp(q: nat, left: nat, extra: nat)
    requires left > 0 && extra < left
    ensures left * q >= 0
    ensures (left * q + extra + left - 1) / left == q + (if extra > 0 then 1 else 0)
  {
    ProductOrder(left, 0, q);
    assert left * (q + 1) == left * q + left;
    QuotientIs(left * q + extra + left - 1, left, q + (if extra > 0 then 1 else 0));
  }

  /** Bytes left for the last `left` pieces when the first ones took their share. */
  function Left(q: nat, left: nat, extra: nat): int {
    left * q + extra
  }

  /** The next piece takes the quotient, plus one while the remainder lasts. */
  lemma NextPiece(q: nat, left: nat, extra: nat)
    requires left > 0 && extra < left
    ensures var length := (Left(q, left, extra) + left - 1) / left;
            && length == q + (if extra > 0 then 1 else 0)
            && 0 <= length <= Left(q, left, extra)
            && Left(q, left, extra) - length == Left(q, left - 1, if extra > 0 then extra - 1 else 0)
  {
    RoundedUp(q, left, extra);
    assert left * q == (left - 1) * q + q;
    ProductOrder(left - 1, 0, q);
  }

  /** The split is a partition of the file into even pieces, for any size and any count. */
  method Split(input: seq<byte>, count: nat) returns (pieces: seq<seq<byte>>)
    requires count >= 1
    ensures |pieces| == count && Even(pieces, |input|) && Join(pieces) == input
  {
    ghost var q: nat, r: nat := |input| / count, |input| % count;
    pieces := SplitEvenly(input, count, q, r);
  }

  method SplitEvenly(input: seq<byte>, count: nat, ghost q: nat, ghost r: nat) returns (pieces: seq<seq<byte>>)
    requires r < count && |input| == Left(q, count, r)
    ensures |pieces| == count && Join(pieces) == input
    ensures forall k :: 0 <= k < count ==> |pieces[k]| == q + (if k < r then 1 else 0)
  {
    pieces := [];
    var offset: nat := 0;
    for index := 0 to count
      invariant |pieces| == index && 0 <= offset <= |input|
      invariant Join(pieces) == input[..offset]
      invariant |input| - offset == Left(q, count - index, if index < r then r - index else 0)
      invariant forall k :: 0 <= k < index ==> |pieces[k]| == q + (if k < r then 1 else 0)
    {
      var remainingSegments := count - index;
      var remainingBytes := |input| - offset;
      NextPiece(q, remainingSegments, if index < r then r - index else 0);
      var length := (remainingBytes + remainingSegments - 1) / remainingSegments;
      var ok, piece := CopyRange(input, offset, length);
      JoinAppend(pieces, piece);
      assert input[..offset] + piece == input[..offset + length];
      pieces := pieces + [piece];
      offset := offset + length;
    }
    assert input[..offset] == input;
  }

  /** Even pieces never grow and differ by at most one byte. */
  lemma EvenPieces(pieces: seq<seq<byte>>, size: nat)
    requires Even(pieces, size)
    ensures forall i, k :: 0 <= i <= k < |pieces| ==> |pieces[k]| <= |pieces[i]| <= |pieces[k]| + 1
  {
  }

  /** When the count comes from the size target, no piece exceeds the target. */
  lemma WithinTarget(pieces: seq<seq<byte>>, size: nat, target: nat)
    requires target > 0 && size > 0 && |pieces| == PieceCount(0, target, size) && Even(pieces, size)
    ensures forall k :: 0 <= k < |pieces| ==> |pieces[k]| <= target
  {
    CountTimesTarget(size, target);
    LargestWithin(size, |pieces|, target);
  }

  lemma LargestWithin(size: nat, n: nat, target: nat)
    requires n >= 1 && n * target >= size
    ensures size / n + (if size % n > 0 then 1 else 0) <= target
  {
    assert size == n * (size / n) + size % n;
    if size / n > target {
      ProductOrder(n, target + 1, size / n);
    }
  }

  lemma CountTimesTarget(size: nat, target: nat)
    requires target > 0 && size > 0
    ensures PieceCount(0, target, size) * target >= size
  {
  }

  /** Appending files one after the other. */
  method AppendAll(inputs: seq<seq<byte>>) returns (output: seq<byte>)
    ensures output == Join(inputs)
  {
    output := [];
    assert inputs[..0] == [];
    for i := 0 to |inputs|
      invariant output == Join(inputs[..i])
    {
      assert inputs[..i + 1] == inputs[..i] + [inputs[i]];
      JoinAppend(inputs[..i], inputs[i]);
      output := output + inputs[i];
    }
    assert inputs[..|inputs|] == inputs;
  }

  /** Split, copy every piece, append the copies: the original file comes back. */
  method SplitCopyAppend(input: seq<byte>, maxSegments: int, targetSize: int) returns (output: seq<byte>)
    ensures output == input
  {
    var pieces := Split(input, PieceCount(maxSegments, targetSize, |input|));
    var copies: seq<seq<byte>> := [];
    for i := 0 to |pieces|
      invariant |copies| == i && forall k :: 0 <= k < i ==> copies[k] == pieces[k]
    {
      var ok, copy := CopyRange(pieces[i], 0, |pieces[i]|);
      assert pieces[i][0..|pieces[i]|] == pieces[i];
      copies := copies + [copy];
    }
    assert copies == pieces;
    output := AppendAll(copies);
  }
}
