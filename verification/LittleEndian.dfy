/** Unsigned little-endian integers as byte sequences. */
module LittleEndian {

  type byte = x: int | 0 <= x < 256

  type u32 = x: int | 0 <= x < 0x1_0000_0000

  type u64 = x: int | 0 <= x < 0x1_0000_0000_0000_0000

  function Power256(n: nat): nat {
    if n == 0 then 1 else 256 * Power256(n - 1)
  }

  /** The `n` low bytes of `v`, least significant first. */
  function Encode(v: nat, n: nat): (bs: seq<byte>)
    ensures |bs| == n
  {
    if n == 0 then [] else [v % 256] + Encode(v / 256, n - 1)
  }

  function Decode(bs: seq<byte>): nat {
    if bs == [] then 0 else bs[0] + 256 * Decode(bs[1..])
  }

  lemma {:induction false} DecodeEncode(v: nat, n: nat)
    requires v < Power256(n)
    ensures Decode(Encode(v, n)) == v
  {
    if n > 0 {
      DecodeEncode(v / 256, n - 1);
      assert Encode(v, n)[1..] == Encode(v / 256, n - 1);
    }
  }

  lemma {:induction false} EncodeDecode(bs: seq<byte>)
    ensures Decode(bs) < Power256(|bs|)
    ensures Encode(Decode(bs), |bs|) == bs
  {
    if bs != [] {
      EncodeDecode(bs[1..]);
      LowByte(bs[0], Decode(bs[1..]), Power256(|bs| - 1));
      assert bs == [bs[0]] + bs[1..];
    }
  }

  lemma LowByte(b: byte, rest: nat, bound: nat)
    requires rest < bound
    ensures (b + 256 * rest) % 256 == b && (b + 256 * rest) / 256 == rest && b + 256 * rest < 256 * bound
  {
  }

  lemma Widths()
    ensures Power256(2) == 0x1_0000 && Power256(4) == 0x1_0000_0000 && Power256(8) == 0x1_0000_0000_0000_0000
  {
  }

  function Low16(bs: seq<byte>): int
    requires |bs| == 2
    ensures 0 <= Low16(bs) < 0x1_0000 && Low16(bs) == Decode(bs)
  {
    EncodeDecode(bs);
    Widths();
    Decode(bs)
  }

  function Low32(bs: seq<byte>): u32
    requires |bs| == 4
    ensures Low32(bs) == Decode(bs)
  {
    EncodeDecode(bs);
    Widths();
    Decode(bs)
  }

  function Low64(bs: seq<byte>): u64
    requires |bs| == 8
    ensures Low64(bs) == Decode(bs)
  {
    EncodeDecode(bs);
    Widths();
    Decode(bs)
  }

  /** The writer's four shifted and masked bytes are the encoding. */
  method Bytes32(v: u32) returns (bs: seq<byte>)
    ensures bs == Encode(v, 4)
  {
    bs := [v % 256, v / 0x100 % 256, v / 0x1_0000 % 256, v / 0x100_0000 % 256];
    assert v / 0x100 / 256 == v / 0x1_0000 && v / 0x1_0000 / 256 == v / 0x100_0000;
    assert Encode(v / 0x100_0000, 1) == [v / 0x100_0000 % 256] + Encode(v / 0x100_0000 / 256, 0);
    assert Encode(v / 0x1_0000, 2) == [v / 0x1_0000 % 256] + Encode(v / 0x100_0000, 1);
    assert Encode(v / 0x100, 3) == [v / 0x100 % 256] + Encode(v / 0x1_0000, 2);
  }

  /** The reader's or-ed shifts are the decoding. */
  method Value32(bs: seq<byte>) returns (v: u32)
    requires |bs| == 4
    ensures v == Low32(bs)
  {
    EncodeDecode(bs);
    Widths();
    assert bs[3..][1..] == [] && bs[2..][1..] == bs[3..] && bs[1..][1..] == bs[2..];
    assert Decode(bs[3..]) == bs[3];
    assert Decode(bs[2..]) == bs[2] + 256 * Decode(bs[3..]);
    assert Decode(bs[1..]) == bs[1] + 256 * Decode(bs[2..]);
    var b0: int, b1: int, b2: int, b3: int := bs[0], bs[1], bs[2], bs[3];
    v := b0 + b1 * 0x100 + b2 * 0x1_0000 + b3 * 0x100_0000;
  }
}
