/** The artifact format in plain numbers, as its description gives it: which byte holds what, and
    exactly which bytes a reader accepts. */
module ArtifactLayout {
  import opened Wrappers
  import opened LE = LittleEndian
  import opened Artifact

  function At16(b: seq<byte>, k: nat): int
    requires k + 2 <= |b|
  {
    var low: int, high: int := b[k], b[k + 1];
    low + 256 * high
  }

  function At32(b: seq<byte>, k: nat): int
    requires k + 4 <= |b|
  {
    At16(b, k) + 65536 * At16(b, k + 2)
  }

  function At64(b: seq<byte>, k: nat): int
    requires k + 8 <= |b|
  {
    At32(b, k) + 4294967296 * At32(b, k + 4)
  }

  lemma DecodePair(bs: seq<byte>)
    requires |bs| >= 2
    ensures Decode(bs) == bs[0] + 256 * bs[1] + 65536 * Decode(bs[2..])
  {
    assert bs[1..][1..] == bs[2..];
  }

  lemma DecodeAt(b: seq<byte>, k: nat)
    ensures k + 2 <= |b| ==> Decode(b[k..k + 2]) == At16(b, k)
    ensures k + 4 <= |b| ==> Decode(b[k..k + 4]) == At32(b, k)
  {
    if k + 2 <= |b| {
      DecodePair(b[k..k + 2]);
      assert b[k..k + 2][2..] == [];
    }
    if k + 4 <= |b| {
      DecodePair(b[k..k + 4]);
      assert b[k..k + 4][2..] == b[k + 2..k + 4];
      DecodePair(b[k + 2..k + 4]);
      assert b[k + 2..k + 4][2..] == [];
    }
  }

  lemma DecodeAt64(b: seq<byte>, k: nat)
    requires k + 8 <= |b|
    ensures Decode(b[k..k + 8]) == At64(b, k)
  {
    DecodePair(b[k..k + 8]);
    assert b[k..k + 8][2..] == b[k + 2..k + 8];
    DecodePair(b[k + 2..k + 8]);
    assert b[k + 2..k + 8][2..] == b[k + 4..k + 8];
    DecodeAt(b, k + 4);
  }

  // ----- what is written -----

  lemma Field32(b: seq<byte>, k: nat, v: u32)
    requires k + 4 <= |b| && b[k..k + 4] == Encode(v, 4)
    ensures At32(b, k) == v
  {
    Widths();
    DecodeEncode(v, 4);
    DecodeAt(b, k);
  }

  lemma Field64(b: seq<byte>, k: nat, v: u64)
    requires k + 8 <= |b| && b[k..k + 8] == Encode(v, 8)
    ensures At64(b, k) == v
  {
    Widths();
    DecodeEncode(v, 8);
    DecodeAt64(b, k);
  }

  lemma {:induction false} ZeroBytes(n: nat)
    ensures forall i :: 0 <= i < n ==> Encode(0, n)[i] == 0
  {
    if n > 0 {
      ZeroBytes(n - 1);
    }
  }

  /** The first eight bytes: "FFAF", version 1, header size 64, low byte first. */
  lemma PrefixLayout(m: Metadata)
    ensures HeaderBytes(m)[..8] == [0x46, 0x46, 0x41, 0x46, 1, 0, 64, 0]
  {
    assert Encode(1, 2) == [1] + Encode(0, 1) && Encode(0, 1) == [0] + Encode(0, 0);
    assert Encode(64, 2) == [64] + Encode(0, 1);
    assert HeaderBytes(m)[..8] == MAGIC + Encode(VERSION, 2) + Encode(HEADER_SIZE, 2);
  }

  lemma FieldsLayout(m: Metadata)
    ensures var h := HeaderBytes(m);
            && At32(h, 8) == m.flags && At32(h, 12) == m.codec && At32(h, 16) == m.width && At32(h, 20) == m.height
            && At32(h, 24) == m.fpsNum && At32(h, 28) == m.fpsDen && At32(h, 32) == m.frameCount
            && At32(h, 36) == m.segmentIndex && At64(h, 40) == m.durationMs
  {
    var pre := MAGIC + Encode(VERSION, 2) + Encode(HEADER_SIZE, 2);
    var reserved := Encode(0, 8) + Encode(0, 8);
    assert HeaderBytes(m) == pre + FieldBytes(m) + reserved;
    FieldsBack(m, pre, reserved);
    FieldsAt(HeaderBytes(m));
  }

  /** The header of a written file, byte by byte. */
  lemma HeaderLayout(m: Metadata)
    ensures |HeaderBytes(m)| == 64 && HeaderBytes(m)[..8] == [0x46, 0x46, 0x41, 0x46, 1, 0, 64, 0]
    ensures var h := HeaderBytes(m);
            && At32(h, 8) == m.flags && At32(h, 12) == m.codec && At32(h, 16) == m.width && At32(h, 20) == m.height
            && At32(h, 24) == m.fpsNum && At32(h, 28) == m.fpsDen && At32(h, 32) == m.frameCount
            && At32(h, 36) == m.segmentIndex && At64(h, 40) == m.durationMs
    ensures forall i :: 48 <= i < 64 ==> HeaderBytes(m)[i] == 0
  {
    PrefixLayout(m);
    FieldsLayout(m);
    ZeroBytes(8);
    assert HeaderBytes(m)[48..64] == Encode(0, 8) + Encode(0, 8);
    forall i | 48 <= i < 64 ensures HeaderBytes(m)[i] == 0 {
      assert HeaderBytes(m)[i] == HeaderBytes(m)[48..64][i - 48];
    }
  }

  /** A frame record, byte by byte. */
  lemma FrameLayout(f: Frame)
    requires ValidFrame(f)
    ensures |FrameBytes(f)| == 16 + |f.payload| && 1 <= |f.payload| <= 268435456
    ensures var r := FrameBytes(f);
            At32(r, 0) == f.index && At32(r, 4) == f.durationMs && At64(r, 8) == |f.payload| && r[16..] == f.payload
  {
    var r := FrameBytes(f);
    Field32(r, 0, f.index);
    Field32(r, 4, f.durationMs);
    Field64(r, 8, |f.payload|);
  }

  // ----- what is accepted -----

  /** The metadata a reader may accept. */
  lemma ValidMetadata(m: Metadata)
    ensures Validate(m) == None <==>
              m.codec == 1 && m.width > 0 && m.height > 0 && m.fpsNum > 0 && m.fpsDen > 0 && m.frameCount > 0
  {
  }

  lemma FieldsAt(b: seq<byte>)
    requires 64 <= |b|
    ensures var m := FieldsOf(b);
            && m.flags == At32(b, 8) && m.codec == At32(b, 12) && m.width == At32(b, 16) && m.height == At32(b, 20)
            && m.fpsNum == At32(b, 24) && m.fpsDen == At32(b, 28) && m.frameCount == At32(b, 32)
            && m.segmentIndex == At32(b, 36) && m.durationMs == At64(b, 40)
  {
    DecodeAt(b, 8);
    DecodeAt(b, 12);
    DecodeAt(b, 16);
    DecodeAt(b, 20);
    DecodeAt(b, 24);
    DecodeAt(b, 28);
    DecodeAt(b, 32);
    DecodeAt(b, 36);
    DecodeAt64(b, 40);
  }

  /** A file opens exactly when it has a full 64-byte header with the right marks and usable numbers;
      its frames start behind the header size it names, or at the end of the file. */
  lemma HeaderAccepted(b: seq<byte>)
    ensures ReadHeader(b).Ok? <==>
              && |b| >= 64 && b[0] == 0x46 && b[1] == 0x46 && b[2] == 0x41 && b[3] == 0x46
              && At16(b, 4) == 1 && At16(b, 6) >= 64 && At32(b, 12) == 1 && At32(b, 16) > 0 && At32(b, 20) > 0
              && At32(b, 24) > 0 && At32(b, 28) > 0 && At32(b, 32) > 0
    ensures ReadHeader(b).Ok? ==>
              var (m, pos) := ReadHeader(b).value;
              m == FieldsOf(b) && pos == if At16(b, 6) <= |b| then At16(b, 6) else |b|
  {
    if |b| >= 64 {
      FieldsAt(b);
      DecodeAt(b, 4);
      DecodeAt(b, 6);
      ValidMetadata(FieldsOf(b));
      assert b[..4] == [b[0], b[1], b[2], b[3]];
    }
  }

  /** A frame is read exactly when its record is complete and its payload within 1 and 268435456 bytes. */
  lemma FrameAccepted(b: seq<byte>, pos: nat)
    ensures ReadFrame(b, pos).Ok? <==>
              pos + 16 <= |b| && 1 <= At64(b, pos + 8) <= 268435456 && pos + 16 + At64(b, pos + 8) <= |b|
    ensures ReadFrame(b, pos).Ok? ==>
              var (f, next) := ReadFrame(b, pos).value;
              && f.index == At32(b, pos) && f.durationMs == At32(b, pos + 4) && next == pos + 16 + At64(b, pos + 8)
              && f.payload == b[pos + 16..next]
  {
    if pos + 16 <= |b| {
      DecodeAt(b, pos);
      DecodeAt(b, pos + 4);
      DecodeAt64(b, pos + 8);
    }
  }
}
