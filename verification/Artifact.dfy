/** The FFAF version 1 artifact format: what a file of frames looks like and what a reader makes
    of any byte sequence. */
module Artifact {
  import opened Wrappers
  import opened LE = LittleEndian

  const VERSION := 1
  const HEADER_SIZE := 64
  const CODEC_PNG_BGRA := 1
  const MAX_PAYLOAD := 256 * 1024 * 1024
  const MAGIC: seq<byte> := [0x46, 0x46, 0x41, 0x46]

  datatype Metadata = Metadata(
    flags: u32, codec: u32, width: u32, height: u32, fpsNum: u32, fpsDen: u32,
    frameCount: u32, segmentIndex: u32, durationMs: u64)

  datatype Frame = Frame(index: u32, durationMs: u32, payload: seq<byte>)

  datatype Error =
    | Truncated | BadMagic | BadVersion | BadHeaderSize | BadCodec | NoDimensions | NoFps | NoFrameCount
    | EmptyPayload | PayloadTooLarge | WriterClosed | TooManyFrames | FrameCountMismatch
    | DimensionsDiffer | NoFrames

  function Validate(m: Metadata): Option<Error> {
    if m.codec != CODEC_PNG_BGRA then Some(BadCodec)
    else if m.width == 0 || m.height == 0 then Some(NoDimensions)
    else if m.fpsNum == 0 || m.fpsDen == 0 then Some(NoFps)
    else if m.frameCount == 0 then Some(NoFrameCount)
    else None
  }

  predicate ValidFrame(f: Frame) {
    0 < |f.payload| <= MAX_PAYLOAD
  }

  // ----- writing -----

  function FieldBytes(m: Metadata): (bs: seq<byte>)
    ensures |bs| == 40
  {
    Encode(m.flags, 4) + Encode(m.codec, 4) + Encode(m.width, 4) + Encode(m.height, 4)
    + Encode(m.fpsNum, 4) + Encode(m.fpsDen, 4) + Encode(m.frameCount, 4) + Encode(m.segmentIndex, 4)
    + Encode(m.durationMs, 8)
  }

  /** A header with any reserved words and an extension of any size. */
  function HeaderWith(m: Metadata, reserved: seq<byte>, extension: seq<byte>): (bs: seq<byte>)
    requires |reserved| == 16 && |extension| < 0x1_0000 - HEADER_SIZE
    ensures |bs| == HEADER_SIZE + |extension|
  {
    MAGIC + Encode(VERSION, 2) + Encode(HEADER_SIZE + |extension|, 2) + FieldBytes(m) + reserved + extension
  }

  /** The header the writer emits: reserved words zero, no extension. */
  function HeaderBytes(m: Metadata): (bs: seq<byte>)
    ensures |bs| == HEADER_SIZE
  {
    HeaderWith(m, Encode(0, 8) + Encode(0, 8), [])
  }

  function FrameBytes(f: Frame): (bs: seq<byte>)
    ensures |bs| == 16 + |f.payload|
  {
    Encode(f.index, 4) + Encode(f.durationMs, 4) + Encode(|f.payload|, 8) + f.payload
  }

  function FramesBytes(fs: seq<Frame>): seq<byte> {
    if fs == [] then [] else FrameBytes(fs[0]) + FramesBytes(fs[1..])
  }

  function FileBytes(m: Metadata, fs: seq<Frame>): seq<byte> {
    HeaderBytes(m) + FramesBytes(fs)
  }

  lemma {:induction false} FramesBytesAppend(fs: seq<Frame>, f: Frame)
    ensures FramesBytes(fs + [f]) == FramesBytes(fs) + FrameBytes(f)
  {
    if fs == [] {
      assert [f][1..] == [];
    } else {
      assert (fs + [f])[1..] == fs[1..] + [f];
      FramesBytesAppend(fs[1..], f);
    }
  }

  lemma FileBytesAppend(m: Metadata, fs: seq<Frame>, f: Frame)
    ensures FileBytes(m, fs + [f]) == FileBytes(m, fs) + FrameBytes(f)
  {
    FramesBytesAppend(fs, f);
    assert HeaderBytes(m) + (FramesBytes(fs) + FrameBytes(f)) == (HeaderBytes(m) + FramesBytes(fs)) + FrameBytes(f);
  }

  // ----- reading -----

  /** The metadata at its fixed place in a 64-byte header. */
  function FieldsOf(b: seq<byte>): Metadata
    requires HEADER_SIZE <= |b|
  {
    Metadata(Low32(b[8..12]), Low32(b[12..16]), Low32(b[16..20]), Low32(b[20..24]), Low32(b[24..28]),
             Low32(b[28..32]), Low32(b[32..36]), Low32(b[36..40]), Low64(b[40..48]))
  }

  /** Opening a file: the metadata and where the frames start. Skipping the extension of a longer
      header stops at the end of the file without an error, so a file cut inside its extension
      still opens. */
  function ReadHeader(b: seq<byte>): Result<(Metadata, nat), Error> {
    if |b| < 4 then Err(Truncated)
    else if b[..4] != MAGIC then Err(BadMagic)
    else if |b| < 6 then Err(Truncated)
    else if Low16(b[4..6]) != VERSION then Err(BadVersion)
    else if |b| < 8 then Err(Truncated)
    else if Low16(b[6..8]) < HEADER_SIZE then Err(BadHeaderSize)
    else if |b| < HEADER_SIZE then Err(Truncated)
    else match Validate(FieldsOf(b))
      case Some(e) => Err(e)
      case None => Ok((FieldsOf(b), if Low16(b[6..8]) <= |b| then Low16(b[6..8]) else |b|))
  }

  /** One frame record at `pos`, and where the next one starts. */
  function ReadFrame(b: seq<byte>, pos: nat): Result<(Frame, nat), Error> {
    if |b| < pos + 16 then Err(Truncated)
    else
      var size := Low64(b[pos + 8..pos + 16]);
      if size == 0 then Err(EmptyPayload)
      else if size > MAX_PAYLOAD then Err(PayloadTooLarge)
      else if |b| < pos + 16 + size then Err(Truncated)
      else Ok((Frame(Low32(b[pos..pos + 4]), Low32(b[pos + 4..pos + 8]), b[pos + 16..pos + 16 + size]), pos + 16 + size))
  }

  /** `n` frame records from `pos`, and where they end. */
  function ReadFrames(b: seq<byte>, pos: nat, n: nat): Result<(seq<Frame>, nat), Error>
    decreases n
  {
    if n == 0 then Ok(([], pos))
    else match ReadFrame(b, pos)
      case Err(e) => Err(e)
      case Ok((f, next)) =>
        match ReadFrames(b, next, n - 1)
        case Err(e) => Err(e)
        case Ok((fs, end)) => Ok(([f] + fs, end))
  }

  datatype Contents = Contents(metadata: Metadata, frames: seq<Frame>, end: nat)

  /** A full read: the header and every frame it announces. */
  function ReadFile(b: seq<byte>): Result<Contents, Error> {
    match ReadHeader(b)
    case Err(e) => Err(e)
    case Ok((m, pos)) =>
      match ReadFrames(b, pos, m.frameCount)
      case Err(e) => Err(e)
      case Ok((fs, end)) => Ok(Contents(m, fs, end))
  }

  // ----- reading back what was written -----

  lemma FieldsBack(m: Metadata, pre: seq<byte>, post: seq<byte>)
    requires |pre| == 8 && 16 <= |post|
    ensures FieldsOf(pre + FieldBytes(m) + post) == m
  {
    Widths();
    var b := pre + FieldBytes(m) + post;
    assert b[8..12] == Encode(m.flags, 4);
    assert b[12..16] == Encode(m.codec, 4);
    assert b[16..20] == Encode(m.width, 4);
    assert b[20..24] == Encode(m.height, 4);
    assert b[24..28] == Encode(m.fpsNum, 4);
    assert b[28..32] == Encode(m.fpsDen, 4);
    assert b[32..36] == Encode(m.frameCount, 4);
    assert b[36..40] == Encode(m.segmentIndex, 4);
    assert b[40..48] == Encode(m.durationMs, 8);
    DecodeEncode(m.flags, 4);
    DecodeEncode(m.codec, 4);
    DecodeEncode(m.width, 4);
    DecodeEncode(m.height, 4);
    DecodeEncode(m.fpsNum, 4);
    DecodeEncode(m.fpsDen, 4);
    DecodeEncode(m.frameCount, 4);
    DecodeEncode(m.segmentIndex, 4);
    DecodeEncode(m.durationMs, 8);
  }

  /** A header of any size, with any reserved words, is read back as its metadata. */
  lemma HeaderBack(m: Metadata, reserved: seq<byte>, extension: seq<byte>, rest: seq<byte>)
    requires Validate(m) == None && |reserved| == 16 && |extension| < 0x1_0000 - HEADER_SIZE
    ensures ReadHeader(HeaderWith(m, reserved, extension) + rest) == Ok((m, HEADER_SIZE + |extension|))
  {
    Widths();
    var b := HeaderWith(m, reserved, extension) + rest;
    var pre := MAGIC + Encode(VERSION, 2) + Encode(HEADER_SIZE + |extension|, 2);
    assert b == pre + FieldBytes(m) + (reserved + extension + rest);
    FieldsBack(m, pre, reserved + extension + rest);
    assert b[..4] == MAGIC;
    assert b[4..6] == Encode(VERSION, 2);
    assert b[6..8] == Encode(HEADER_SIZE + |extension|, 2);
    DecodeEncode(VERSION, 2);
    DecodeEncode(HEADER_SIZE + |extension|, 2);
  }

  /** `part` stands in `b` at `pos`. */
  predicate StandsAt(b: seq<byte>, pos: nat, part: seq<byte>) {
    pos + |part| <= |b| && b[pos..pos + |part|] == part
  }

  lemma FrameBack(b: seq<byte>, pos: nat, f: Frame)
    requires ValidFrame(f) && StandsAt(b, pos, FrameBytes(f))
    ensures ReadFrame(b, pos) == Ok((f, pos + |FrameBytes(f)|))
  {
    Widths();
    var part := FrameBytes(f);
    assert forall i :: 0 <= i < |part| ==> b[pos + i] == part[i];
    assert b[pos..pos + 4] == part[..4] == Encode(f.index, 4);
    assert b[pos + 4..pos + 8] == part[4..8] == Encode(f.durationMs, 4);
    assert b[pos + 8..pos + 16] == part[8..16] == Encode(|f.payload|, 8);
    assert b[pos + 16..pos + 16 + |f.payload|] == part[16..] == f.payload;
    DecodeEncode(f.index, 4);
    DecodeEncode(f.durationMs, 4);
    DecodeEncode(|f.payload|, 8);
  }

  lemma PartsStand(b: seq<byte>, pos: nat, first: seq<byte>, others: seq<byte>)
    requires StandsAt(b, pos, first + others)
    ensures StandsAt(b, pos, first) && StandsAt(b, pos + |first|, others)
  {
    var part := first + others;
    assert forall i :: 0 <= i < |part| ==> b[pos + i] == part[i];
    assert b[pos..pos + |first|] == part[..|first|];
    assert b[pos + |first|..pos + |part|] == part[|first|..];
  }

  lemma {:induction false} FramesBack(b: seq<byte>, pos: nat, fs: seq<Frame>)
    requires StandsAt(b, pos, FramesBytes(fs))
    requires forall i :: 0 <= i < |fs| ==> ValidFrame(fs[i])
    ensures ReadFrames(b, pos, |fs|) == Ok((fs, pos + |FramesBytes(fs)|))
    decreases |fs|
  {
    if fs != [] {
      var next := pos + |FrameBytes(fs[0])|;
      PartsStand(b, pos, FrameBytes(fs[0]), FramesBytes(fs[1..]));
      FrameBack(b, pos, fs[0]);
      FramesBack(b, next, fs[1..]);
      ReadFramesStep(b, pos, fs[0], next, fs[1..], next + |FramesBytes(fs[1..])|);
      assert fs == [fs[0]] + fs[1..];
    }
  }

  lemma ReadFramesStep(b: seq<byte>, pos: nat, f: Frame, next: nat, fs: seq<Frame>, end: nat)
    requires ReadFrame(b, pos) == Ok((f, next)) && ReadFrames(b, next, |fs|) == Ok((fs, end))
    ensures ReadFrames(b, pos, |fs| + 1) == Ok(([f] + fs, end))
  {
  }

  lemma MiddleStands(pre: seq<byte>, part: seq<byte>, post: seq<byte>)
    ensures StandsAt(pre + part + post, |pre|, part)
  {
  }

  lemma HeaderThenFrames(header: seq<byte>, m: Metadata, fs: seq<Frame>, rest: seq<byte>)
    requires ReadHeader(header + FramesBytes(fs) + rest) == Ok((m, |header|))
    requires |fs| == m.frameCount && forall i :: 0 <= i < |fs| ==> ValidFrame(fs[i])
    ensures ReadFile(header + FramesBytes(fs) + rest) == Ok(Contents(m, fs, |header + FramesBytes(fs)|))
  {
    MiddleStands(header, FramesBytes(fs), rest);
    FramesBack(header + FramesBytes(fs) + rest, |header|, fs);
  }

  /** Whatever its reserved words and however long its header extension, a file gives back the
      metadata and the frames written into it, and what follows the last frame is not looked at. */
  lemma RoundTrip(m: Metadata, reserved: seq<byte>, extension: seq<byte>, fs: seq<Frame>, rest: seq<byte>)
    requires Validate(m) == None && |reserved| == 16 && |extension| < 0x1_0000 - HEADER_SIZE
    requires |fs| == m.frameCount && forall i :: 0 <= i < |fs| ==> ValidFrame(fs[i])
    ensures var file := HeaderWith(m, reserved, extension) + FramesBytes(fs);
            ReadFile(file + rest) == Ok(Contents(m, fs, |file|))
  {
    var header := HeaderWith(m, reserved, extension);
    HeaderBack(m, reserved, extension, FramesBytes(fs) + rest);
    assert header + FramesBytes(fs) + rest == header + (FramesBytes(fs) + rest);
    HeaderThenFrames(header, m, fs, rest);
  }

  // ----- cut files -----

  lemma ReadFrameCut(b: seq<byte>, pos: nat, cut: nat)
    requires ReadFrame(b, pos).Ok? && cut <= |b|
    ensures ReadFrame(b[..cut], pos) == if cut < ReadFrame(b, pos).value.1 then Err(Truncated) else ReadFrame(b, pos)
  {
    if pos + 16 <= cut {
      assert b[..cut][pos + 8..pos + 16] == b[pos + 8..pos + 16];
      assert b[..cut][pos..pos + 4] == b[pos..pos + 4];
      assert b[..cut][pos + 4..pos + 8] == b[pos + 4..pos + 8];
      var size := Low64(b[pos + 8..pos + 16]);
      if pos + 16 + size <= cut {
        assert b[..cut][pos + 16..pos + 16 + size] == b[pos + 16..pos + 16 + size];
      }
    }
  }

  lemma {:induction false} ReadFramesCut(b: seq<byte>, pos: nat, n: nat, cut: nat)
    requires ReadFrames(b, pos, n).Ok? && pos <= cut <= |b|
    ensures pos <= ReadFrames(b, pos, n).value.1 <= |b|
    ensures ReadFrames(b[..cut], pos, n) ==
            if cut < ReadFrames(b, pos, n).value.1 then Err(Truncated) else ReadFrames(b, pos, n)
    decreases n
  {
    if n > 0 {
      var next := ReadFrame(b, pos).value.1;
      ReadFrameCut(b, pos, cut);
      if next <= cut {
        ReadFramesCut(b, next, n - 1, cut);
      } else {
        ReadFramesCut(b, next, n - 1, |b|);
      }
    }
  }

  lemma ReadHeaderCut(b: seq<byte>, cut: nat)
    requires ReadHeader(b).Ok? && cut <= |b|
    ensures ReadHeader(b[..cut]) ==
            if cut < HEADER_SIZE then Err(Truncated)
            else Ok((ReadHeader(b).value.0, if cut < ReadHeader(b).value.1 then cut else ReadHeader(b).value.1))
  {
    if 4 <= cut { assert b[..cut][..4] == b[..4]; }
    if 6 <= cut { assert b[..cut][4..6] == b[4..6]; }
    if 8 <= cut { assert b[..cut][6..8] == b[6..8]; }
    if HEADER_SIZE <= cut {
      assert forall i, j :: 0 <= i <= j <= HEADER_SIZE ==> b[..cut][i..j] == b[i..j];
    }
  }

  /** A full read looks at nothing beyond its end, and any file cut before that end is rejected
      as truncated, wherever the cut falls. */
  lemma CutFiles(b: seq<byte>, cut: nat)
    requires ReadFile(b).Ok? && cut <= |b|
    ensures ReadFile(b).value.end <= |b|
    ensures ReadFile(b[..cut]) == if cut < ReadFile(b).value.end then Err(Truncated) else ReadFile(b)
  {
    var (m, pos) := ReadHeader(b).value;
    ReadHeaderCut(b, cut);
    ReadFramesCut(b, pos, m.frameCount, |b|);
    if pos <= cut {
      ReadFramesCut(b, pos, m.frameCount, cut);
    }
  }

  // ----- writing back what was read -----

  lemma FrameAgain(b: seq<byte>, pos: nat)
    requires ReadFrame(b, pos).Ok?
    ensures var (f, next) := ReadFrame(b, pos).value;
            next <= |b| && pos <= next && FrameBytes(f) == b[pos..next] && ValidFrame(f)
  {
    var (f, next) := ReadFrame(b, pos).value;
    EncodeDecode(b[pos..pos + 4]);
    EncodeDecode(b[pos + 4..pos + 8]);
    EncodeDecode(b[pos + 8..pos + 16]);
    assert b[pos..next] == b[pos..pos + 4] + b[pos + 4..pos + 8] + b[pos + 8..pos + 16] + b[pos + 16..next];
  }

  lemma {:induction false} FramesAgain(b: seq<byte>, pos: nat, n: nat)
    requires ReadFrames(b, pos, n).Ok? && pos <= |b|
    ensures var (fs, end) := ReadFrames(b, pos, n).value;
            && |fs| == n && pos <= end <= |b| && FramesBytes(fs) == b[pos..end]
            && forall i :: 0 <= i < n ==> ValidFrame(fs[i])
    decreases n
  {
    if n > 0 {
      FrameAgain(b, pos);
      var (f, next) := ReadFrame(b, pos).value;
      FramesAgain(b, next, n - 1);
      var (fs, end) := ReadFrames(b, next, n - 1).value;
      assert ([f] + fs)[1..] == fs;
      assert b[pos..end] == b[pos..next] + b[next..end];
    }
  }

  /** The field bytes of a header, cut at the field borders. */
  lemma FieldSlices(b: seq<byte>)
    requires HEADER_SIZE <= |b|
    ensures b[8..48] == b[8..12] + b[12..16] + b[16..20] + b[20..24] + b[24..28] + b[28..32] + b[32..36] + b[36..40] + b[40..48]
  {
  }

  lemma FieldsAgain(b: seq<byte>)
    requires HEADER_SIZE <= |b|
    ensures FieldBytes(FieldsOf(b)) == b[8..48]
  {
    EncodeDecode(b[8..12]);
    EncodeDecode(b[12..16]);
    EncodeDecode(b[16..20]);
    EncodeDecode(b[20..24]);
    EncodeDecode(b[24..28]);
    EncodeDecode(b[28..32]);
    EncodeDecode(b[32..36]);
    EncodeDecode(b[36..40]);
    EncodeDecode(b[40..48]);
    FieldSlices(b);
  }

  /** Any accepted file is exactly one header, as it stood, followed by its frames written again. */
  lemma Rewritten(b: seq<byte>)
    requires ReadFile(b).Ok?
    ensures var c := ReadFile(b).value; var size := Low16(b[6..8]);
            && HEADER_SIZE <= size <= c.end <= |b|
            && |c.frames| == c.metadata.frameCount
            && b[..c.end] == HeaderWith(c.metadata, b[48..64], b[64..size]) + FramesBytes(c.frames)
  {
    var (m, pos) := ReadHeader(b).value;
    var size := Low16(b[6..8]);
    FramesAgain(b, pos, m.frameCount);
    assert ReadFrame(b, |b|).Err?;
    var end := ReadFile(b).value.end;
    FieldsAgain(b);
    EncodeDecode(b[4..6]);
    EncodeDecode(b[6..8]);
    assert |b[64..size]| == size - 64;
    assert b[..size] == b[..4] + b[4..6] + b[6..8] + b[8..48] + b[48..64] + b[64..size];
    assert b[..end] == b[..size] + b[size..end];
  }

  /** A file with a plain header and zero reserved words is reproduced byte for byte by writing
      again what was read from it. */
  lemma Canonical(b: seq<byte>)
    requires ReadFile(b).Ok?
    requires Low16(b[6..8]) == HEADER_SIZE && b[48..64] == Encode(0, 8) + Encode(0, 8)
    ensures var c := ReadFile(b).value;
            c.end <= |b| && FileBytes(c.metadata, c.frames) == b[..c.end]
  {
    Rewritten(b);
    assert b[64..64] == [];
  }
}
