/** The writer and the reader of artifacts as objects that advance a stream. */
module ArtifactFiles {
  import opened Wrappers
  import opened LE = LittleEndian
  import opened Artifact

  /** Appends to a stream; refuses what would make the file unreadable. */
  class ArtifactWriter {
    var output: seq<byte>
    var metadata: Metadata
    var writtenFrames: nat
    var closed: bool
    ghost var frames: seq<Frame>

    /** What has been written is a header and whole frames, no more than announced. */
    ghost predicate Valid()
      reads this
    {
      && Validate(metadata) == None
      && output == FileBytes(metadata, frames)
      && |frames| == writtenFrames <= metadata.frameCount
      && (forall i :: 0 <= i < |frames| ==> ValidFrame(frames[i]))
      && (closed ==> writtenFrames == metadata.frameCount)
    }

    constructor (m: Metadata)
      requires Validate(m) == None
      ensures Valid() && metadata == m && frames == [] && !closed
    {
      metadata, writtenFrames, closed, frames := m, 0, false, [];
      output := [];
      new;
      WriteExact(MAGIC + Encode(VERSION, 2) + Encode(HEADER_SIZE, 2));
      WriteFields(m);
      WriteExact(Encode(0, 8) + Encode(0, 8));
      assert output + [] == output;
      assert output == FileBytes(m, []);
    }

    method WriteFields(m: Metadata)
      modifies this`output
      ensures output == old(output) + FieldBytes(m)
    {
      ghost var start := output;
      ghost var fields := Encode(m.flags, 4);
      WriteU32(m.flags);
      fields := WriteNext(start, fields, m.codec);
      fields := WriteNext(start, fields, m.width);
      fields := WriteNext(start, fields, m.height);
      fields := WriteNext(start, fields, m.fpsNum);
      fields := WriteNext(start, fields, m.fpsDen);
      fields := WriteNext(start, fields, m.frameCount);
      fields := WriteNext(start, fields, m.segmentIndex);
      Behind(start, fields, Encode(m.durationMs, 8));
      WriteExact(Encode(m.durationMs, 8));
    }

    /** Appends a field behind those written since `start`. */
    method WriteNext(ghost start: seq<byte>, ghost fields: seq<byte>, v: u32) returns (ghost more: seq<byte>)
      requires output == start + fields
      modifies this`output
      ensures more == fields + Encode(v, 4) && output == start + more
    {
      Behind(start, fields, Encode(v, 4));
      WriteU32(v);
      more := fields + Encode(v, 4);
    }

    static lemma Behind(start: seq<byte>, fields: seq<byte>, more: seq<byte>)
      ensures start + fields + more == start + (fields + more)
    {
    }

    method WriteFrameBytes(index: u32, durationMs: u32, payload: seq<byte>)
      requires |payload| <= MAX_PAYLOAD
      modifies this`output
      ensures output == old(output) + FrameBytes(Frame(index, durationMs, payload))
    {
      WriteU32(index);
      WriteU32(durationMs);
      WriteExact(Encode(|payload|, 8));
      WriteExact(payload);
    }

    method WriteExact(bs: seq<byte>)
      modifies this`output
      ensures output == old(output) + bs
    {
      output := output + bs;
    }

    method WriteU32(v: u32)
      modifies this`output
      ensures output == old(output) + Encode(v, 4)
    {
      var bs := Bytes32(v);
      WriteExact(bs);
    }

    /** Opening for writing: invalid metadata is refused and nothing is created. */
    static method Create(m: Metadata) returns (r: Result<ArtifactWriter, Error>)
      ensures r.Ok? <==> Validate(m) == None
      ensures r.Ok? ==> fresh(r.value) && r.value.Valid() && r.value.metadata == m && r.value.frames == [] && !r.value.closed
      ensures r.Err? ==> Validate(m) == Some(r.error)
    {
      if m.codec != CODEC_PNG_BGRA {
        return Err(BadCodec);
      }
      if m.width == 0 || m.height == 0 {
        return Err(NoDimensions);
      }
      if m.fpsNum == 0 || m.fpsDen == 0 {
        return Err(NoFps);
      }
      if m.frameCount == 0 {
        return Err(NoFrameCount);
      }
      var w := new ArtifactWriter(m);
      return Ok(w);
    }

    method WriteFrame(index: u32, durationMs: u32, payload: seq<byte>) returns (failure: Option<Error>)
      requires Valid()
      modifies this
      ensures Valid() && metadata == old(metadata) && closed == old(closed)
      ensures failure == if old(closed) then Some(WriterClosed)
                         else if old(|frames|) >= metadata.frameCount then Some(TooManyFrames)
                         else if payload == [] then Some(EmptyPayload)
                         else if |payload| > MAX_PAYLOAD then Some(PayloadTooLarge)
                         else None
      ensures frames == if failure.None? then old(frames) + [Frame(index, durationMs, payload)] else old(frames)
    {
      if closed {
        return Some(WriterClosed);
      }
      if writtenFrames >= metadata.frameCount {
        return Some(TooManyFrames);
      }
      if |payload| == 0 {
        return Some(EmptyPayload);
      }
      if |payload| > MAX_PAYLOAD {
        return Some(PayloadTooLarge);
      }
      WriteFrameBytes(index, durationMs, payload);
      FileBytesAppend(metadata, frames, Frame(index, durationMs, payload));
      frames := frames + [Frame(index, durationMs, payload)];
      writtenFrames := writtenFrames + 1;
      return None;
    }

    /** Closing succeeds exactly when every announced frame was written, and then a full read of
        the file returns exactly what was written. */
    method Close() returns (failure: Option<Error>)
      requires Valid()
      modifies this`closed
      ensures Valid()
      ensures failure == if |frames| == metadata.frameCount then None else Some(FrameCountMismatch)
      ensures closed == (failure == None)
      ensures closed ==> ReadFile(output) == Ok(Contents(metadata, frames, |output|))
    {
      if !closed {
        if writtenFrames != metadata.frameCount {
          return Some(FrameCountMismatch);
        }
        closed := true;
      }
      RoundTrip(metadata, Encode(0, 8) + Encode(0, 8), [], frames, []);
      assert output + [] == output;
      return None;
    }
  }

  /** Reads a header on opening, then one frame per call until the announced count is reached.
      After an error the reader is abandoned. */
  class ArtifactReader {
    const input: seq<byte>
    var pos: nat
    var metadata: Metadata
    var readFrames: nat

    constructor (input: seq<byte>, metadata: Metadata, pos: nat)
      ensures this.input == input && this.metadata == metadata && this.pos == pos && readFrames == 0
    {
      this.input, this.metadata, this.pos, this.readFrames := input, metadata, pos, 0;
    }

    static method Open(input: seq<byte>) returns (r: Result<ArtifactReader, Error>)
      ensures r.Ok? <==> ReadHeader(input).Ok?
      ensures r.Err? ==> ReadHeader(input) == Err(r.error)
      ensures r.Ok? ==> fresh(r.value) && r.value.input == input && r.value.readFrames == 0
                        && ReadHeader(input) == Ok((r.value.metadata, r.value.pos))
    {
      if |input| < 4 {
        return Err(Truncated);
      }
      if input[..4] != MAGIC {
        return Err(BadMagic);
      }
      if |input| < 6 {
        return Err(Truncated);
      }
      if Low16(input[4..6]) != VERSION {
        return Err(BadVersion);
      }
      if |input| < 8 {
        return Err(Truncated);
      }
      var headerSize := Low16(input[6..8]);
      if headerSize < HEADER_SIZE {
        return Err(BadHeaderSize);
      }
      if |input| < HEADER_SIZE {
        return Err(Truncated);
      }
      var flags := Value32(input[8..12]);
      var codec := Value32(input[12..16]);
      var width := Value32(input[16..20]);
      var height := Value32(input[20..24]);
      var fpsNum := Value32(input[24..28]);
      var fpsDen := Value32(input[28..32]);
      var frameCount := Value32(input[32..36]);
      var segmentIndex := Value32(input[36..40]);
      var m := Metadata(flags, codec, width, height, fpsNum, fpsDen, frameCount, segmentIndex, Low64(input[40..48]));
      assert m == FieldsOf(input);
      var start := HEADER_SIZE;
      if headerSize > HEADER_SIZE {
        start := if headerSize <= |input| then headerSize else |input|;
      }
      var bad := Validate(m);
      if bad.Some? {
        return Err(bad.value);
      }
      var reader := new ArtifactReader(input, m, start);
      return Ok(reader);
    }

    method NextFrame() returns (r: Result<Option<Frame>, Error>)
      modifies this`pos, this`readFrames
      ensures old(readFrames) >= metadata.frameCount ==> r == Ok(None) && pos == old(pos) && readFrames == old(readFrames)
      ensures old(readFrames) < metadata.frameCount ==>
                match ReadFrame(input, old(pos))
                case Err(e) => r == Err(e)
                case Ok((f, next)) => r == Ok(Some(f)) && pos == next && readFrames == old(readFrames) + 1
    {
      if readFrames >= metadata.frameCount {
        return Ok(None);
      }
      if |input| < pos + 16 {
        return Err(Truncated);
      }
      var index := Value32(input[pos..pos + 4]);
      var durationMs := Value32(input[pos + 4..pos + 8]);
      var size := Low64(input[pos + 8..pos + 16]);
      if size == 0 {
        return Err(EmptyPayload);
      }
      if size > MAX_PAYLOAD {
        return Err(PayloadTooLarge);
      }
      if |input| < pos + 16 + size {
        return Err(Truncated);
      }
      var f := Frame(index, durationMs, input[pos + 16..pos + 16 + size]);
      pos := pos + 16 + size;
      readFrames := readFrames + 1;
      return Ok(Some(f));
    }
  }

  // ----- concatenating the frames of several artifacts -----

  function Payloads(fs: seq<Frame>): (ps: seq<seq<byte>>)
    ensures |ps| == |fs| && forall i :: 0 <= i < |fs| ==> ps[i] == fs[i].payload
  {
    seq(|fs|, i requires 0 <= i < |fs| => fs[i].payload)
  }

  /** The images of all artifacts in input order; every artifact must open, have the size of the
      first and be complete. */
  function Concatenate(inputs: seq<seq<byte>>, size: Option<(u32, u32)>): Result<seq<seq<byte>>, Error> {
    if inputs == [] then Ok([])
    else match ReadHeader(inputs[0])
      case Err(e) => Err(e)
      case Ok((m, pos)) =>
        if size.Some? && size.value != (m.width, m.height) then Err(DimensionsDiffer)
        else match ReadFrames(inputs[0], pos, m.frameCount)
          case Err(e) => Err(e)
          case Ok((fs, _)) =>
            match Concatenate(inputs[1..], Some((m.width, m.height)))
            case Err(e) => Err(e)
            case Ok(rest) => Ok(Payloads(fs) + rest)
  }

  function Assembled(inputs: seq<seq<byte>>): Result<seq<seq<byte>>, Error> {
    match Concatenate(inputs, None)
    case Err(e) => Err(e)
    case Ok(images) => if images == [] then Err(NoFrames) else Ok(images)
  }

  /** Reads the remaining frames of an open artifact behind those already collected. */
  method AppendFrames(reader: ArtifactReader, images: seq<seq<byte>>) returns (r: Result<seq<seq<byte>>, Error>)
    requires reader.readFrames == 0
    modifies reader
    ensures match ReadFrames(reader.input, old(reader.pos), old(reader.metadata).frameCount)
            case Err(e) => r == Err(e)
            case Ok((fs, _)) => r == Ok(images + Payloads(fs))
  {
    var m := reader.metadata;
    var collected := images;
    ghost var seen: seq<Frame> := [];
    ghost var all := ReadFrames(reader.input, reader.pos, m.frameCount);
    PrefixedNone(all);
    while true
      invariant reader.metadata == m && |seen| == reader.readFrames <= m.frameCount
      invariant collected == images + Payloads(seen)
      invariant all == Prefixed(seen, ReadFrames(reader.input, reader.pos, m.frameCount - reader.readFrames))
      decreases m.frameCount - reader.readFrames
    {
      var next := reader.NextFrame();
      if next.Err? {
        return Err(next.error);
      }
      if next.value.None? {
        assert seen + [] == seen;
        return Ok(collected);
      }
      var frame := next.value.value;
      PrefixedGrows(seen, frame, ReadFrames(reader.input, reader.pos, m.frameCount - reader.readFrames));
      assert Payloads(seen + [frame]) == Payloads(seen) + [frame.payload];
      collected := collected + [frame.payload];
      seen := seen + [frame];
    }
  }

  ghost function Prefixed(fs: seq<Frame>, r: Result<(seq<Frame>, nat), Error>): Result<(seq<Frame>, nat), Error> {
    match r
    case Err(e) => Err(e)
    case Ok((more, end)) => Ok((fs + more, end))
  }

  lemma PrefixedNone(r: Result<(seq<Frame>, nat), Error>)
    ensures Prefixed([], r) == r
  {
    if r.Ok? {
      assert [] + r.value.0 == r.value.0;
    }
  }

  lemma PrefixedGrows(fs: seq<Frame>, f: Frame, r: Result<(seq<Frame>, nat), Error>)
    ensures Prefixed(fs, match r case Err(e) => Err(e) case Ok((more, end)) => Ok(([f] + more, end))) == Prefixed(fs + [f], r)
  {
    if r.Ok? {
      assert fs + ([f] + r.value.0) == (fs + [f]) + r.value.0;
    }
  }

  /** handle_assemble_gif up to the call that renders the collected images. */
  method AssembleGif(inputs: seq<seq<byte>>) returns (r: Result<seq<seq<byte>>, Error>)
    ensures r == Assembled(inputs)
  {
    var images: seq<seq<byte>> := [];
    var width: u32, height: u32 := 0, 0;
    ghost var size: Option<(u32, u32)> := None;
    assert inputs[0..] == inputs;
    JoinedNone(Concatenate(inputs, None));
    for i := 0 to |inputs|
      invariant size == if width == 0 && height == 0 then None else Some((width, height))
      invariant Joined(images, Concatenate(inputs[i..], size)) == Concatenate(inputs, None)
    {
      assert inputs[i..][0] == inputs[i] && inputs[i..][1..] == inputs[i + 1..];
      var artifact := ArtifactReader.Open(inputs[i]);
      if artifact.Err? {
        return Err(artifact.error);
      }
      var reader := artifact.value;
      if width == 0 && height == 0 {
        width, height := reader.metadata.width, reader.metadata.height;
      } else if width != reader.metadata.width || height != reader.metadata.height {
        return Err(DimensionsDiffer);
      }
      size := Some((width, height));
      ghost var fs := ReadFrames(inputs[i], reader.pos, reader.metadata.frameCount);
      var appended := AppendFrames(reader, images);
      if appended.Err? {
        return Err(appended.error);
      }
      JoinedGrows(images, Payloads(fs.value.0), Concatenate(inputs[i + 1..], size));
      images := appended.value;
    }
    assert images + [] == images;
    if |images| == 0 {
      return Err(NoFrames);
    }
    return Ok(images);
  }

  ghost function Joined(images: seq<seq<byte>>, r: Result<seq<seq<byte>>, Error>): Result<seq<seq<byte>>, Error> {
    match r
    case Err(e) => Err(e)
    case Ok(more) => Ok(images + more)
  }

  lemma JoinedNone(r: Result<seq<seq<byte>>, Error>)
    ensures Joined([], r) == r
  {
    if r.Ok? {
      assert [] + r.value == r.value;
    }
  }

  lemma JoinedGrows(images: seq<seq<byte>>, now: seq<seq<byte>>, r: Result<seq<seq<byte>>, Error>)
    ensures Joined(images, match r case Err(e) => Err(e) case Ok(more) => Ok(now + more)) == Joined(images + now, r)
  {
    if r.Ok? {
      assert images + (now + r.value) == (images + now) + r.value;
    }
  }

  // ----- what an assembly contains -----

  function AllPayloads(files: seq<Contents>): seq<seq<byte>> {
    if files == [] then [] else Payloads(files[0].frames) + AllPayloads(files[1..])
  }

  function TotalFrames(files: seq<Contents>): nat {
    if files == [] then 0 else |files[0].frames| + TotalFrames(files[1..])
  }

  /** Where each image ends up: behind all images of the artifacts before its own, in the order of
      its artifact. */
  lemma {:induction false} AllPayloadsAt(files: seq<Contents>, i: nat, k: nat)
    requires i < |files| && k < |files[i].frames|
    ensures |AllPayloads(files)| == TotalFrames(files)
    ensures TotalFrames(files[..i]) + k < |AllPayloads(files)|
    ensures AllPayloads(files)[TotalFrames(files[..i]) + k] == files[i].frames[k].payload
  {
    AllPayloadsCount(files[1..]);
    if i > 0 {
      AllPayloadsAt(files[1..], i - 1, k);
      assert files[..i][1..] == files[1..][..i - 1];
    }
  }

  lemma {:induction false} AllPayloadsCount(files: seq<Contents>)
    ensures |AllPayloads(files)| == TotalFrames(files)
  {
    if files != [] {
      AllPayloadsCount(files[1..]);
    }
  }

  ghost predicate ReadsAs(inputs: seq<seq<byte>>, files: seq<Contents>) {
    |inputs| == |files| && forall i :: 0 <= i < |files| ==> ReadFile(inputs[i]) == Ok(files[i])
  }

  predicate SameSize(files: seq<Contents>, width: u32, height: u32) {
    forall i :: 0 <= i < |files| ==> files[i].metadata.width == width && files[i].metadata.height == height
  }

  lemma {:induction false} ConcatenateIs(inputs: seq<seq<byte>>, files: seq<Contents>, size: Option<(u32, u32)>,
                                         width: u32, height: u32)
    requires ReadsAs(inputs, files) && SameSize(files, width, height)
    requires size.Some? ==> size.value == (width, height)
    ensures Concatenate(inputs, size) == Ok(AllPayloads(files))
    ensures |AllPayloads(files)| == TotalFrames(files)
    decreases |files|
  {
    if files != [] {
      assert ReadFile(inputs[0]) == Ok(files[0]);
      ConcatenateIs(inputs[1..], files[1..], Some((width, height)), width, height);
    }
  }

  /** Complete artifacts of one size are assembled into all their images, in input order, and the
      frame count is the sum of theirs. */
  lemma AssembledIs(inputs: seq<seq<byte>>, files: seq<Contents>, width: u32, height: u32)
    requires inputs != [] && ReadsAs(inputs, files) && SameSize(files, width, height)
    ensures Assembled(inputs) == Ok(AllPayloads(files))
    ensures |AllPayloads(files)| == TotalFrames(files) > 0
  {
    ConcatenateIs(inputs, files, None, width, height);
    assert ReadFile(inputs[0]) == Ok(files[0]);
    var (m, pos) := ReadHeader(inputs[0]).value;
    ReadFramesCut(inputs[0], pos, m.frameCount, |inputs[0]|);
    FramesAgain(inputs[0], pos, m.frameCount);
  }

  lemma {:induction false} ConcatenateNeeds(inputs: seq<seq<byte>>, size: Option<(u32, u32)>)
    requires Concatenate(inputs, size).Ok?
    ensures forall i :: 0 <= i < |inputs| ==> ReadFile(inputs[i]).Ok?
    ensures forall i :: 0 <= i < |inputs| ==>
              && (size.Some? ==> Dimensions(inputs[i]) == size.value)
              && Dimensions(inputs[i]) == Dimensions(inputs[0])
    decreases |inputs|
  {
    if inputs != [] {
      var (m, pos) := ReadHeader(inputs[0]).value;
      ConcatenateNeeds(inputs[1..], Some((m.width, m.height)));
      forall i | 0 < i < |inputs| ensures ReadFile(inputs[i]).Ok? && Dimensions(inputs[i]) == (m.width, m.height) {
        assert inputs[i] == inputs[1..][i - 1];
      }
    }
  }

  function Dimensions(file: seq<byte>): (u32, u32)
    requires ReadFile(file).Ok?
  {
    (ReadFile(file).value.metadata.width, ReadFile(file).value.metadata.height)
  }

  /** Assembly succeeds exactly on a nonempty list of complete artifacts of one size. */
  lemma AssembledExactly(inputs: seq<seq<byte>>)
    ensures Assembled(inputs).Ok? <==>
              && inputs != []
              && (forall i :: 0 <= i < |inputs| ==> ReadFile(inputs[i]).Ok?)
              && (forall i :: 0 <= i < |inputs| ==> Dimensions(inputs[i]) == Dimensions(inputs[0]))
  {
    if Concatenate(inputs, None).Ok? {
      ConcatenateNeeds(inputs, None);
    }
    if inputs != [] && (forall i :: 0 <= i < |inputs| ==> ReadFile(inputs[i]).Ok?)
       && (forall i :: 0 <= i < |inputs| ==> Dimensions(inputs[i]) == Dimensions(inputs[0]))
    {
      var files := seq(|inputs|, i requires 0 <= i < |inputs| => ReadFile(inputs[i]).value);
      var (width, height) := Dimensions(inputs[0]);
      assert SameSize(files, width, height) by {
        forall i | 0 <= i < |files| ensures files[i].metadata.width == width && files[i].metadata.height == height {
          assert Dimensions(inputs[i]) == Dimensions(inputs[0]);
        }
      }
      AssembledIs(inputs, files, width, height);
    }
  }
}
