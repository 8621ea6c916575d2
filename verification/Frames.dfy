/** Frames on a byte stream (frame.go). */
module Frames {
  import opened Buffers
  import opened Messages

  const MAX_FRAME_SIZE := 0xFFFF
  const FRAME_HEADER_SIZE := 16
  const MAX_FRAME_PAYLOAD_SIZE := MAX_FRAME_SIZE - FRAME_HEADER_SIZE

  /** The size field counts the header as well as the payload. */
  datatype FrameHeader = FrameHeader(size: nat, messageType: Byte, reserved1: Byte, id: nat)

  datatype Frame = Frame(messageType: Byte, reserved1: Byte, id: nat, payload: Bytes)

  datatype FrameError = InvalidFrameSize | UnexpectedEnd

  datatype Result<T> = Ok(value: T) | Err(error: FrameError)

  // uint16 arithmetic
  function SizeOf(payloadSize: nat): (size: nat) {
    (payloadSize + FRAME_HEADER_SIZE) % 0x1_0000
  }

  function PayloadSize(size: nat): (n: nat) {
    (size - FRAME_HEADER_SIZE) % 0x1_0000
  }

  /** The size check works by wrap-around, and rejects exactly the sizes that do not
      even cover the header; for the others it is the size minus the header. */
  lemma RejectsShortSizes(size: nat)
    requires size < 0x1_0000
    ensures PayloadSize(size) > MAX_FRAME_PAYLOAD_SIZE <==> size < FRAME_HEADER_SIZE
    ensures size >= FRAME_HEADER_SIZE ==> PayloadSize(size) == size - FRAME_HEADER_SIZE
  {
  }

  function EncodeHeader(h: FrameHeader): (r: Bytes)
    ensures |r| == FRAME_HEADER_SIZE
  {
    PutUint(h.size, 2) + ([h.messageType] + ([h.reserved1] + (PutUint(h.id, 4) + [0, 0, 0, 0, 0, 0, 0, 0])))
  }

  function ReadHeader(r: RBuf): (res: (FrameHeader, RBuf)) {
    var (size, r1) := r.ReadUint(2);
    var (messageType, r2) := r1.ReadByte();
    var (reserved1, r3) := r2.ReadByte();
    var (id, r4) := r3.ReadUint(4);
    var (_, r5) := r4.ReadBytes(8);
    (FrameHeader(size, messageType, reserved1, id), r5)
  }

  // WriteOut
  function EncodeFrame(f: Frame): (r: Bytes) {
    EncodeHeader(FrameHeader(SizeOf(|f.payload|), f.messageType, f.reserved1, f.id)) + f.payload
  }

  // A frame the source can build: payloads never exceed the buffer.
  predicate FrameFits(f: Frame) {
    |f.payload| <= MAX_FRAME_PAYLOAD_SIZE && f.id < Limit(4)
  }

  // io.ReadFull of the header, then ReadBody.
  function ReadFrame(stream: Bytes): (res: Result<(Frame, Bytes)>)
    ensures res.Ok? ==> |res.value.1| < |stream|
  {
    if |stream| < FRAME_HEADER_SIZE then Err(UnexpectedEnd)
    else
      var h := ReadHeader(RBuf(stream[..FRAME_HEADER_SIZE], false)).0;
      var rest := stream[FRAME_HEADER_SIZE..];
      var n := PayloadSize(h.size);
      if n > MAX_FRAME_PAYLOAD_SIZE then Err(InvalidFrameSize)
      else if |rest| < n then Err(UnexpectedEnd)
      else Ok((Frame(h.messageType, h.reserved1, h.id, rest[..n]), rest[n..]))
  }

  function ReadFrames(stream: Bytes): (res: Result<seq<Frame>>)
    decreases |stream|
  {
    if stream == [] then Ok([])
    else
      match ReadFrame(stream)
      case Err(e) => Err(e)
      case Ok((f, rest)) =>
        match ReadFrames(rest)
        case Err(e) => Err(e)
        case Ok(fs) => Ok([f] + fs)
  }

  function EncodeFrames(fs: seq<Frame>): (r: Bytes) {
    if fs == [] then [] else EncodeFrame(fs[0]) + EncodeFrames(fs[1..])
  }

  lemma HeaderRoundTrip(h: FrameHeader)
    requires h.size < 0x1_0000 && h.id < Limit(4)
    ensures ReadHeader(RBuf(EncodeHeader(h), false)) == (h, RBuf([], false))
  {
    hide RBuf.ReadUint, RBuf.ReadByte, PutUint, Limit;
    LimitIsWidth();
    var zeros: Bytes := [0, 0, 0, 0, 0, 0, 0, 0];
    var none: Bytes := [];
    var r3 := PutUint(h.id, 4) + zeros;
    var r2 := [h.reserved1] + r3;
    var r1 := [h.messageType] + r2;
    ReadUintBack(h.size, 2, r1);
    ReadByteBack(h.messageType, r2);
    ReadByteBack(h.reserved1, r3);
    ReadUintBack(h.id, 4, zeros);
    assert zeros + none == zeros;
    ReadBytesBack(zeros, none);
  }

  /** The header is the size, the message type, a reserved byte, the ID and eight zeros. */
  lemma HeaderLayout(h: FrameHeader)
    requires h.size < 0x1_0000 && h.id < Limit(4)
    ensures var b := EncodeHeader(h);
      && GetUint(b[..2]) == h.size && b[2] == h.messageType && b[3] == h.reserved1 && GetUint(b[4..8]) == h.id
      && forall i :: 8 <= i < 16 ==> b[i] == 0
  {
    hide PutUint, GetUint, Limit;
    LimitIsWidth();
    var b := EncodeHeader(h);
    var zeros: Bytes := [0, 0, 0, 0, 0, 0, 0, 0];
    FieldAt(h.size, 2, b[2..]);
    FieldAt(h.id, 4, zeros);
    assert b == PutUint(h.size, 2) + b[2..];
    assert b[4..8] == (PutUint(h.id, 4) + zeros)[..4];
  }

  lemma FrameRoundTrip(f: Frame, rest: Bytes)
    requires FrameFits(f)
    ensures ReadFrame(EncodeFrame(f) + rest) == Ok((f, rest))
  {
    hide ReadHeader, EncodeHeader, Limit;
    var h := FrameHeader(SizeOf(|f.payload|), f.messageType, f.reserved1, f.id);
    var stream := EncodeFrame(f) + rest;
    HeaderRoundTrip(h);
    assert stream[..FRAME_HEADER_SIZE] == EncodeHeader(h);
    var tail := stream[FRAME_HEADER_SIZE..];
    assert tail == f.payload + rest;
    assert tail[..|f.payload|] == f.payload && tail[|f.payload|..] == rest;
  }

  /** Any run of frames written to a stream is read back as the same frames. */
  lemma {:induction false} StreamRoundTrip(fs: seq<Frame>)
    requires forall i :: 0 <= i < |fs| ==> FrameFits(fs[i])
    ensures ReadFrames(EncodeFrames(fs)) == Ok(fs)
  {
    hide ReadFrame, EncodeFrame;
    if fs == [] {
    } else {
      FrameRoundTrip(fs[0], EncodeFrames(fs[1..]));
      StreamRoundTrip(fs[1..]);
      assert EncodeFrame(fs[0]) != [] by { FrameNotEmpty(fs[0]); }
      assert fs == [fs[0]] + fs[1..];
    }
  }

  lemma FrameNotEmpty(f: Frame)
    ensures |EncodeFrame(f)| >= FRAME_HEADER_SIZE
  {
  }
}
