/** The frames of an outbound call: the method is always whole in the first frame, so a
    relay can parse it there (outbound.go, reqres.go, relay_messages.go). */
module CallFrames {
  import opened Buffers
  import opened Messages
  import opened Chunks
  import opened Frames
  import opened LazyCallReq
  import opened LazyRefinesEager

  // ---------- payloads ----------

  // flags, message, checksum type, checksum, contents
  function FirstPayload(header: Bytes, f: Fragment): (p: Bytes) {
    [f.flags] + (header + ([f.csumType] + (f.csum + f.contents)))
  }

  lemma ParseInboundOf(m: CallReq, order: seq<Bytes>, f: Fragment)
    requires Visits(m.headers, order) && CallReqFits(m)
    requires f.csumType < CHECKSUM_COUNT && |f.csum| == WireSumSize(f.csumType)
    ensures ParseInbound(FirstPayload(EncodeCallReq(m, order), f)) ==
      LazyCallReq.Ok(Inbound(f.flags, OnWire(m), f.csumType, f.csum, f.contents))
    ensures ReadCallReq(RBuf(FirstPayload(EncodeCallReq(m, order), f), false).ReadByte().1).1 ==
      RBuf([f.csumType] + (f.csum + f.contents), false)
  {
    hide EncodeCallReq, ReadCallReq, WireSumSize, Visits, RBuf.ReadByte, Limit;
    var tail := [f.csumType] + (f.csum + f.contents);
    ReadByteBack(f.flags, EncodeCallReq(m, order) + tail);
    CallReqRoundTrip(m, order, tail);
    ReadByteBack(f.csumType, f.csum + f.contents);
    ReadBytesBack(f.csum, f.contents);
  }

  // From the checksum type on, with at least the method and the start of arg2 present.
  lemma LazyTailOf(p: Bytes, fields: Fields, f: Fragment, chunks: seq<Chunk>)
    requires f.csumType < CHECKSUM_COUNT && |f.csum| == WireSumSize(f.csumType)
    requires f.contents == Encode(chunks) && |f.contents| < 0x1_0000 && |chunks| >= 2
    requires MoreFragments(p) || |chunks| >= 3
    ensures var res := LazyTail(p, fields, RBuf([f.csumType] + (f.csum + f.contents), false));
      && res.Ok? && res.value.fields == fields && res.value.methodName == chunks[0]
      && res.value.isArg2Fragmented == (|chunks| == 2)
  {
    hide WireSumSize, Encode, RBuf.ReadByte, Offset, MoreFragments, RBuf.ReadUint, RBuf.ReadBytes;
    ReadByteBack(f.csumType, f.csum + f.contents);
    ReadBytesBack(f.csum, f.contents);
    EncodeSplits(chunks);
    EncodeHead(chunks);
    EncodeHead(chunks[1..]);
    if |chunks| >= 3 {
      EncodeHead(chunks[2..]);
      TwoMore(Encode(chunks[2..]));
    }
  }

  lemma EncodeSplits(chunks: seq<Chunk>)
    requires |chunks| >= 2
    ensures chunks[1..][0] == chunks[1] && chunks[1..][1..] == chunks[2..]
    ensures Encode(chunks[2..]) == [] <==> |chunks| == 2
    ensures |Encode(chunks)| >= |Encode(chunks[1..])| >= |Encode(chunks[2..])|
  {
    assert chunks[1..][1..] == chunks[2..];
  }

  lemma TwoMore(b: Bytes)
    requires |b| >= 2
    ensures !RBuf(b, false).ReadBytes(2).1.failed
  {
  }

  /** A first frame whose fragment holds the method and at least the start of arg2, and
      which says so if arg3 is yet to come, is parsed by the relay as what it is. */
  lemma FirstFrameParses(m: CallReq, order: seq<Bytes>, k: Kind, s: Split)
    requires Visits(m.headers, order) && CallReqFits(m)
    requires |s.csum| == SumSize(k) && |s.chunks| >= 2 && (HasMore(s.flags) || |s.chunks| >= 3)
    requires |FirstPayload(EncodeCallReq(m, order), Seal(k, s))| < 0x1_0000
    ensures var p := FirstPayload(EncodeCallReq(m, order), Seal(k, s));
      && LazyParse(p).Ok? && LazyParse(p).value.methodName == s.chunks[0]
      && LazyParse(p).value.isArg2Fragmented == (|s.chunks| == 2)
      && LazyParse(p).value.fields == FieldsOf(m.headers)
  {
    hide EncodeCallReq, ReadCallReq, WireSumSize, Visits, ParseInbound, LazyParse, LazyTail, FieldsOf, LazyHeaders,
      ReadMap, Encode, RBuf.ReadLenBytes, TtlOf, SpanOf, ServiceOf, Limit;
    var f := Seal(k, s);
    var p := FirstPayload(EncodeCallReq(m, order), f);
    TypeCodeOf(k);
    ParseInboundOf(m, order, f);
    HeaderLength(m, order);
    SameHeader(p);
    ReadByteBack(f.flags, p[1..]);
    assert p == [f.flags] + p[1..];
    var (service, r4) := RBuf(p[SERVICE_LEN_INDEX..], false).ReadLenBytes(1);
    var (headers, r5) := ReadMap(r4, 1);
    RequestIs(p);
    LazyTailOf(p, FieldsOf(headers), f, s.chunks);
  }

  lemma TypeCodeOf(k: Kind)
    ensures TypeCode(k) < CHECKSUM_COUNT && WireSumSize(TypeCode(k)) == SumSize(k)
  {
  }

  lemma HeaderLength(m: CallReq, order: seq<Bytes>)
    requires Visits(m.headers, order)
    ensures |EncodeCallReq(m, order)| >= 29
  {
  }
}
