/** The relay's lazy view of a call request frame (relay_messages.go), against the
    parse the receiving endpoint does (reqres.go, messages.go). */
module LazyCallReq {
  import opened Buffers
  import opened Messages
  import opened Chunks

  datatype ParseError = BufferTooShort | InvalidChecksumType

  datatype Result<T> = Ok(value: T) | Err(error: ParseError)

  const CHECKSUM_COUNT := 4

  // "as", "cn", "rd" and "rk"
  const ARG_SCHEME: Bytes := [0x61, 0x73]
  const CALLER_NAME: Bytes := [0x63, 0x6e]
  const ROUTING_DELEGATE: Bytes := [0x72, 0x64]
  const ROUTING_KEY: Bytes := [0x72, 0x6b]

  // ---------- the endpoint's parse ----------

  datatype Inbound = Inbound(flags: Byte, req: CallReq, csumType: Byte, csum: Bytes, contents: Bytes)

  // parseInboundFragment with a callReq
  function ParseInbound(payload: Bytes): (res: Result<Inbound>) {
    var (flags, r1) := RBuf(payload, false).ReadByte();
    var (req, r2) := ReadCallReq(r1);
    if r2.failed then Err(BufferTooShort)
    else
      var (t, r3) := r2.ReadByte();
      if t >= CHECKSUM_COUNT then Err(InvalidChecksumType)
      else
        var (csum, r4) := r3.ReadBytes(WireSumSize(t));
        if r4.failed then Err(BufferTooShort) else Ok(Inbound(flags, req, t, csum, r4.remaining))
  }

  // ---------- the relay's parse ----------

  const TTL_INDEX := 1
  const SPAN_INDEX := 5
  const SERVICE_LEN_INDEX := 30
  const SERVICE_NAME_INDEX := 31

  datatype Fields = Fields(caller: Bytes, delegate: Bytes, key: Bytes, argScheme: Bytes)

  datatype Lazy = Lazy(fields: Fields, methodName: Bytes, csumType: Byte, isArg2Fragmented: bool,
                       checksumTypeOffset: nat, arg2StartOffset: nat, arg2EndOffset: nat, arg3StartOffset: nat)

  function SetField(f: Fields, key: Bytes, val: Bytes): (f': Fields) {
    if key == ARG_SCHEME then f.(argScheme := val)
    else if key == CALLER_NAME then f.(caller := val)
    else if key == ROUTING_DELEGATE then f.(delegate := val)
    else if key == ROUTING_KEY then f.(key := val)
    else f
  }

  // The loop over the headers.
  function LazyHeaders(r: RBuf, n: nat, f: Fields): (res: (Fields, RBuf))
    decreases n
  {
    if n == 0 then (f, r)
    else
      var (keyLen, r1) := r.ReadByte();
      var (key, r2) := r1.ReadBytes(keyLen);
      var (valLen, r3) := r2.ReadByte();
      var (val, r4) := r3.ReadBytes(valLen);
      LazyHeaders(r4, n - 1, SetField(f, key, val))
  }

  predicate MoreFragments(payload: Bytes) {
    payload != [] && HasMore(payload[0])
  }

  // Offsets are kept as uint16.
  function Offset(payload: Bytes, r: RBuf): (n: nat) {
    (|payload| - |r.remaining|) % 0x1_0000
  }

  // arg1 and arg2, and where arg3 starts
  function LazyArgs(payload: Bytes, f: Fields, t: Byte, checksumTypeOffset: nat, r: RBuf): (res: Result<Lazy>) {
    var (n1, r1) := r.ReadUint(2);
    var (methodName, r2) := r1.ReadBytes(n1);
    var (n2, r3) := r2.ReadUint(2);
    var (_, r4) := r3.ReadBytes(n2);
    var fragmented := r4.remaining == [] && MoreFragments(payload);
    var r5 := if fragmented then r4 else r4.ReadBytes(2).1;
    if r5.failed then Err(BufferTooShort)
    else Ok(Lazy(f, methodName, t, fragmented, checksumTypeOffset, Offset(payload, r3),
                 (Offset(payload, r3) + n2) % 0x1_0000, if fragmented then 0 else Offset(payload, r5)))
  }

  function LazyTail(payload: Bytes, f: Fields, r: RBuf): (res: Result<Lazy>) {
    var (t, r1) := r.ReadByte();
    if t >= CHECKSUM_COUNT then Err(InvalidChecksumType)
    else LazyArgs(payload, f, t, Offset(payload, r), r1.ReadBytes(WireSumSize(t)).1)
  }

  // newLazyCallReq
  function LazyParse(payload: Bytes): (res: Result<Lazy>) {
    var (_, r1) := RBuf(payload, false).ReadBytes(SERVICE_LEN_INDEX);
    var (serviceLen, r2) := r1.ReadByte();
    var (_, r3) := r2.ReadBytes(serviceLen);
    var (nh, r4) := r3.ReadByte();
    var (fields, r5) := LazyHeaders(r4, nh, Fields([], [], [], []));
    LazyTail(payload, fields, r5)
  }

  // The loop over the headers, advancing the read buffer.
  method ReadLazyHeaders(r: ReadBuffer, n: nat) returns (f: Fields)
    requires r.Valid()
    modifies r
    ensures r.Valid() && r.initialLength == old(r.initialLength)
    ensures (f, r.View()) == LazyHeaders(old(r.View()), n, Fields([], [], [], []))
  {
    hide RBuf.ReadBytes, RBuf.ReadByte, SetField;
    f := Fields([], [], [], []);
    var i := 0;
    while i < n
      invariant 0 <= i <= n && r.Valid() && r.initialLength == old(r.initialLength)
      invariant LazyHeaders(r.View(), n - i, f) == LazyHeaders(old(r.View()), n, Fields([], [], [], []))
    {
      var keyLen := r.ReadSingleByte();
      var key := r.ReadBytes(keyLen);
      var valLen := r.ReadSingleByte();
      var val := r.ReadBytes(valLen);
      f := SetField(f, key, val);
      i := i + 1;
    }
  }

  method OffsetFrom(r: ReadBuffer, payload: Bytes) returns (n: nat)
    requires r.Valid() && r.initialLength == |payload|
    ensures n == Offset(payload, r.View())
  {
    var read := r.BytesRead();
    n := read % 0x1_0000;
  }

  // Everything from the checksum type on.
  method ReadLazyTail(r: ReadBuffer, payload: Bytes, f: Fields) returns (res: Result<Lazy>)
    requires r.Valid() && r.initialLength == |payload|
    modifies r
    ensures res == LazyTail(payload, f, old(r.View()))
  {
    hide RBuf.ReadBytes, RBuf.ReadByte, RBuf.ReadUint, Offset, MoreFragments, WireSumSize;
    var checksumTypeOffset := OffsetFrom(r, payload);
    var t := r.ReadSingleByte();
    if t >= CHECKSUM_COUNT { return Err(InvalidChecksumType); }
    r.SkipBytes(WireSumSize(t));
    var arg1Len := r.ReadUint(2);
    var methodName := r.ReadBytes(arg1Len);
    var arg2Len := r.ReadUint(2);
    var arg2StartOffset := OffsetFrom(r, payload);
    r.SkipBytes(arg2Len);
    var fragmented := r.remaining == [] && MoreFragments(payload);
    var arg3StartOffset := 0;
    if !fragmented {
      r.SkipBytes(2);
      arg3StartOffset := OffsetFrom(r, payload);
    }
    if r.err { return Err(BufferTooShort); }
    res := Ok(Lazy(f, methodName, t, fragmented, checksumTypeOffset, arg2StartOffset,
      (arg2StartOffset + arg2Len) % 0x1_0000, arg3StartOffset));
  }

  /** The same parse as a method that advances one read buffer. */
  method NewLazyCallReq(payload: Bytes) returns (res: Result<Lazy>)
    ensures res == LazyParse(payload)
  {
    hide RBuf.ReadBytes, RBuf.ReadByte, LazyHeaders, LazyTail;
    var r := new ReadBuffer(payload);
    r.SkipBytes(SERVICE_LEN_INDEX);
    var serviceLen := r.ReadSingleByte();
    r.SkipBytes(serviceLen);
    var nh := r.ReadSingleByte();
    var f := ReadLazyHeaders(r, nh);
    res := ReadLazyTail(r, payload, f);
  }

  // ---------- accessors ----------

  function ServiceOf(payload: Bytes): (b: Bytes)
    requires |payload| > SERVICE_LEN_INDEX && SERVICE_NAME_INDEX + payload[SERVICE_LEN_INDEX] <= |payload|
  {
    payload[SERVICE_NAME_INDEX..SERVICE_NAME_INDEX + payload[SERVICE_LEN_INDEX]]
  }

  function TtlOf(payload: Bytes): (ttl: nat)
    requires |payload| >= SPAN_INDEX
  {
    GetUint(payload[TTL_INDEX..SPAN_INDEX]) * MILLISECOND
  }

  function SpanOf(payload: Bytes): (s: Span)
    requires |payload| >= SERVICE_LEN_INDEX
  {
    ReadSpan(RBuf(payload[SPAN_INDEX..SERVICE_LEN_INDEX], false)).0
  }

  function Arg2Of(payload: Bytes, l: Lazy): (b: Bytes)
    requires l.arg2StartOffset <= l.arg2EndOffset <= |payload|
  {
    payload[l.arg2StartOffset..l.arg2EndOffset]
  }

  function Arg3Of(payload: Bytes, l: Lazy): (b: Bytes)
    requires l.arg3StartOffset <= |payload|
  {
    payload[l.arg3StartOffset..]
  }

  function SetTTL(payload: Bytes, ttl: nat): (r: Bytes)
    requires |payload| >= SPAN_INDEX
    ensures |r| == |payload|
  {
    Patch(payload, TTL_INDEX, PutUint(Millis(ttl), 4))
  }
}
