/** Sending a call: validation, the headers a call may carry, and its frames
    (outbound.go, calloptions.go, reqres.go). */
module OutboundCall {
  import opened Buffers
  import opened Messages
  import opened Chunks
  import opened Frames
  import opened LazyCallReq
  import opened LazyRefinesEager
  import opened CallFrames
  import opened Arguments
  import opened FragmentingWriter
  import WM = WriterModel

  const MAX_METHOD_SIZE := 16 * 1024

  datatype CallError = NoError | NoServiceName | MethodTooLarge | TimeoutRequired

  function ValidateCall(service: Bytes, methodName: Bytes, hasDeadline: bool): (e: CallError) {
    if service == [] then NoServiceName
    else if |methodName| > MAX_METHOD_SIZE then MethodTooLarge
    else if !hasDeadline then TimeoutRequired
    else NoError
  }

  /** A call may be sent exactly if it names a service, its method is not too long and it
      has a deadline. */
  lemma CallAccepted(service: Bytes, methodName: Bytes, hasDeadline: bool)
    ensures ValidateCall(service, methodName, hasDeadline) == NoError <==>
      service != [] && |methodName| <= 0x4000 && hasDeadline
  {
  }

  // "sk"
  const SHARD_KEY: Bytes := [0x73, 0x6b]

  // beginCall and CallOptions set no other headers.
  predicate FromCallOptions(headers: map<Bytes, Bytes>) {
    forall k :: k in headers ==> k in {ARG_SCHEME, CALLER_NAME, SHARD_KEY, ROUTING_KEY, ROUTING_DELEGATE}
  }

  // ---------- the header is small ----------

  lemma {:induction false} PairsLength(ps: seq<Pair>)
    requires forall i :: 0 <= i < |ps| ==> |ps[i].0| == 2 && |ps[i].1| <= 255
    ensures |EncodePairs(1, ps)| <= 259 * |ps|
  {
    hide PutUint;
    if ps == [] {
    } else {
      PairsLength(ps[1..]);
    }
  }

  lemma HeadersBound(headers: map<Bytes, Bytes>, order: seq<Bytes>)
    requires Visits(headers, order) && MapFits(1, headers) && FromCallOptions(headers)
    ensures |EncodeMap(1, headers, order)| <= 1296
  {
    hide PutUint, EncodePairs;
    LimitIsWidth();
    VisitCount(headers, order);
    var keys := {ARG_SCHEME, CALLER_NAME, SHARD_KEY, ROUTING_KEY, ROUTING_DELEGATE};
    assert headers.Keys <= keys;
    SubsetCount(headers.Keys, keys);
    PairsLength(PairsOf(headers, order));
  }

  lemma HeaderBound(m: CallReq, order: seq<Bytes>)
    requires Visits(m.headers, order) && CallReqFits(m) && FromCallOptions(m.headers)
    ensures |EncodeCallReq(m, order)| <= 1581
  {
    hide PutUint, EncodeMap, Visits, MapFits, FromCallOptions;
    LimitIsWidth();
    HeadersBound(m.headers, order);
  }

  lemma SubsetCount<T>(a: set<T>, b: set<T>)
    requires a <= b
    ensures |a| <= |b|
  {
    assert b == a + (b - a);
  }

  // What is left of a frame's payload once the message and the checksum are in.
  function CallSender(header: nat, k: Kind): (p: WM.Sender)
    requires header <= 2000
  {
    WM.Sender(i => MAX_FRAME_PAYLOAD_SIZE - SumSize(k) - if i == 0 then header + 2 else 2,
              _ => false, _ => false, 0, [])
  }

  lemma CallSenderValid(header: nat, k: Kind)
    requires header <= 2000
    ensures CallSender(header, k).Valid() && CallSender(header, k).Reliable()
    ensures CallSender(header, k).capacity(0) >= MAX_METHOD_SIZE + 5 && CallSender(header, k).preamble == []
    ensures CallSender(header, k).flags == 0
  {
  }

  // ---------- the call ----------

  function HeaderSize(m: CallReq, order: seq<Bytes>): (n: nat)
    requires Visits(m.headers, order)
  {
    |EncodeCallReq(m, order)|
  }

  /** Whether arg2 is whole in the first frame and arg3 starts there: it was not flushed,
      and the header, the checksum, the method, arg2 and the size of a third chunk leave
      room in a frame's payload. */
  predicate Arg2InFirstFrame(k: Kind, m: CallReq, order: seq<Bytes>, methodName: Bytes, arg2: seq<Op>)
    requires Visits(m.headers, order)
  {
    !Flushed(arg2) && HeaderSize(m, order) + SumSize(k) + |methodName| + |ArgOf(arg2)| + 8 < MAX_FRAME_PAYLOAD_SIZE
  }

  /** What a relay gets out of a call's first frame: the method, the routing fields, and
      either the whole of arg2 or that it is fragmented. */
  ghost predicate RelayCanParse(m: CallReq, order: seq<Bytes>, f: Fragment, methodName: Bytes, arg2: Bytes, whole: bool)
    requires Visits(m.headers, order)
  {
    var p := FirstPayload(EncodeCallReq(m, order), f);
    && |p| <= MAX_FRAME_PAYLOAD_SIZE
    && LazyParse(p).Ok?
    && var l := LazyParse(p).value;
    && l.methodName == methodName && l.fields == FieldsOf(m.headers)
    && l.isArg2Fragmented == !whole
    && l.arg2StartOffset <= l.arg2EndOffset <= |p|
    && (whole ==> Arg2Of(p, l) == arg2)
  }

  // The first of at least two fragments of a three-argument message says more are coming.
  lemma FirstOfThree(h: Digest, k: Kind, fs: seq<Split>, args: seq<Chunk>)
    requires fs != [] && Chain(h, k, [], fs, false) && |args| == 3
    requires forall i :: 0 <= i < |fs| ==> fs[i].chunks != []
    requires Glue(ChunkLists(fs)) == args
    ensures HasMore(fs[0].flags) || |fs[0].chunks| >= 3
    ensures |fs[0].chunks| >= 3 ==> fs[0].chunks[1] == args[1]
    ensures SumsSized(h) ==> |fs[0].csum| == SumSize(k)
  {
    var rest := ChunkLists(fs)[1..];
    assert |fs| == 1 ==> rest == [] && Glue(rest) == [[]];
    assert args == Glue2(fs[0].chunks, Glue(rest));
  }

  lemma ArgTwoIs(p: Bytes, l: Lazy, chunks: seq<Chunk>)
    requires |p| < 0x1_0000 && LazyParse(p) == LazyCallReq.Ok(l) && |chunks| >= 2
    requires ParseInbound(p).Ok? && ParseInbound(p).value.contents == Encode(chunks) && |Encode(chunks)| < 0x1_0000
    ensures l.arg2StartOffset <= l.arg2EndOffset <= |p| && Arg2Of(p, l) == chunks[1]
  {
    hide LazyParse, ParseInbound, Encode, Parse, FieldsOf, TtlOf, SpanOf, ServiceOf;
    LazyAgrees(p, l);
    var a, tail := Arg2Of(p, l), p[l.arg2EndOffset..];
    EncodeTwo(l.methodName, a, tail);
    FirstChunksAgree(l.methodName, a, tail);
    ParseEncode(chunks);
    assert chunks[..2] == [l.methodName, a];
  }

  lemma FirstIsParsed(h: Digest, k: Kind, m: CallReq, order: seq<Bytes>, w: WM.State, methodName: Bytes, arg2: Bytes,
      arg3: Bytes)
    requires SumsSized(h) && Visits(m.headers, order) && CallReqFits(m) && HeaderSize(m, order) <= 2000
    requires IsMessage(h, k, SealAll(k, w.sent), [methodName, arg2, arg3], false)
      && SplitAll(SealAll(k, w.sent)) == w.sent
    requires WithinCapacity(CallSender(HeaderSize(m, order), k), SealAll(k, w.sent)) && WM.FirstHas(w, methodName)
    ensures w.sent != [] && RelayCanParse(m, order, Seal(k, w.sent[0]), methodName, arg2, |w.sent[0].chunks| != 2)
  {
    hide Chain, Glue, EncodeCallReq, RelayCanParse, Parse;
    var s := w.sent[0];
    assert SplitOf(Seal(k, s)) == s by { assert SplitAll(SealAll(k, w.sent))[0] == s; }
    FirstOfThree(h, k, w.sent, [methodName, arg2, arg3]);
    var p := FirstPayload(EncodeCallReq(m, order), Seal(k, s));
    assert |SealAll(k, w.sent)[0].contents| <= CallSender(HeaderSize(m, order), k).capacity(0);
    assert |p| <= MAX_FRAME_PAYLOAD_SIZE;
    FirstParsed(m, order, k, s);
    RelayParses(m, order, Seal(k, s), methodName, s.chunks[1], arg2, |s.chunks| != 2);
  }

  // What counts as arg2 only matters if it is whole.
  lemma RelayParses(m: CallReq, order: seq<Bytes>, f: Fragment, methodName: Bytes, a: Bytes, arg2: Bytes, whole: bool)
    requires Visits(m.headers, order) && RelayCanParse(m, order, f, methodName, a, whole)
    requires whole ==> a == arg2
    ensures RelayCanParse(m, order, f, methodName, arg2, whole)
  {
  }

  lemma FirstParsed(m: CallReq, order: seq<Bytes>, k: Kind, s: Split)
    requires Visits(m.headers, order) && CallReqFits(m)
    requires |s.csum| == SumSize(k) && |s.chunks| >= 2 && (HasMore(s.flags) || |s.chunks| >= 3)
    requires |FirstPayload(EncodeCallReq(m, order), Seal(k, s))| <= MAX_FRAME_PAYLOAD_SIZE
    requires SplitOf(Seal(k, s)) == s
    ensures RelayCanParse(m, order, Seal(k, s), s.chunks[0], s.chunks[1], |s.chunks| != 2)
  {
    hide EncodeCallReq, LazyParse, ParseInbound, Encode, FieldsOf, Visits, Limit, WireSumSize, ReadCallReq, Arg2Of;
    var p := FirstPayload(EncodeCallReq(m, order), Seal(k, s));
    FirstFrameParses(m, order, k, s);
    TypeCodeOf(k);
    ParseInboundOf(m, order, Seal(k, s));
    ArgTwoIs(p, LazyParse(p).value, s.chunks);
  }

  // The method is one chunk of the first fragment, which is still open.
  lemma MethodWhole(h: Digest, k: Kind, p: WM.Sender, b: Bytes)
    requires p.Valid() && p.Reliable() && p.preamble == [] && |b| + 4 < p.capacity(0)
    ensures var w1 := WM.BeginArgument(p, WM.INITIAL, false);
      && WM.Shape(p, w1) && w1.err == WM.NoError && w1.Writing()
      && var w2 := WM.Write(h, k, p, w1, b).0;
      && w2.err == WM.NoError && w2.Writing()
      && var w3 := WM.Close(h, k, p, w2);
      && w3.err == WM.NoError && w3.phase == WM.Waiting && w3.sent == [] && w3.open && w3.chunks == [b]
      && WM.Writes(h, k, p, w3, [b])
  {
    hide WM.Writes, WM.BeginArgument, WM.Write, WM.Close, WM.Shape, WM.Sender.Valid;
    WM.FirstArgumentWhole(h, k, p, b);
    var none: seq<Chunk> := [];
    assert none + [[]] == [[]];
    WM.InitialWrites(h, k, p);
    WM.BeginWrites(h, k, p, WM.INITIAL, false, none);
    var w1 := WM.BeginArgument(p, WM.INITIAL, false);
    WM.WriteWrites(h, k, p, w1, b, [[]]);
    assert Extend([[]], b) == [b] by { assert [] + b == b; }
    WM.CloseWrites(h, k, p, WM.Write(h, k, p, w1, b).0, [b]);
  }

  // writeMethod
  method WriteMethod(w: Writer, methodName: Bytes)
    requires w.Valid() && w.sender.Valid() && w.sender.Reliable() && w.sender.preamble == [] && w.model == WM.INITIAL
    requires |methodName| + 4 < w.sender.capacity(0)
    modifies w.Repr()
    ensures w.Valid() && fresh(w.Repr() - old(w.Repr())) && w.err == WM.NoError && w.phase == WM.Waiting
    ensures w.model.sent == [] && w.model.open && w.model.chunks == [methodName]
    ensures WM.Writes(w.h, w.kind, w.sender, w.model, [methodName])
  {
    hide WM.Writes, WM.BeginArgument, WM.Write, WM.Close, WM.Shape, Writer.Valid, WM.Sender.Valid, WM.Sender.Reliable;
    MethodWhole(w.h, w.kind, w.sender, methodName);
    w.BeginArgument(false);
    var n := w.Write(methodName);
    w.Close();
  }

  /** A call accepted by validateCall, whatever is written and flushed as arg2 and arg3:
      its fragments denote the three arguments, and a relay can parse its first frame,
      where it finds the whole method, the routing fields, and the whole of arg2 exactly if
      arg2 and the start of arg3 fit the frame without a flush in between. */
  method SendCall(h: Digest, k: Kind, m: CallReq, order: seq<Bytes>, methodName: Bytes, arg2: seq<Op>, arg3: seq<Op>)
      returns (fragments: seq<Fragment>)
    requires SumsSized(h) && Visits(m.headers, order) && CallReqFits(m) && FromCallOptions(m.headers)
    requires ValidateCall(m.service, methodName, true) == NoError
    ensures IsMessage(h, k, fragments, [methodName, ArgOf(arg2), ArgOf(arg3)], false)
    ensures fragments != []
    ensures RelayCanParse(m, order, fragments[0], methodName, ArgOf(arg2),
      Arg2InFirstFrame(k, m, order, methodName, arg2))
  {
    hide WM.Writes, WM.Shape, Writer.Valid, IsMessage, Visits, EncodeCallReq, RelayCanParse, WithinCapacity,
      WM.FirstHas, SumsSized, CallReqFits, FromCallOptions, CallSender, WM.Sender.Valid, WM.Sender.Reliable, Flushed,
      ArgOf, SumSize;
    HeaderBound(m, order);
    var sender := CallSender(HeaderSize(m, order), k);
    CallSenderValid(HeaderSize(m, order), k);
    var w := new Writer(h, k, sender);
    CallCapacity(HeaderSize(m, order), k);
    WriteCall(w, methodName, arg2, arg3);
    SentMessage(h, k, sender, w.model, [methodName, ArgOf(arg2), ArgOf(arg3)]);
    fragments := w.sent;
    FirstIsParsed(h, k, m, order, w.model, methodName, ArgOf(arg2), ArgOf(arg3));
  }

  method WriteCall(w: Writer, methodName: Bytes, arg2: seq<Op>, arg3: seq<Op>)
    requires w.Valid() && w.sender.Valid() && w.sender.Reliable() && w.sender.preamble == [] && w.model == WM.INITIAL
    requires |methodName| + 4 < w.sender.capacity(0)
    modifies w.Repr()
    ensures w.Valid() && fresh(w.Repr() - old(w.Repr())) && w.err == WM.NoError && w.phase == WM.Complete
    ensures WM.FirstHas(w.model, methodName)
    ensures WM.Writes(w.h, w.kind, w.sender, w.model, [methodName, ArgOf(arg2), ArgOf(arg3)])
    ensures w.model.sent != []
    ensures |w.model.sent[0].chunks| ==
      if !Flushed(arg2) && |methodName| + |ArgOf(arg2)| + 6 < w.sender.capacity(0) then 3 else 2
  {
    hide WM.Writes, WM.Shape, Writer.Valid, WM.FirstHas, WM.OpensWith, WM.Sender.Valid, ArgOf, WM.Room, Flushed;
    WriteMethod(w, methodName);
    MethodOpens(w.sender, w.model, methodName);
    WriteArgument(w, false, arg2, [methodName]);
    FirstOpens(w.model, methodName);
    WriteArgument(w, true, arg3, [methodName] + [ArgOf(arg2)]);
    assert [methodName] + [ArgOf(arg2)] + [ArgOf(arg3)] == [methodName, ArgOf(arg2), ArgOf(arg3)];
  }

  lemma CallCapacity(header: nat, k: Kind)
    requires header <= 2000
    ensures CallSender(header, k).capacity(0) == MAX_FRAME_PAYLOAD_SIZE - SumSize(k) - header - 2
  {
  }

  lemma MethodOpens(p: WM.Sender, w: WM.State, c: Chunk)
    requires w.phase == WM.Waiting && w.sent == [] && w.open && w.chunks == [c]
    ensures WM.OpensWith(w, c) && WM.Room(p, w) == p.capacity(0) - |c| - 2
  {
    EncodeOne(c);
  }

  lemma FirstOpens(w: WM.State, c: Chunk)
    ensures WM.FirstHas(w, c) ==> WM.OpensWith(w, c)
  {
  }
}
