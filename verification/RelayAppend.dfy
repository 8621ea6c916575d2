/** Appending to arg2 in flight: the relay rewrites the first frame of a call and fixes up
    the checksums of the rest (relay.go:727-811, 881-938). */
module RelayAppend {
  import opened Buffers
  import opened Messages
  import opened Chunks
  import opened Frames
  import opened LazyCallReq
  import opened LazyRefinesEager
  import opened CallFrames
  import opened KeyVals
  import opened MessageCodec
  import opened Arguments
  import WM = WriterModel

  // ---------- the call as it comes in ----------

  /** A well-formed call of three arguments, with first frame p. */
  ghost predicate WholeCall(h: Digest, k: Kind, p: Bytes, fs: seq<Split>, args: seq<Chunk>) {
    && fs != [] && Chain(h, k, [], fs, false)
    && (forall i :: 0 <= i < |fs| ==> fs[i].chunks != [])
    && Glue(ChunkLists(fs)) == args && |args| == 3
    && ParseInbound(p).Ok? && FragmentOf(ParseInbound(p).value) == Seal(k, fs[0])
  }

  function FragmentOf(e: Inbound): (f: Fragment) {
    Fragment(e.flags, e.csumType, e.csum, e.contents)
  }

  lemma {:induction false} GlueAtLeast(fs: seq<seq<Chunk>>, i: nat)
    requires i < |fs| && forall j :: 0 <= j < |fs| ==> fs[j] != []
    ensures |fs[i]| <= |Glue(fs)|
    decreases |fs|
  {
    if i == 0 {
    } else {
      GlueAtLeast(fs[1..], i - 1);
    }
  }

  lemma TwoThenRest(chunks: seq<Chunk>, m: Bytes, a: Bytes, tail: Bytes)
    requires |Encode(chunks)| < 0x1_0000 && Encode(chunks) == Encode([m, a]) + tail
    ensures |chunks| >= 2 && chunks[0] == m && chunks[1] == a && tail == Encode(chunks[2..])
  {
    hide Encode, Parse;
    ParseEncode(chunks);
    EncodeTwo(m, a, tail);
    FirstChunksAgree(m, a, tail);
    assert chunks[..2] == [m, a];
    assert chunks[0] == chunks[..2][0] && chunks[1] == chunks[..2][1];
    assert chunks == [m, a] + chunks[2..];
    EncodeAppend([m, a], chunks[2..]);
    var e := Encode([m, a]);
    assert (e + tail)[|e|..] == tail && (e + Encode(chunks[2..]))[|e|..] == Encode(chunks[2..]);
  }

  lemma LastChunkIs(c: Chunk, tail: Bytes)
    requires tail == Encode([c])
    ensures |tail| >= 2 && tail[2..] == c
  {
    EncodeOne(c);
  }

  // The contents of a frame in which arg3 has started and nothing follows it.
  lemma ThreeChunks(p: Bytes, l: Lazy, chunks: seq<Chunk>)
    requires |p| < 0x1_0000 && LazyParse(p) == LazyCallReq.Ok(l) && !l.isArg2Fragmented && |chunks| <= 3
    requires ParseInbound(p).Ok? && ParseInbound(p).value.contents == Encode(chunks) && |Encode(chunks)| < 0x1_0000
    ensures l.arg2StartOffset <= l.arg2EndOffset && l.arg2EndOffset + 2 == l.arg3StartOffset <= |p|
    ensures chunks == [l.methodName, Arg2Of(p, l), Arg3Of(p, l)]
  {
    hide LazyParse, ParseInbound, FieldsOf, TtlOf, SpanOf, ServiceOf, Encode, Arg2Of;
    LazyAgrees(p, l);
    var tail := p[l.arg2EndOffset..];
    TwoThenRest(chunks, l.methodName, Arg2Of(p, l), tail);
    EmptyEncode();
    assert chunks[2..] != [];
    assert chunks[2..] == [chunks[2]];
    LastChunkIs(chunks[2], tail);
    assert tail[2..] == Arg3Of(p, l);
  }

  /** When arg2 is not fragmented, the first fragment is the method, the whole of arg2 and
      the start of arg3. */
  lemma FirstFragmentIs(h: Digest, k: Kind, p: Bytes, l: Lazy, fs: seq<Split>, args: seq<Chunk>)
    requires |p| < 0x1_0000 && LazyParse(p) == LazyCallReq.Ok(l) && !l.isArg2Fragmented && WholeCall(h, k, p, fs, args)
    ensures l.arg2StartOffset <= l.arg2EndOffset && l.arg2EndOffset + 2 == l.arg3StartOffset <= |p|
    ensures fs[0].chunks == [l.methodName, Arg2Of(p, l), Arg3Of(p, l)]
  {
    hide LazyParse, ParseInbound, Encode, Glue, Arg2Of, Arg3Of, Chain;
    GlueAtLeast(ChunkLists(fs), 0);
    ChainFits(h, k, [], fs, false);
    ThreeChunks(p, l, fs[0].chunks);
  }

  // The rest of a message of three arguments only adds to the third.
  lemma SecondReplaced(m: Chunk, a: Chunk, a': Chunk, c: Chunk, rest: seq<Chunk>, args: seq<Chunk>)
    requires rest != [] && args == Glue2([m, a, c], rest) && |args| == 3
    ensures args[0] == m && args[1] == a && Glue2([m, a', c], rest) == [m, a', args[2]]
  {
    assert |rest| == 1;
  }

  lemma EmptyEncode()
    ensures Encode([]) == []
  {
  }

  // ---------- rewriting the first frame ----------

  // "thrift"
  const THRIFT: Bytes := [0x74, 0x68, 0x72, 0x69, 0x66, 0x74]

  datatype SendError = NoError | FragmentedArg2 | ThriftOnly | NoCountInArg2

  function AppendError(p: Bytes, l: Lazy): (e: SendError)
    requires l.arg2StartOffset <= l.arg2EndOffset <= |p|
  {
    if l.isArg2Fragmented then FragmentedArg2
    else if l.fields.argScheme != THRIFT then ThriftOnly
    else if |Arg2Of(p, l)| < 2 then NoCountInArg2
    else NoError
  }

  // Flags and preamble come from the call; the header bytes before the checksum are copied.
  function RelaySender(p: Bytes, l: Lazy, k: Kind): (s: WM.Sender)
    requires p != [] && l.checksumTypeOffset + 1 + SumSize(k) <= MAX_FRAME_PAYLOAD_SIZE
  {
    WM.Sender(i => MAX_FRAME_PAYLOAD_SIZE - SumSize(k) - if i == 0 then l.checksumTypeOffset + 1 else 2,
              _ => false, _ => false, p[0], [l.methodName])
  }

  lemma RelaySenderValid(p: Bytes, l: Lazy, k: Kind)
    requires |p| <= MAX_FRAME_PAYLOAD_SIZE && LazyParse(p) == LazyCallReq.Ok(l) && l.csumType == TypeCode(k)
    requires !l.isArg2Fragmented
    ensures p != [] && l.checksumTypeOffset + 1 + SumSize(k) <= MAX_FRAME_PAYLOAD_SIZE
    ensures RelaySender(p, l, k).Valid() && RelaySender(p, l, k).Reliable()
    ensures RelaySender(p, l, k).flags == p[0] && RelaySender(p, l, k).preamble == [l.methodName]
  {
    hide LazyParse, FieldsOf, TtlOf, SpanOf, ServiceOf, Encode, ParseInbound;
    LazyAgrees(p, l);
    TypeCodeOf(k);
    CsumSize(p);
    TwoChunkSize(l.methodName, Arg2Of(p, l));
    EncodeOne(l.methodName);
  }

  lemma CsumSize(p: Bytes)
    requires ParseInbound(p).Ok?
    ensures |ParseInbound(p).value.csum| == WireSumSize(ParseInbound(p).value.csumType)
  {
    hide ReadCallReq, WireSumSize;
  }

  lemma TwoChunkSize(m: Bytes, a: Bytes)
    ensures |Encode([m, a])| == |m| + |a| + 4
  {
    EncodeOne(m);
    EncodeOne(a);
    assert [m, a] == [m] + [a];
    EncodeAppend([m], [a]);
  }

  // What writeArg2WithAppends writes.
  function AppendOps(appends: seq<Pair>): (ops: seq<Op>) {
    if appends == [] then []
    else
      var (key, val) := appends[|appends| - 1];
      AppendOps(appends[..|appends| - 1]) + [Write(U16(|key|)), Write(key), Write(U16(|val|)), Write(val)]
  }

  function Arg2Ops(arg2: Bytes, appends: seq<Pair>): (ops: seq<Op>)
    requires |arg2| >= 2
  {
    [Write(U16(GetUint(arg2[..2]) + |appends|))] + (if |arg2| > 2 then [Write(arg2[2..])] else []) + AppendOps(appends)
  }

  lemma {:induction false} ArgOfConcat(a: seq<Op>, b: seq<Op>)
    ensures ArgOf(a + b) == ArgOf(a) + ArgOf(b)
    decreases |b|
  {
    if b == [] {
      assert a + b == a;
    } else {
      assert (a + b)[..|a + b| - 1] == a + b[..|b| - 1];
      ArgOfConcat(a, b[..|b| - 1]);
    }
  }

  lemma ArgOfOne(b: Bytes)
    ensures ArgOf([Write(b)]) == b
  {
    var ops := [Write(b)];
    assert ops[..0] == [];
    assert [] + b == b;
  }

  lemma ArgOfFour(a: Bytes, b: Bytes, c: Bytes, d: Bytes)
    ensures ArgOf([Write(a), Write(b), Write(c), Write(d)]) == (a + b) + (c + d)
  {
    ArgOfOne(a);
    ArgOfOne(b);
    ArgOfOne(c);
    ArgOfOne(d);
    ArgOfConcat([Write(a)], [Write(b)]);
    ArgOfConcat([Write(c)], [Write(d)]);
    ArgOfConcat([Write(a)] + [Write(b)], [Write(c)] + [Write(d)]);
    assert [Write(a), Write(b), Write(c), Write(d)] == [Write(a)] + [Write(b)] + ([Write(c)] + [Write(d)]);
  }

  lemma {:induction false} AppendOpsWrite(appends: seq<Pair>)
    ensures ArgOf(AppendOps(appends)) == EncodePairs(2, appends)
    decreases |appends|
  {
    hide PutUint, ArgOf, EncodePairs;
    EmptyPairs();
    ArgOfNone();
    if appends == [] {
    } else {
      var init, last := appends[..|appends| - 1], appends[|appends| - 1];
      AppendOpsWrite(init);
      ArgOfFour(U16(|last.0|), last.0, U16(|last.1|), last.1);
      ArgOfConcat(AppendOps(init), [Write(U16(|last.0|)), Write(last.0), Write(U16(|last.1|)), Write(last.1)]);
      assert appends == init + [last];
      EncodePairsSnoc(2, init, last);
    }
  }

  /** The writes add up to arg2 with a new count and the appended pairs. */
  lemma Arg2OpsWrite(arg2: Bytes, appends: seq<Pair>)
    requires |arg2| >= 2
    ensures ArgOf(Arg2Ops(arg2, appends)) == WithAppends(arg2, appends)
  {
    hide U16, ArgOf, EncodePairs, AppendOps;
    var n, was := [Write(U16(GetUint(arg2[..2]) + |appends|))], if |arg2| > 2 then [Write(arg2[2..])] else [];
    ArgOfOne(U16(GetUint(arg2[..2]) + |appends|));
    ArgOfOne(arg2[2..]);
    ArgOfNone();
    AppendOpsWrite(appends);
    ArgOfConcat(n, was);
    ArgOfConcat(n + was, AppendOps(appends));
    assert ArgOf(was) == arg2[2..];
    var a, b, c := ArgOf(n), ArgOf(was), ArgOf(AppendOps(appends));
    assert a + b + c == a + (b + c);
  }

  lemma EmptyPairs()
    ensures EncodePairs(2, []) == []
  {
  }

  lemma ArgOfNone()
    ensures ArgOf([]) == []
  {
  }

  /** fragmentingSend: the fragments it sends denote the method, arg2 with the appends and
      what the frame holds of arg3, and end with the more-fragments flag of the frame. */
  method FragmentingSend(h: Digest, k: Kind, p: Bytes, l: Lazy, appends: seq<Pair>)
      returns (err: SendError, fragments: seq<Fragment>)
    requires |p| <= MAX_FRAME_PAYLOAD_SIZE && LazyParse(p) == LazyCallReq.Ok(l) && l.csumType == TypeCode(k)
    ensures l.arg2StartOffset <= l.arg2EndOffset <= |p| && err == AppendError(p, l)
    ensures err == NoError ==>
      && p != [] && l.arg3StartOffset <= |p| && l.checksumTypeOffset + 1 + SumSize(k) <= MAX_FRAME_PAYLOAD_SIZE
      && IsMessage(h, k, fragments, [l.methodName, WithAppends(Arg2Of(p, l), appends), Arg3Of(p, l)], HasMore(p[0]))
      && WithinCapacity(RelaySender(p, l, k), fragments)
  {
    hide LazyParse, FieldsOf, TtlOf, SpanOf, ServiceOf, Encode, ParseInbound, RelaySender, Arg2Ops, ArgOf, IsMessage,
      WithAppends, WM.Sender.Valid, WM.Sender.Reliable, WithinCapacity;
    LazyAgrees(p, l);
    err, fragments := AppendError(p, l), [];
    if err == NoError {
      var arg2, arg3 := Arg2Of(p, l), Arg3Of(p, l);
      RelaySenderValid(p, l, k);
      var script := [Arg2Ops(arg2, appends), [Write(arg3)]];
      fragments := Send(h, k, RelaySender(p, l, k), script);
      Arg2OpsWrite(arg2, appends);
      ArgOfOne(arg3);
      assert [l.methodName] + ArgsOf(script) == [l.methodName, WithAppends(arg2, appends), arg3];
    }
  }
}
