/** A call that a relay appends to, from the frames it reads to what the receiver gets. */
module RelayedCall {
  import opened Buffers
  import opened Messages
  import opened Chunks
  import opened Frames
  import opened LazyCallReq
  import opened LazyRefinesEager
  import opened CallFrames
  import opened HeaderCopy
  import opened KeyVals
  import opened Arguments
  import opened RelayAppend
  import RS = ReaderSound

  // ---------- continuation frames ----------

  function NextPayload(f: Fragment): (p: Bytes) {
    [f.flags] + ([f.csumType] + (f.csum + f.contents))
  }

  // parseInboundFragment with a callReqContinue, which has no body
  function ParseContinue(payload: Bytes): (res: LazyCallReq.Result<Fragment>) {
    var (flags, r1) := RBuf(payload, false).ReadByte();
    var (t, r2) := r1.ReadByte();
    if t >= CHECKSUM_COUNT then LazyCallReq.Err(InvalidChecksumType)
    else
      var (csum, r3) := r2.ReadBytes(WireSumSize(t));
      if r3.failed then LazyCallReq.Err(BufferTooShort) else LazyCallReq.Ok(Fragment(flags, t, csum, r3.remaining))
  }

  lemma ParseContinueOf(f: Fragment)
    requires f.csumType < CHECKSUM_COUNT && |f.csum| == WireSumSize(f.csumType)
    ensures ParseContinue(NextPayload(f)) == LazyCallReq.Ok(f)
  {
    hide WireSumSize, RBuf.ReadByte;
    ReadByteBack(f.flags, [f.csumType] + (f.csum + f.contents));
    ReadByteBack(f.csumType, f.csum + f.contents);
    ReadBytesBack(f.csum, f.contents);
  }

  // The first chunk's bytes, and the checksum over everything up to them.
  function UpdateChecksum(h: Digest, k: Kind, seen: Bytes, payload: Bytes): (r: (Bytes, Bytes))
    requires |h(k, seen + ContinueData(k, payload))| == SumSize(k)
  {
    var seen' := seen + ContinueData(k, payload);
    (if 2 + SumSize(k) <= |payload| then Patch(payload, 2, h(k, seen')) else payload, seen')
  }

  function ContinueData(k: Kind, payload: Bytes): (b: Bytes) {
    var (_, r1) := RBuf(payload, false).ReadBytes(2);
    var (_, r2) := r1.ReadBytes(SumSize(k));
    var (n, r3) := r2.ReadUint(2);
    r3.ReadBytes(n).0
  }

  method ReadContinueData(k: Kind, payload: Bytes) returns (data: Bytes)
    ensures data == ContinueData(k, payload)
  {
    hide RBuf.ReadBytes, RBuf.ReadUint;
    var r := new ReadBuffer(payload);
    r.SkipBytes(2);
    r.SkipBytes(SumSize(k));
    var n := r.ReadUint(2);
    data := r.ReadBytes(n);
  }

  /** updateMutatedCallReqContinueChecksum, on the frame's own buffer. */
  method UpdateInPlace(h: Digest, k: Kind, seen: Bytes, payload: array<Byte>) returns (seen': Bytes)
    requires SumsSized(h)
    modifies payload
    ensures (payload[..], seen') == UpdateChecksum(h, k, seen, old(payload[..]))
  {
    hide ContinueData;
    var data := ReadContinueData(k, payload[..]);
    seen' := seen + data;
    var csum := h(k, seen');
    if 2 + SumSize(k) <= payload.Length {
      ghost var was := payload[..];
      forall i | 0 <= i < |csum| {
        payload[2 + i] := csum[i];
      }
      assert payload[..] == Patch(was, 2, csum);
    }
  }

  lemma ContinueDataIs(k: Kind, s: Split, c: Chunk)
    requires |s.csum| == SumSize(k) && s.chunks == [c] && |c| < 0x1_0000
    ensures ContinueData(k, NextPayload(Seal(k, s))) == c
  {
    hide U16, RBuf.ReadUint, Encode, SumSize;
    var p, e := NextPayload(Seal(k, s)), Encode([c]);
    assert p == [s.flags, TypeCode(k)] + (s.csum + e);
    ReadBytesBack([s.flags, TypeCode(k)], s.csum + e);
    ReadBytesBack(s.csum, e);
    ReadLength(c);
    var none: Bytes := [];
    assert c + none == c;
    ReadBytesBack(c, none);
  }

  lemma PatchChecksum(k: Kind, s: Split, csum: Bytes)
    requires |s.csum| == |csum|
    ensures 2 + |csum| <= |NextPayload(Seal(k, s))|
    ensures Patch(NextPayload(Seal(k, s)), 2, csum) == NextPayload(Seal(k, s.(csum := csum)))
  {
    hide Encode;
    var p, e := NextPayload(Seal(k, s)), Encode(s.chunks);
    assert p == [s.flags, TypeCode(k)] + s.csum + e;
    var q := NextPayload(Seal(k, s.(csum := csum)));
    assert q == [s.flags, TypeCode(k)] + csum + e;
    assert p[..2] == [s.flags, TypeCode(k)] && p[2 + |csum|..] == e;
  }

  /** A frame with one chunk keeps everything but its checksum, which now covers what the
      relay has sent before it. */
  lemma UpdatesContinuation(h: Digest, k: Kind, seen: Bytes, s: Split, c: Chunk)
    requires SumsSized(h) && |s.csum| == SumSize(k) && s.chunks == [c] && |c| < 0x1_0000
    ensures UpdateChecksum(h, k, seen, NextPayload(Seal(k, s))) ==
      (NextPayload(Seal(k, s.(csum := h(k, seen + c)))), seen + c)
  {
    hide NextPayload, Seal, ContinueData, Patch;
    ContinueDataIs(k, s, c);
    PatchChecksum(k, s, h(k, seen + c));
  }

  lemma ReadLength(c: Bytes)
    requires |c| < 0x1_0000
    ensures RBuf(Encode([c]), false).ReadUint(2) == (|c|, RBuf(c, false))
  {
    EncodeOne(c);
    LimitIsWidth();
    ReadUintBack(|c|, 2, c);
  }

  // ---------- the running checksum of the rest ----------

  function Recheck(h: Digest, k: Kind, seen: Bytes, fs: seq<Split>): (r: seq<Split>)
    ensures |r| == |fs|
    decreases |fs|
  {
    if fs == [] then []
    else
      var seen' := seen + Join(fs[0].chunks);
      [fs[0].(csum := h(k, seen'))] + Recheck(h, k, seen', fs[1..])
  }

  /** Whatever the fragments were a continuation of, with new checksums they continue a
      message of which `seen` was sent. */
  lemma {:induction false} RecheckChain(h: Digest, k: Kind, was: Bytes, seen: Bytes, fs: seq<Split>)
    requires Chain(h, k, was, fs, false)
    ensures Chain(h, k, seen, Recheck(h, k, seen, fs), false)
    ensures ChunkLists(Recheck(h, k, seen, fs)) == ChunkLists(fs)
    decreases |fs|
  {
    hide Join, Encode;
    if fs == [] {
    } else {
      var seen' := seen + Join(fs[0].chunks);
      RecheckChain(h, k, was + Join(fs[0].chunks), seen', fs[1..]);
      var rest := Recheck(h, k, seen', fs[1..]);
      var all := Recheck(h, k, seen, fs);
      assert all[1..] == rest;
      assert ChunkLists(all) == [fs[0].chunks] + ChunkLists(rest);
      assert ChunkLists(fs) == [fs[0].chunks] + ChunkLists(fs[1..]);
    }
  }

  function Payloads(fs: seq<Fragment>): (ps: seq<Bytes>)
    ensures |ps| == |fs|
    ensures forall i :: 0 <= i < |fs| ==> ps[i] == NextPayload(fs[i])
  {
    seq(|fs|, i requires 0 <= i < |fs| => NextPayload(fs[i]))
  }

  // One chunk each, and checksums of the right size.
  predicate OneChunkEach(k: Kind, fs: seq<Split>) {
    forall i :: 0 <= i < |fs| ==> |fs[i].csum| == SumSize(k) && |fs[i].chunks| == 1 && |fs[i].chunks[0]| < 0x1_0000
  }

  /** The frames that follow, as the relay forwards them. */
  method ForwardRest(h: Digest, k: Kind, seen: Bytes, conts: seq<Bytes>, ghost fs: seq<Split>) returns (out: seq<Bytes>)
    requires SumsSized(h) && OneChunkEach(k, fs) && conts == Payloads(SealAll(k, fs))
    ensures out == Payloads(SealAll(k, Recheck(h, k, seen, fs)))
    decreases |conts|
  {
    hide SumsSized, NextPayload, Seal, UpdateChecksum, Recheck, Payloads, SealAll;
    if conts == [] {
      NothingToForward(h, k, seen, fs);
      return [];
    }
    ghost var c := fs[0].chunks[0];
    assert fs[0].chunks == [c];
    UpdatesContinuation(h, k, seen, fs[0], c);
    ForwardStep(h, k, seen, fs, c);
    var buffer := new Byte[|conts[0]|](i requires 0 <= i < |conts[0]| => conts[0][i]);
    assert buffer[..] == conts[0];
    var seen' := UpdateInPlace(h, k, seen, buffer);
    var rest := ForwardRest(h, k, seen', conts[1..], fs[1..]);
    out := [buffer[..]] + rest;
  }

  lemma NothingToForward(h: Digest, k: Kind, seen: Bytes, fs: seq<Split>)
    requires Payloads(SealAll(k, fs)) == []
    ensures Payloads(SealAll(k, Recheck(h, k, seen, fs))) == []
  {
  }

  lemma ForwardStep(h: Digest, k: Kind, seen: Bytes, fs: seq<Split>, c: Chunk)
    requires fs != [] && fs[0].chunks == [c]
    ensures Payloads(SealAll(k, fs)) == [NextPayload(Seal(k, fs[0]))] + Payloads(SealAll(k, fs[1..]))
    ensures Payloads(SealAll(k, Recheck(h, k, seen, fs))) ==
      [NextPayload(Seal(k, fs[0].(csum := h(k, seen + c))))] + Payloads(SealAll(k, Recheck(h, k, seen + c, fs[1..])))
  {
    hide NextPayload, Seal;
    JoinOne(c);
    var all := Recheck(h, k, seen, fs);
    assert all[1..] == Recheck(h, k, seen + c, fs[1..]);
    assert Payloads(SealAll(k, all)) == [NextPayload(Seal(k, all[0]))] + Payloads(SealAll(k, all[1..]));
  }

  // ---------- the rewritten first frame ----------

  function RelayTTL(ttl: nat, maxTimeout: nat): (r: nat) {
    if ttl > maxTimeout then maxTimeout - maxTimeout % MILLISECOND else ttl
  }

  // The header bytes the relay copies, with the time to live capped.
  function CopiedHeader(p: Bytes, l: Lazy, maxTimeout: nat): (b: Bytes)
    requires SPAN_INDEX <= l.checksumTypeOffset <= |p|
  {
    ClampTTL(p, maxTimeout)[1..l.checksumTypeOffset]
  }

  lemma CopiedBytes(p: Bytes, l: Lazy, maxTimeout: nat, f: Fragment)
    requires SPAN_INDEX <= l.checksumTypeOffset <= |p| && Millis(maxTimeout) < Limit(4)
    ensures var off, p1 := l.checksumTypeOffset, FirstPayload(CopiedHeader(p, l, maxTimeout), f);
      && |p1| == off + 1 + |f.csum| + |f.contents|
      && p1[0] == f.flags && p1[SPAN_INDEX..off] == p[SPAN_INDEX..off] && TtlOf(p1) == RelayTTL(TtlOf(p), maxTimeout)
      && p1[off..] == [f.csumType] + (f.csum + f.contents)
  {
    hide TtlOf, Limit, SetTTL;
    var off, q := l.checksumTypeOffset, ClampTTL(p, maxTimeout);
    var p1 := FirstPayload(q[1..off], f);
    ClampedTTL(p, maxTimeout);
    assert q[SPAN_INDEX..][..off - SPAN_INDEX] == q[SPAN_INDEX..off];
    assert p[SPAN_INDEX..][..off - SPAN_INDEX] == p[SPAN_INDEX..off];
    assert p1[..off] == [f.flags] + q[1..off];
    assert p1[1..off] == q[1..off];
    SliceOf(p1, q, 1, off, SPAN_INDEX, off);
    SliceOf(p1, q, 1, off, TTL_INDEX, SPAN_INDEX);
    SameTTL(p1, q);
  }

  lemma SliceOf(a: Bytes, b: Bytes, i: nat, n: nat, x: nat, y: nat)
    requires i <= x <= y <= n <= |a| && n <= |b| && a[i..n] == b[i..n]
    ensures a[x..y] == b[x..y]
  {
    SameBytes(a, b, i, n);
  }

  lemma SameTTL(a: Bytes, b: Bytes)
    requires |a| >= SPAN_INDEX && |b| >= SPAN_INDEX && a[TTL_INDEX..SPAN_INDEX] == b[TTL_INDEX..SPAN_INDEX]
    ensures TtlOf(a) == TtlOf(b)
  {
  }

  /** The rewritten first frame decodes to the same request, with its time to live capped. */
  lemma FirstFrameDecodes(p: Bytes, l: Lazy, maxTimeout: nat, f: Fragment)
    requires |p| < 0x1_0000 && LazyParse(p) == LazyCallReq.Ok(l) && Millis(maxTimeout) < Limit(4)
    requires f.csumType < CHECKSUM_COUNT && |f.csum| == WireSumSize(f.csumType)
    ensures ParseInbound(p).Ok? && SPAN_INDEX <= l.checksumTypeOffset <= |p|
    ensures var req := ParseInbound(p).value.req;
      ParseInbound(FirstPayload(CopiedHeader(p, l, maxTimeout), f)) ==
        LazyCallReq.Ok(Inbound(f.flags, req.(ttl := RelayTTL(req.ttl, maxTimeout)), f.csumType, f.csum, f.contents))
  {
    hide LazyParse, ParseInbound, ReadCallReq, TtlOf, CopiedHeader, FirstPayload, FieldsOf, SpanOf, ServiceOf,
      WireSumSize, Limit, RelayTTL, Encode, RBuf.ReadByte;
    LazyAgrees(p, l);
    HeaderEnds(p, l);
    var off, p1 := l.checksumTypeOffset, FirstPayload(CopiedHeader(p, l, maxTimeout), f);
    CopiedBytes(p, l, maxTimeout, f);
    SameRequest(p, l, p1);
    var c := off + 1 + |f.csum|;
    TailParts(p1, off, f);
    EagerTail(p1, RBuf(p1[off..], false), off);
  }

  lemma TailParts(p1: Bytes, off: nat, f: Fragment)
    requires off < |p1| && p1[off..] == [f.csumType] + (f.csum + f.contents)
    ensures var c := off + 1 + |f.csum|;
      c <= |p1| && p1[off] == f.csumType && p1[off + 1..c] == f.csum && p1[c..] == f.contents
  {
    var t, c := p1[off..], off + 1 + |f.csum|;
    assert t[0] == f.csumType && t[1..1 + |f.csum|] == f.csum && t[1 + |f.csum|..] == f.contents;
    assert p1[off + 1..c] == t[1..1 + |f.csum|] && p1[c..] == t[1 + |f.csum|..];
  }

  // ---------- the whole message ----------

  lemma JoinGlue2(a: seq<Chunk>, b: seq<Chunk>)
    requires a != [] && b != []
    ensures Join(Glue2(a, b)) == Join(a) + Join(b)
  {
    hide Join;
    var init, last := a[..|a| - 1], a[|a| - 1];
    JoinAppend(init, [last]);
    JoinAppend(init + [last + b[0]], b[1..]);
    JoinAppend(init, [last + b[0]]);
    JoinAppend([b[0]], b[1..]);
    JoinOne(last);
    JoinOne(b[0]);
    JoinOne(last + b[0]);
    assert a == init + [last] && b == [b[0]] + b[1..];
  }

  /** The running checksum has seen exactly the arguments. */
  lemma {:induction false} DataIsArgs(fs: seq<Split>)
    requires forall i :: 0 <= i < |fs| ==> fs[i].chunks != []
    ensures Data(fs) == Join(Glue(ChunkLists(fs)))
    decreases |fs|
  {
    if fs == [] {
      JoinOne([]);
    } else {
      DataIsArgs(fs[1..]);
      assert ChunkLists(fs)[1..] == ChunkLists(fs[1..]);
      JoinGlue2(fs[0].chunks, Glue(ChunkLists(fs[1..])));
    }
  }

  lemma {:induction false} ChainSums(h: Digest, k: Kind, seen: Bytes, fs: seq<Split>, lastMore: bool)
    requires SumsSized(h) && Chain(h, k, seen, fs, lastMore)
    ensures forall i :: 0 <= i < |fs| ==> |fs[i].csum| == SumSize(k)
    decreases |fs|
  {
    if fs == [] {
    } else {
      ChainSums(h, k, seen + Join(fs[0].chunks), fs[1..], lastMore);
    }
  }

  // What follows the first frame is one chunk of arg3 per frame.
  lemma RestIsArg3(h: Digest, k: Kind, fs: seq<Split>, args: seq<Chunk>)
    requires SumsSized(h) && fs != [] && Chain(h, k, [], fs, false)
      && (forall i :: 0 <= i < |fs| ==> fs[i].chunks != [])
    requires Glue(ChunkLists(fs)) == args && |args| == 3 && |fs[0].chunks| == 3
    ensures OneChunkEach(k, fs[1..]) && Chain(h, k, [] + Join(fs[0].chunks), fs[1..], false)
    ensures args == Glue2(fs[0].chunks, Glue(ChunkLists(fs[1..])))
    ensures HasMore(fs[0].flags) == (fs[1..] != [])
  {
    hide SumsSized, Encode, Join;
    var rest := fs[1..];
    assert ChunkLists(fs)[1..] == ChunkLists(rest);
    ChainSums(h, k, [], fs, false);
    ChainFits(h, k, [], fs, false);
    forall i | 0 <= i < |rest|
      ensures |rest[i].csum| == SumSize(k) && |rest[i].chunks| == 1 && |rest[i].chunks[0]| < 0x1_0000
    {
      assert rest[i] == fs[i + 1];
      GlueAtLeast(ChunkLists(rest), i);
      EncodeSizes(rest[i].chunks);
    }
  }

  /** The rewritten fragments and the re-checksummed rest make one well-formed message,
      which differs from the one that came in only in arg2. */
  lemma MessageIs(h: Digest, k: Kind, fs: seq<Split>, args: seq<Chunk>, gs: seq<Split>, arg2: Chunk)
    requires SumsSized(h) && fs != [] && Chain(h, k, [], fs, false)
      && (forall i :: 0 <= i < |fs| ==> fs[i].chunks != [])
    requires Glue(ChunkLists(fs)) == args && |args| == 3 && |fs[0].chunks| == 3
    requires gs != [] && Chain(h, k, [], gs, HasMore(fs[0].flags)) && (forall i :: 0 <= i < |gs| ==> gs[i].chunks != [])
    requires Glue(ChunkLists(gs)) == [fs[0].chunks[0], arg2, fs[0].chunks[2]]
    ensures var all := gs + Recheck(h, k, Data(gs), fs[1..]);
      && Chain(h, k, [], all, false)
      && (forall i :: 0 <= i < |all| ==> all[i].chunks != [])
      && Glue(ChunkLists(all)) == [args[0], arg2, args[2]]
    ensures args[1] == fs[0].chunks[1] && OneChunkEach(k, fs[1..])
  {
    hide SumsSized, Chain, Glue, Recheck;
    RestIsArg3(h, k, fs, args);
    var rest := Recheck(h, k, Data(gs), fs[1..]);
    RecheckChain(h, k, [] + Join(fs[0].chunks), Data(gs), fs[1..]);
    assert [] + Data(gs) == Data(gs);
    ChainAppend(h, k, [], gs, rest, false);
    var c, lists := fs[0].chunks, ChunkLists(fs[1..]);
    assert c == [c[0], c[1], c[2]];
    SecondReplaced(c[0], c[1], arg2, c[2], Glue(lists), args);
    assert ChunkLists(gs + rest) == ChunkLists(gs) + lists;
    GlueConcat(ChunkLists(gs), lists);
    assert forall i :: 0 <= i < |rest| ==> rest[i].chunks == ChunkLists(rest)[i];
  }

  // ---------- the call ----------

  // The fragments in the payloads of a call.
  function Decoded(out: seq<Bytes>): (fragments: seq<Fragment>)
    requires Decodes(out)
    ensures |fragments| == |out|
  {
    [FragmentOf(ParseInbound(out[0]).value)] +
    seq(|out| - 1, i requires 0 <= i < |out| - 1 => ParseContinue(out[i + 1]).value)
  }

  predicate Decodes(out: seq<Bytes>) {
    out != [] && ParseInbound(out[0]).Ok? && forall i :: 1 <= i < |out| ==> ParseContinue(out[i]).Ok?
  }

  /** The payloads of a call with this request and these arguments, as an endpoint sees it. */
  ghost predicate IsCall(h: Digest, k: Kind, out: seq<Bytes>, req: CallReq, args: seq<Chunk>) {
    Decodes(out) && ParseInbound(out[0]).value.req == req && IsMessage(h, k, Decoded(out), args, false)
  }

  // The payloads of a message: the first carries the header.
  function MessagePayloads(header: Bytes, fragments: seq<Fragment>): (ps: seq<Bytes>)
    requires fragments != []
  {
    [FirstPayload(header, fragments[0])] + Payloads(fragments[1..])
  }

  lemma PayloadsAt(header: Bytes, fragments: seq<Fragment>)
    requires fragments != []
    ensures var ps := MessagePayloads(header, fragments);
      && |ps| == |fragments| && ps[0] == FirstPayload(header, fragments[0])
      && forall i :: 1 <= i < |ps| ==> ps[i] == NextPayload(fragments[i])
  {
    hide FirstPayload, NextPayload;
  }

  lemma CallIs(h: Digest, k: Kind, p: Bytes, l: Lazy, maxTimeout: nat, all: seq<Split>)
    requires SumsSized(h) && |p| < 0x1_0000 && LazyParse(p) == LazyCallReq.Ok(l) && Millis(maxTimeout) < Limit(4)
    requires all != [] && Chain(h, k, [], all, false) && (forall i :: 0 <= i < |all| ==> all[i].chunks != [])
    ensures ParseInbound(p).Ok? && SPAN_INDEX <= l.checksumTypeOffset <= |p|
    ensures var req := ParseInbound(p).value.req;
      IsCall(h, k, MessagePayloads(CopiedHeader(p, l, maxTimeout), SealAll(k, all)),
             req.(ttl := RelayTTL(req.ttl, maxTimeout)), Glue(ChunkLists(all)))
  {
    hide LazyParse, ParseInbound, ParseContinue, Chain, Glue, FirstPayload, CopiedHeader, NextPayload, SumsSized,
      RelayTTL, Limit, Seal, WireSumSize, TypeCode, SumSize, MessagePayloads, SealAll, IsMessage;
    SealedSums(h, k, all);
    FirstFrameDecodes(p, l, maxTimeout, Seal(k, all[0]));
    PayloadsAt(CopiedHeader(p, l, maxTimeout), SealAll(k, all));
    forall i | 1 <= i < |all|
      ensures ParseContinue(NextPayload(Seal(k, all[i]))) == LazyCallReq.Ok(Seal(k, all[i]))
    {
      ParseContinueOf(Seal(k, all[i]));
    }
    MessageOf(h, k, all, false);
    var out := MessagePayloads(CopiedHeader(p, l, maxTimeout), SealAll(k, all));
    assert Decoded(out) == SealAll(k, all);
  }

  lemma SealedSums(h: Digest, k: Kind, all: seq<Split>)
    requires SumsSized(h) && Chain(h, k, [], all, false)
    ensures forall i :: 0 <= i < |all| ==>
      Seal(k, all[i]).csumType < CHECKSUM_COUNT && |Seal(k, all[i]).csum| == WireSumSize(Seal(k, all[i]).csumType)
  {
    hide SumsSized, Chain;
    ChainSums(h, k, [], all, false);
    TypeCodeOf(k);
  }

  // A continuation payload is made of what it parses into.
  lemma ContinueIs(payload: Bytes)
    requires ParseContinue(payload).Ok?
    ensures payload == NextPayload(ParseContinue(payload).value)
  {
    hide WireSumSize;
    assert payload == [payload[0]] + ([payload[1]] + payload[2..]);
  }

  /** The call that comes in, fragment by fragment. */
  lemma CallComesIn(h: Digest, k: Kind, p: Bytes, conts: seq<Bytes>, req: CallReq, args: seq<Chunk>)
    requires IsCall(h, k, [p] + conts, req, args) && |args| == 3
    ensures var fs := SplitAll(Decoded([p] + conts));
      WholeCall(h, k, p, fs, args) && conts == Payloads(SealAll(k, fs[1..]))
        && ParseInbound(p).value.csumType == TypeCode(k)
  {
    hide ParseInbound, ParseContinue, Chain, Glue, SplitAll, NextPayload, Encode;
    var out := [p] + conts;
    var fs := SplitAll(Decoded(out));
    forall i | 0 <= i < |conts|
      ensures conts[i] == NextPayload(Seal(k, fs[1..][i]))
    {
      assert out[i + 1] == conts[i] && ParseContinue(out[i + 1]).value == Decoded(out)[i + 1];
      ContinueIs(conts[i]);
    }
    assert conts == Payloads(SealAll(k, fs[1..]));
  }

  // Without appends the frames go on as they are, but for the time to live.
  lemma ForwardedFirst(p: Bytes, l: Lazy, maxTimeout: nat)
    requires |p| < 0x1_0000 && LazyParse(p) == LazyCallReq.Ok(l) && Millis(maxTimeout) < Limit(4)
    ensures ParseInbound(p).Ok? && |p| >= SPAN_INDEX
    ensures var e := ParseInbound(p).value;
      ParseInbound(ClampTTL(p, maxTimeout)) == LazyCallReq.Ok(e.(req := e.req.(ttl := RelayTTL(e.req.ttl, maxTimeout))))
  {
    hide LazyParse, ParseInbound, FieldsOf, TtlOf, SpanOf, ServiceOf, Encode, Arg2Of, Limit, Millis, SetTTL;
    LazyAgrees(p, l);
    HeaderEnds(p, l);
    CsumSize(p);
    CsumKnown(p);
    var f, off := FragmentOf(ParseInbound(p).value), l.checksumTypeOffset;
    var tail := [f.csumType] + (f.csum + f.contents);
    assert p[off..] == tail;
    ClampedIs(p, off, tail, maxTimeout);
    hide ClampTTL;
    FirstFrameDecodes(p, l, maxTimeout, f);
  }

  lemma ClampedIs(p: Bytes, off: nat, tail: Bytes, maxTimeout: nat)
    requires SPAN_INDEX <= off <= |p| && p[off..] == tail && Millis(maxTimeout) < Limit(4)
    ensures ClampTTL(p, maxTimeout) == [p[0]] + (ClampTTL(p, maxTimeout)[1..off] + tail)
  {
    hide ClampTTL, TtlOf, Limit, Millis;
    ClampedTTL(p, maxTimeout);
    var q := ClampTTL(p, maxTimeout);
    assert p[off..] == p[SPAN_INDEX..][off - SPAN_INDEX..] && q[off..] == q[SPAN_INDEX..][off - SPAN_INDEX..];
    assert q[0..1][0] == p[0..1][0];
    assert q == [q[0]] + (q[1..off] + q[off..]);
  }

  lemma CsumKnown(p: Bytes)
    requires ParseInbound(p).Ok?
    ensures ParseInbound(p).value.csumType < CHECKSUM_COUNT
  {
    hide ReadCallReq, WireSumSize;
  }

  lemma PlainForward(h: Digest, k: Kind, p: Bytes, l: Lazy, conts: seq<Bytes>, maxTimeout: nat, req: CallReq,
      args: seq<Chunk>)
    requires |p| < 0x1_0000 && LazyParse(p) == LazyCallReq.Ok(l) && Millis(maxTimeout) < Limit(4)
    requires IsCall(h, k, [p] + conts, req, args)
    ensures |p| >= SPAN_INDEX
    ensures IsCall(h, k, [ClampTTL(p, maxTimeout)] + conts, req.(ttl := RelayTTL(req.ttl, maxTimeout)), args)
  {
    hide LazyParse, ParseInbound, ParseContinue, ClampTTL, RelayTTL, Limit, Millis, IsMessage;
    ForwardedFirst(p, l, maxTimeout);
    var a, b := [p] + conts, [ClampTTL(p, maxTimeout)] + conts;
    forall i | 1 <= i < |b|
      ensures b[i] == a[i] && ParseContinue(b[i]).Ok?
    {
    }
    assert Decoded(b) == Decoded(a);
  }

  // What becomes of arg2.
  function Relayed(arg2: Bytes, appends: seq<Pair>): (r: Bytes)
    requires appends != [] ==> |arg2| >= 2
  {
    if appends == [] then arg2 else WithAppends(arg2, appends)
  }

  /** A well-formed call with any continuation frames, relayed with or without appends to
      its arg2: unless an append is refused, what the relay sends on is a well-formed call
      again, with the same request except that its time to live is capped at the relay's
      maximum, and the same arguments except that arg2 has the appended pairs. Every checksum
      and every more-fragments flag is right, and every payload fits a frame. */
  method RelayCall(h: Digest, k: Kind, p: Bytes, l: Lazy, appends: seq<Pair>, conts: seq<Bytes>, maxTimeout: nat,
                   ghost req: CallReq, ghost args: seq<Chunk>)
      returns (err: SendError, out: seq<Bytes>)
    requires SumsSized(h) && |p| <= MAX_FRAME_PAYLOAD_SIZE && LazyParse(p) == LazyCallReq.Ok(l)
    requires Millis(maxTimeout) < Limit(4)
    requires IsCall(h, k, [p] + conts, req, args) && |args| == 3
    ensures l.arg2StartOffset <= l.arg2EndOffset <= |p|
    ensures err == if appends == [] then NoError else AppendError(p, l)
    ensures err == NoError ==>
      && (appends != [] ==> |args[1]| >= 2)
      && IsCall(h, k, out, req.(ttl := RelayTTL(req.ttl, maxTimeout)), [args[0], Relayed(args[1], appends), args[2]])
    ensures AllFit(conts) ==> AllFit(out)
  {
    hide IsCall, AllFit, LazyParse, AppendError, Millis, Limit, ClampTTL, RelayTTL, Arg2Of, WithAppends;
    if appends == [] {
      Arg2Lies(p, l);
      PlainForward(h, k, p, l, conts, maxTimeout, req, args);
      err, out := NoError, [ClampTTL(p, maxTimeout)] + conts;
      assert args == [args[0], args[1], args[2]];
      ClampFits(p, maxTimeout, conts);
    } else {
      err, out := RelayAppended(h, k, p, l, appends, conts, maxTimeout, req, args);
    }
  }

  lemma Arg2Lies(p: Bytes, l: Lazy)
    requires |p| < 0x1_0000 && LazyParse(p) == LazyCallReq.Ok(l)
    ensures l.arg2StartOffset <= l.arg2EndOffset <= |p|
  {
    hide LazyParse, ParseInbound, Encode, FieldsOf, TtlOf, SpanOf, ServiceOf, Arg2Of;
    LazyAgrees(p, l);
  }

  lemma ClampFits(p: Bytes, maxTimeout: nat, conts: seq<Bytes>)
    requires SPAN_INDEX <= |p| <= MAX_FRAME_PAYLOAD_SIZE
    ensures AllFit(conts) ==> AllFit([ClampTTL(p, maxTimeout)] + conts)
  {
    hide TtlOf, SetTTL;
    if AllFit(conts) {
      FitTogether([ClampTTL(p, maxTimeout)], conts);
    }
  }

  method RelayAppended(h: Digest, k: Kind, p: Bytes, l: Lazy, appends: seq<Pair>, conts: seq<Bytes>, maxTimeout: nat,
                       ghost req: CallReq, ghost args: seq<Chunk>)
      returns (err: SendError, out: seq<Bytes>)
    requires SumsSized(h) && |p| <= MAX_FRAME_PAYLOAD_SIZE && LazyParse(p) == LazyCallReq.Ok(l)
    requires Millis(maxTimeout) < Limit(4)
    requires IsCall(h, k, [p] + conts, req, args) && |args| == 3
    ensures l.arg2StartOffset <= l.arg2EndOffset <= |p| && err == AppendError(p, l)
    ensures err == NoError ==>
      && |args[1]| >= 2
      && IsCall(h, k, out, req.(ttl := RelayTTL(req.ttl, maxTimeout)),
        [args[0], WithAppends(args[1], appends), args[2]])
    ensures AllFit(conts) ==> AllFit(out)
  {
    hide LazyParse, ParseInbound, Chain, Glue, SumsSized, Limit, WithAppends, RelaySender, Recheck, CopiedHeader,
      IsMessage, MessagePayloads, Payloads, AllFit, Encode, Data, Arg2Of, Arg3Of, Join, FirstPayload, Millis,
      RelayTTL, WithinCapacity, Decodes, Decoded, WholeCall;
    CallComesIn(h, k, p, conts, req, args);
    TypesAgree(p, l);
    ghost var fs := SplitAll(Decoded([p] + conts));
    var fragments;
    err, fragments := FragmentingSend(h, k, p, l, appends);
    out := [];
    NoneFit();
    if err == NoError {
      FirstFragmentIs(h, k, p, l, fs, args);
      ghost var gs := SplitAll(fragments);
      FlagsAgree(h, k, p, l, fs, args);
      WholeCallParts(h, k, p, fs, args);
      Rewritten(h, k, fs, args, fragments, l.methodName, Arg2Of(p, l), Arg3Of(p, l),
        WithAppends(Arg2Of(p, l), appends));
      var sent := Join([l.methodName, WithAppends(Arg2Of(p, l), appends), Arg3Of(p, l)]);
      HeaderEnds(p, l);
      var rest := ForwardRest(h, k, sent, conts, fs[1..]);
      out := MessagePayloads(CopiedHeader(p, l, maxTimeout), fragments) + rest;
      PayloadsConcat(k, CopiedHeader(p, l, maxTimeout), gs, Recheck(h, k, sent, fs[1..]));
      RewrittenFit(h, k, p, l, maxTimeout, gs);
      RestFits(h, k, sent, fs[1..]);
      if AllFit(conts) {
        FitTogether(MessagePayloads(CopiedHeader(p, l, maxTimeout), fragments), rest);
      }
      CallIs(h, k, p, l, maxTimeout, gs + Recheck(h, k, sent, fs[1..]));
    }
  }

  lemma TypesAgree(p: Bytes, l: Lazy)
    requires |p| < 0x1_0000 && LazyParse(p) == LazyCallReq.Ok(l)
    ensures ParseInbound(p).Ok? && ParseInbound(p).value.csumType == l.csumType
  {
    hide LazyParse, ParseInbound, Encode, FieldsOf, TtlOf, SpanOf, ServiceOf, Arg2Of;
    LazyAgrees(p, l);
  }

  // The rewritten fragments followed by the re-checksummed rest.
  lemma Rewritten(h: Digest, k: Kind, fs: seq<Split>, args: seq<Chunk>, fragments: seq<Fragment>,
                  m: Chunk, a: Chunk, c: Chunk, arg2: Chunk)
    requires SumsSized(h) && fs != [] && Chain(h, k, [], fs, false)
      && (forall i :: 0 <= i < |fs| ==> fs[i].chunks != [])
    requires Glue(ChunkLists(fs)) == args && |args| == 3 && fs[0].chunks == [m, a, c]
    requires IsMessage(h, k, fragments, [m, arg2, c], HasMore(fs[0].flags))
    ensures var gs := SplitAll(fragments);
      var all := gs + Recheck(h, k, Join([m, arg2, c]), fs[1..]);
      && gs != [] && fragments == SealAll(k, gs) && Chain(h, k, [], gs, HasMore(fs[0].flags))
      && Chain(h, k, [], all, false) && (forall i :: 0 <= i < |all| ==> all[i].chunks != [])
      && Glue(ChunkLists(all)) == [args[0], arg2, args[2]]
      && args[1] == a && OneChunkEach(k, fs[1..])
  {
    hide Chain, Glue, SumsSized, Recheck, Join, SplitAll, OneChunkEach, Data;
    var gs := SplitAll(fragments);
    DataIsArgs(gs);
    MessageIs(h, k, fs, args, gs, arg2);
  }

  predicate AllFit(payloads: seq<Bytes>) {
    forall i :: 0 <= i < |payloads| ==> |payloads[i]| <= MAX_FRAME_PAYLOAD_SIZE
  }

  lemma NoneFit()
    ensures AllFit([])
  {
  }

  lemma FitTogether(head: seq<Bytes>, rest: seq<Bytes>)
    requires AllFit(head) && AllFit(rest)
    ensures AllFit(head + rest)
  {
  }

  // Rewritten frames fill a frame at most.
  lemma RewrittenFit(h: Digest, k: Kind, p: Bytes, l: Lazy, maxTimeout: nat, gs: seq<Split>)
    requires SumsSized(h) && p != [] && gs != [] && Chain(h, k, [], gs, HasMore(p[0]))
    requires SPAN_INDEX <= l.checksumTypeOffset <= |p| && Millis(maxTimeout) < Limit(4)
    requires l.checksumTypeOffset + 1 + SumSize(k) <= MAX_FRAME_PAYLOAD_SIZE
    requires WithinCapacity(RelaySender(p, l, k), SealAll(k, gs))
    ensures AllFit(MessagePayloads(CopiedHeader(p, l, maxTimeout), SealAll(k, gs)))
  {
    hide SumsSized, Chain, Encode, CopiedHeader, Limit, Millis;
    ChainSums(h, k, [], gs, HasMore(p[0]));
    hide FirstPayload;
    CopiedBytes(p, l, maxTimeout, Seal(k, gs[0]));
  }

  // Forwarded frames keep their size.
  lemma RestFits(h: Digest, k: Kind, seen: Bytes, fs: seq<Split>)
    requires SumsSized(h) && OneChunkEach(k, fs)
    ensures AllFit(Payloads(SealAll(k, fs))) ==> AllFit(Payloads(SealAll(k, Recheck(h, k, seen, fs))))
    decreases |fs|
  {
    hide Encode, Payloads, SealAll, Recheck;
    if fs == [] || !AllFit(Payloads(SealAll(k, fs))) {
    } else {
      var c := fs[0].chunks[0];
      assert fs[0].chunks == [c];
      ForwardStep(h, k, seen, fs, c);
      var ps, qs := Payloads(SealAll(k, fs)), Payloads(SealAll(k, fs[1..]));
      assert forall i :: 0 <= i < |qs| ==> qs[i] == ps[i + 1];
      RestFits(h, k, seen + c, fs[1..]);
      var head := [NextPayload(Seal(k, fs[0].(csum := h(k, seen + c))))];
      assert |head[0]| == |ps[0]|;
      FitTogether(head, Payloads(SealAll(k, Recheck(h, k, seen + c, fs[1..]))));
    }
  }

  // What the parsers let through is as the reader expects fragments from the wire.
  lemma DecodedFromWire(out: seq<Bytes>)
    requires Decodes(out) && AllFit(out)
    ensures RS.AllFromWire(Decoded(out))
  {
    hide ParseInbound, ParseContinue, WireSumSize;
    FirstFromWire(out[0]);
    forall i | 1 <= i < |out|
      ensures RS.FromWire(Decoded(out)[i])
    {
      NextFromWire(out[i]);
    }
  }

  lemma FirstFromWire(p: Bytes)
    requires ParseInbound(p).Ok? && |p| < 0x1_0000
    ensures RS.FromWire(FragmentOf(ParseInbound(p).value))
  {
    hide ReadCallReq, WireSumSize;
    CsumSize(p);
    CsumKnown(p);
    var r1 := RBuf(p, false).ReadByte().1;
    ReqShrinks(r1);
  }

  lemma ReqShrinks(r: RBuf)
    ensures |ReadCallReq(r).1.remaining| <= |r.remaining|
  {
    hide RBuf.ReadUint, RBuf.ReadLenBytes, ReadSpan, ReadPairs;
    var (_, r1) := r.ReadUint(4);
    var (_, r2) := ReadSpan(r1);
    var (_, r3) := r2.ReadLenBytes(1);
    ShrinkParts(r, r1, r2);
    PairsShrink(r3.ReadUint(1).1, 1, r3.ReadUint(1).0);
  }

  lemma ShrinkParts(r: RBuf, r1: RBuf, r2: RBuf)
    ensures |r.ReadUint(4).1.remaining| <= |r.remaining|
    ensures |ReadSpan(r1).1.remaining| <= |r1.remaining|
    ensures |r2.ReadLenBytes(1).1.remaining| <= |r2.remaining|
    ensures |r2.ReadLenBytes(1).1.ReadUint(1).1.remaining| <= |r2.ReadLenBytes(1).1.remaining|
  {
    hide GetUint;
  }

  lemma {:induction false} PairsShrink(r: RBuf, width: nat, n: nat)
    ensures |ReadPairs(r, width, n).1.remaining| <= |r.remaining|
    decreases n
  {
    hide GetUint;
    if n == 0 {
    } else {
      PairsShrink(r.ReadLenBytes(width).1.ReadLenBytes(width).1, width, n - 1);
    }
  }

  lemma NextFromWire(p: Bytes)
    requires ParseContinue(p).Ok? && |p| < 0x1_0000
    ensures RS.FromWire(ParseContinue(p).value)
  {
    hide WireSumSize;
  }

  // The payloads start with a call with this request and these arguments.
  ghost predicate StartsCall(h: Digest, out: seq<Bytes>, req: CallReq, args: seq<Bytes>) {
    exists k: Kind, n: nat :: n <= |out| && IsCall(h, k, out[..n], req, args)
  }

  lemma CallStarts(h: Digest, out: seq<Bytes>, args: seq<Bytes>)
    requires Decodes(out)
    ensures StartsCall(h, out, ParseInbound(out[0]).value.req, args) <==> RS.StartsWith(h, Decoded(out), args)
  {
    hide ParseInbound, ParseContinue, IsMessage;
    forall k: Kind, n: nat | n <= |out|
      ensures IsCall(h, k, out[..n], ParseInbound(out[0]).value.req, args) <==>
        IsMessage(h, k, Decoded(out)[..n], args, false)
    {
      if n == 0 {
        NoMessage(h, k, args);
      } else {
        assert out[..n][0] == out[0];
        forall i | 1 <= i < n
          ensures out[..n][i] == out[i]
        {
        }
        assert Decodes(out[..n]);
        assert Decoded(out[..n]) == Decoded(out)[..n];
      }
    }
  }

  lemma NoMessage(h: Digest, k: Kind, args: seq<Bytes>)
    ensures !IsMessage(h, k, [], args, false)
  {
  }

  /** The receiver's side: it reads the request, and the arguments of a well-formed call; and
      payloads it reads to completion started with a well-formed call of what it read. */
  method ReceiveCall(h: Digest, out: seq<Bytes>) returns (got: CallReq, received: seq<Bytes>, complete: bool)
    requires Decodes(out)
    ensures got == ParseInbound(out[0]).value.req
    ensures forall args :: |args| == 3 && StartsCall(h, out, got, args) ==> complete && received == args
    ensures complete && SumsSized(h) && AllFit(out) ==> |received| == 3 && StartsCall(h, out, got, received)
  {
    hide ParseInbound, ParseContinue, IsMessage, Decoded, StartsCall, RS.StartsWith, SumsSized, AllFit;
    got := ParseInbound(out[0]).value.req;
    received, complete := Receive(h, Decoded(out), 3);
    forall args | |args| == 3 && StartsCall(h, out, got, args)
      ensures complete && received == args
    {
      CallStarts(h, out, args);
    }
    if complete && SumsSized(h) && AllFit(out) {
      DecodedFromWire(out);
      CallStarts(h, out, received);
    }
  }

  lemma WholeCallStarts(h: Digest, k: Kind, out: seq<Bytes>, req: CallReq, args: seq<Bytes>)
    requires IsCall(h, k, out, req, args)
    ensures Decodes(out) && ParseInbound(out[0]).value.req == req && StartsCall(h, out, req, args)
  {
    hide ParseInbound, ParseContinue, IsMessage, Decoded;
    assert out[..|out|] == out;
  }

  lemma WholeCallParts(h: Digest, k: Kind, p: Bytes, fs: seq<Split>, args: seq<Chunk>)
    requires WholeCall(h, k, p, fs, args)
    ensures fs != [] && Chain(h, k, [], fs, false) && (forall i :: 0 <= i < |fs| ==> fs[i].chunks != [])
    ensures Glue(ChunkLists(fs)) == args
  {
  }

  lemma FlagsAgree(h: Digest, k: Kind, p: Bytes, l: Lazy, fs: seq<Split>, args: seq<Chunk>)
    requires |p| < 0x1_0000 && LazyParse(p) == LazyCallReq.Ok(l) && WholeCall(h, k, p, fs, args)
    ensures p != [] && p[0] == fs[0].flags
  {
    hide LazyParse, ParseInbound, Encode, FieldsOf, TtlOf, SpanOf, ServiceOf, Chain, Glue, Arg2Of;
    LazyAgrees(p, l);
  }

  lemma PayloadsConcat(k: Kind, header: Bytes, gs: seq<Split>, rest: seq<Split>)
    requires gs != []
    ensures MessagePayloads(header, SealAll(k, gs)) + Payloads(SealAll(k, rest)) ==
      MessagePayloads(header, SealAll(k, gs + rest))
  {
    hide FirstPayload, NextPayload, Seal;
    assert SealAll(k, gs + rest) == SealAll(k, gs) + SealAll(k, rest);
    assert (SealAll(k, gs) + SealAll(k, rest))[1..] == SealAll(k, gs)[1..] + SealAll(k, rest);
    assert Payloads(SealAll(k, gs)[1..] + SealAll(k, rest)) ==
      Payloads(SealAll(k, gs)[1..]) + Payloads(SealAll(k, rest));
  }
}
