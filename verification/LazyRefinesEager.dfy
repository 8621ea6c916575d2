/** Whenever the relay's lazy parse of a call request succeeds, it agrees with the parse
    the endpoint would do on the same bytes. */
module LazyRefinesEager {
  import opened Buffers
  import opened Messages
  import opened Chunks
  import opened LazyCallReq

  // ---------- headers ----------

  lemma ReadLenOne(r: RBuf)
    ensures r.ReadUint(1) == r.ReadByte()
    ensures r.ReadLenBytes(1) == r.ReadByte().1.ReadBytes(r.ReadByte().0)
  {
    var b := r.ReadBytes(1).0;
    if b != [] {
      assert b == [b[0]];
      assert GetUint([b[0]]) == b[0];
    }
  }

  function FoldFields(f: Fields, ps: seq<Pair>): (f': Fields)
    decreases |ps|
  {
    if ps == [] then f else FoldFields(SetField(f, ps[0].0, ps[0].1), ps[1..])
  }

  lemma {:induction false} HeadersArePairs(r: RBuf, n: nat, f: Fields)
    ensures LazyHeaders(r, n, f) == (FoldFields(f, ReadPairs(r, 1, n).0), ReadPairs(r, 1, n).1)
    decreases n
  {
    hide SetField, RBuf.ReadByte, RBuf.ReadBytes, RBuf.ReadLenBytes;
    if n == 0 {
    } else {
      ReadLenOne(r);
      var (k, r1) := r.ReadLenBytes(1);
      ReadLenOne(r1);
      var (v, r2) := r1.ReadLenBytes(1);
      HeadersArePairs(r2, n - 1, SetField(f, k, v));
      var rest := ReadPairs(r2, 1, n - 1).0;
      assert ([(k, v)] + rest)[1..] == rest;
    }
  }

  function Get(m: map<Bytes, Bytes>, k: Bytes): (v: Bytes) {
    if k in m then m[k] else []
  }

  function FieldsOf(m: map<Bytes, Bytes>): (f: Fields) {
    Fields(Get(m, CALLER_NAME), Get(m, ROUTING_DELEGATE), Get(m, ROUTING_KEY), Get(m, ARG_SCHEME))
  }

  lemma KeysDiffer()
    ensures ARG_SCHEME != CALLER_NAME && ARG_SCHEME != ROUTING_DELEGATE && ARG_SCHEME != ROUTING_KEY
    ensures CALLER_NAME != ROUTING_DELEGATE && CALLER_NAME != ROUTING_KEY && ROUTING_DELEGATE != ROUTING_KEY
  {
    assert ARG_SCHEME[0] == 0x61 && CALLER_NAME[0] == 0x63 && ROUTING_DELEGATE[0] == 0x72 && ROUTING_KEY[0] == 0x72;
    assert ROUTING_DELEGATE[1] == 0x64 && ROUTING_KEY[1] == 0x6b;
  }

  /** Picking the routing fields out one header at a time gives what a lookup in the
      whole map gives, also when a header is repeated. */
  lemma {:induction false} FieldsAreLookups(m: map<Bytes, Bytes>, ps: seq<Pair>)
    ensures FoldFields(FieldsOf(m), ps) == FieldsOf(PutAll(m, ps))
    decreases |ps|
  {
    if ps == [] {
    } else {
      KeysDiffer();
      assert SetField(FieldsOf(m), ps[0].0, ps[0].1) == FieldsOf(m[ps[0].0 := ps[0].1]);
      FieldsAreLookups(m[ps[0].0 := ps[0].1], ps[1..]);
    }
  }

  // ---------- the fixed part ----------

  lemma ReadAt(p: Bytes, i: nat, n: nat)
    requires i + n <= |p|
    ensures RBuf(p[i..], false).ReadBytes(n) == (p[i..i + n], RBuf(p[i + n..], false))
  {
    assert p[i..][..n] == p[i..i + n] && p[i..][n..] == p[i + n..];
  }

  lemma ReadByteAt(p: Bytes, i: nat)
    requires i < |p|
    ensures RBuf(p[i..], false).ReadByte() == (p[i], RBuf(p[i + 1..], false))
  {
    ReadAt(p, i, 1);
  }

  lemma SliceOfSlice(p: Bytes, i: nat, n: nat, a: nat, b: nat)
    requires i + n <= |p| && a <= b <= n
    ensures p[i..i + n][a..b] == p[i + a..i + b]
  {
    var x, y := p[i..i + n][a..b], p[i + a..i + b];
    assert forall j :: 0 <= j < b - a ==> x[j] == p[i + a + j] == y[j];
  }

  lemma SpanAt(p: Bytes, i: nat)
    requires i + 25 <= |p|
    ensures ReadSpan(RBuf(p[i..], false)) == (ReadSpan(RBuf(p[i..i + 25], false)).0, RBuf(p[i + 25..], false))
  {
    hide RBuf.ReadBytes, RBuf.ReadByte, GetUint;
    var q := p[i..i + 25];
    assert q == q[0..];
    ReadAt(p, i, 8);
    ReadAt(p, i + 8, 8);
    ReadAt(p, i + 16, 8);
    ReadByteAt(p, i + 24);
    ReadAt(q, 0, 8);
    ReadAt(q, 8, 8);
    ReadAt(q, 16, 8);
    ReadByteAt(q, 24);
    SliceOfSlice(p, i, 25, 0, 8);
    SliceOfSlice(p, i, 25, 8, 16);
    SliceOfSlice(p, i, 25, 16, 24);
  }

  // Flags, time to live and span take the first 30 bytes.
  lemma FixedPart(p: Bytes)
    requires |p| >= SERVICE_LEN_INDEX
    ensures var (flags, r1) := RBuf(p, false).ReadByte();
      var (ttl, r2) := r1.ReadUint(4);
      var (tracing, r3) := ReadSpan(r2);
      && flags == p[0] && ttl * MILLISECOND == TtlOf(p) && tracing == SpanOf(p)
      && r3 == RBuf(p[SERVICE_LEN_INDEX..], false)
      && RBuf(p, false).ReadBytes(SERVICE_LEN_INDEX).1 == r3
  {
    hide RBuf.ReadByte, ReadSpan, GetUint;
    assert p == p[0..];
    ReadByteAt(p, 0);
    ReadAt(p, 1, 4);
    SpanAt(p, 5);
    ReadAt(p, 0, SERVICE_LEN_INDEX);
  }

  /** Up to the checksum type both parses read the same bytes and leave the same buffer. */
  lemma SameHeader(p: Bytes)
    requires |p| >= SERVICE_LEN_INDEX
    ensures var r3 := RBuf(p[SERVICE_LEN_INDEX..], false);
      var (service, r4) := r3.ReadLenBytes(1);
      var (headers, r5) := ReadMap(r4, 1);
      var nh := r4.ReadByte();
      && ReadCallReq(RBuf(p, false).ReadByte().1) == (CallReq(TtlOf(p), SpanOf(p), service, headers), r5)
      && LazyHeaders(nh.1, nh.0, Fields([], [], [], [])) == (FieldsOf(headers), r5)
      && LazyParse(p) == LazyTail(p, FieldsOf(headers), r5)
      && (!r4.failed ==> SERVICE_NAME_INDEX + p[SERVICE_LEN_INDEX] <= |p| && service == ServiceOf(p))
  {
    hide RBuf.ReadByte, RBuf.ReadUint, ReadSpan, LazyHeaders, ReadPairs, LazyTail, SetField, FoldFields, PutAll,
      TtlOf, SpanOf;
    FixedPart(p);
    var r3 := RBuf(p[SERVICE_LEN_INDEX..], false);
    ReadLenOne(r3);
    var (service, r4) := r3.ReadLenBytes(1);
    ReadLenOne(r4);
    var (nh, r') := r4.ReadByte();
    HeadersArePairs(r', nh, Fields([], [], [], []));
    FieldsAreLookups(map[], ReadPairs(r', 1, nh).0);
    if !r4.failed {
      ServiceRead(p);
    }
  }

  lemma ServiceRead(p: Bytes)
    requires |p| >= SERVICE_LEN_INDEX && !RBuf(p[SERVICE_LEN_INDEX..], false).ReadLenBytes(1).1.failed
    ensures |p| > SERVICE_LEN_INDEX && SERVICE_NAME_INDEX + p[SERVICE_LEN_INDEX] <= |p|
    ensures RBuf(p[SERVICE_LEN_INDEX..], false).ReadLenBytes(1) ==
      (ServiceOf(p), RBuf(p[SERVICE_NAME_INDEX + p[SERVICE_LEN_INDEX]..], false))
  {
    var r3 := RBuf(p[SERVICE_LEN_INDEX..], false);
    ReadLenOne(r3);
    ReadByteAt(p, SERVICE_LEN_INDEX);
    ReadAt(p, SERVICE_NAME_INDEX, p[SERVICE_LEN_INDEX]);
  }

  // ---------- from the checksum type on ----------

  // The rest of the payload starts at offset i.
  predicate Suffix(p: Bytes, r: RBuf, i: nat) {
    i <= |p| && r == RBuf(p[i..], false)
  }

  lemma SuffixRead(p: Bytes, r: RBuf, i: nat, n: nat)
    requires Suffix(p, r, i) && !r.ReadBytes(n).1.failed
    ensures i + n <= |p| && r.ReadBytes(n).0 == p[i..i + n] && Suffix(p, r.ReadBytes(n).1, i + n)
  {
    ReadAt(p, i, n);
  }

  lemma OffsetIs(p: Bytes, r: RBuf, i: nat)
    requires |p| < 0x1_0000 && Suffix(p, r, i)
    ensures Offset(p, r) == i
  {
  }

  // A two-byte length and that many bytes.
  lemma SuffixChunk(p: Bytes, r: RBuf, i: nat)
    requires Suffix(p, r, i)
    ensures var (n, r1) := r.ReadUint(2);
      var (c, r2) := r1.ReadBytes(n);
      !r2.failed ==>
        && i + 2 + n <= |p| && c == p[i + 2..i + 2 + n] && n < 0x1_0000
        && Suffix(p, r1, i + 2) && Suffix(p, r2, i + 2 + n)
        && p[i..] == (U16(|c|) + c) + p[i + 2 + n..]
  {
    var (n, r1) := r.ReadUint(2);
    var (c, r2) := r1.ReadBytes(n);
    if !r2.failed {
      SuffixRead(p, r, i, 2);
      SuffixRead(p, r1, i + 2, n);
      BytesRoundTrip(p[i..i + 2]);
      GetUintBounds(p[i..i + 2]);
      LimitIsWidth();
      assert p[i..] == p[i..i + 2] + p[i + 2..i + 2 + n] + p[i + 2 + n..];
    }
  }

  lemma ArgsAre(p: Bytes, f: Fields, t: Byte, offset: nat, r: RBuf, c: nat, l: Lazy)
    requires |p| < 0x1_0000 && Suffix(p, r, c) && LazyArgs(p, f, t, offset, r) == Ok(l)
    ensures l.fields == f && l.csumType == t && l.checksumTypeOffset == offset
    ensures c <= l.arg2StartOffset <= l.arg2EndOffset <= |p|
    ensures p[c..] == Encode([l.methodName, Arg2Of(p, l)]) + p[l.arg2EndOffset..]
    ensures l.isArg2Fragmented == (l.arg2EndOffset == |p| && MoreFragments(p))
    ensures !l.isArg2Fragmented ==> l.arg3StartOffset == l.arg2EndOffset + 2 <= |p|
  {
    hide Offset, MoreFragments, RBuf.ReadBytes, Encode, U16, GetUint;
    var (n1, r1) := r.ReadUint(2);
    var (m, r2) := r1.ReadBytes(n1);
    var (n2, r3) := r2.ReadUint(2);
    var (a, r4) := r3.ReadBytes(n2);
    SuffixChunk(p, r, c);
    var d := c + 2 + n1;
    SuffixChunk(p, r2, d);
    OffsetIs(p, r3, d + 2);
    var e := d + 2 + n2;
    TwoChunks(p[c..], m, a, p[d..], p[e..]);
    if !l.isArg2Fragmented {
      SuffixRead(p, r4, e, 2);
      OffsetIs(p, r4.ReadBytes(2).1, e + 2);
    }
  }

  /** What a successful lazy parse says about the bytes from the checksum type on: its
      uint16 offsets are true offsets, and the contents start with the method and arg2. */
  lemma TailIs(p: Bytes, f: Fields, r: RBuf, i: nat, l: Lazy)
    requires |p| < 0x1_0000 && Suffix(p, r, i) && LazyTail(p, f, r) == Ok(l)
    ensures l.fields == f && l.checksumTypeOffset == i < |p| && l.csumType == p[i] < CHECKSUM_COUNT
    ensures var c := i + 1 + WireSumSize(l.csumType);
      && c <= l.arg2StartOffset <= l.arg2EndOffset <= |p|
      && p[c..] == Encode([l.methodName, Arg2Of(p, l)]) + p[l.arg2EndOffset..]
    ensures l.isArg2Fragmented == (l.arg2EndOffset == |p| && MoreFragments(p))
    ensures !l.isArg2Fragmented ==> l.arg3StartOffset == l.arg2EndOffset + 2 <= |p|
  {
    hide Offset, MoreFragments, WireSumSize, RBuf.ReadBytes, Encode, LazyArgs, Arg2Of;
    var (t, r1) := r.ReadByte();
    var (_, r2) := r1.ReadBytes(WireSumSize(t));
    ArgsSticky(p, f, t, Offset(p, r), r2);
    SuffixRead(p, r, i, 1);
    SuffixRead(p, r1, i + 1, WireSumSize(t));
    OffsetIs(p, r, i);
    ArgsAre(p, f, t, i, r2, i + 1 + WireSumSize(t), l);
  }

  lemma ArgsSticky(p: Bytes, f: Fields, t: Byte, offset: nat, r: RBuf)
    requires LazyArgs(p, f, t, offset, r).Ok?
    ensures !r.failed
  {
  }

  lemma TwoChunks(all: Bytes, m: Bytes, a: Bytes, mid: Bytes, tail: Bytes)
    requires all == (U16(|m|) + m) + mid && mid == (U16(|a|) + a) + tail
    ensures all == Encode([m, a]) + tail
  {
    hide U16;
    EncodeOne(m);
    EncodeOne(a);
    assert [m, a] == [m] + [a];
    EncodeAppend([m], [a]);
  }

  // ---------- the refinement ----------

  /** Whenever the lazy parse of a call request succeeds, the endpoint's parse succeeds
      on the same bytes; service, time to live, span, caller, routing fields and argument
      scheme agree; so do the checksum type and where it is; the first two chunks of the
      contents are the lazy method and arg2; and no uint16 offset has wrapped. */
  lemma LazyAgrees(p: Bytes, l: Lazy)
    requires |p| < 0x1_0000 && LazyParse(p) == Ok(l)
    ensures ParseInbound(p).Ok? && |p| >= SERVICE_NAME_INDEX
    ensures var e := ParseInbound(p).value;
      && e.flags == p[0] && e.req.ttl == TtlOf(p) && e.req.tracing == SpanOf(p)
      && SERVICE_NAME_INDEX + p[SERVICE_LEN_INDEX] <= |p| && e.req.service == ServiceOf(p)
      && l.fields == FieldsOf(e.req.headers)
      && e.csumType == l.csumType
    ensures var e := ParseInbound(p).value;
      && l.arg2StartOffset <= l.arg2EndOffset <= |p|
      && e.contents == Encode([l.methodName, Arg2Of(p, l)]) + p[l.arg2EndOffset..]
      && l.isArg2Fragmented == (l.arg2EndOffset == |p| && MoreFragments(p))
      && (!l.isArg2Fragmented ==> l.arg3StartOffset == l.arg2EndOffset + 2 <= |p|)
    ensures var e := ParseInbound(p).value;
      l.checksumTypeOffset < |p| && p == p[..l.checksumTypeOffset] + ([e.csumType] + (e.csum + e.contents))
  {
    hide ReadCallReq, LazyTail, LazyHeaders, ReadMap, TtlOf, SpanOf, ServiceOf, FieldsOf, MoreFragments, Encode,
      WireSumSize, LazyParse, ParseInbound, Arg2Of, RBuf.ReadLenBytes, RBuf.ReadByte;
    ShortFails(p);
    SameHeader(p);
    var (service, r4) := RBuf(p[SERVICE_LEN_INDEX..], false).ReadLenBytes(1);
    var (headers, r5) := ReadMap(r4, 1);
    TailSticky(p, FieldsOf(headers), r5);
    MapSticky(r4);
    ServiceRead(p);
    var i := SuffixOfMap(p, r4, SERVICE_NAME_INDEX + p[SERVICE_LEN_INDEX]);
    TailIs(p, FieldsOf(headers), r5, i, l);
    EagerTail(p, r5, i);
  }

  lemma TailSticky(p: Bytes, f: Fields, r: RBuf)
    requires LazyTail(p, f, r).Ok?
    ensures !r.failed
  {
  }

  lemma MapSticky(r: RBuf)
    requires !ReadMap(r, 1).1.failed
    ensures !r.failed && exists b: Bytes :: r.remaining == b + ReadMap(r, 1).1.remaining
  {
    var (n, r1) := r.ReadUint(1);
    PairsReadAreEncoded(r1, 1, n);
    var (ps, r2) := ReadPairs(r1, 1, n);
    var b := r.remaining[..1] + EncodePairs(1, ps);
    assert r.remaining == b + r2.remaining;
  }

  lemma SuffixOfMap(p: Bytes, r: RBuf, i: nat) returns (j: nat)
    requires Suffix(p, r, i) && !ReadMap(r, 1).1.failed
    ensures Suffix(p, ReadMap(r, 1).1, j)
  {
    hide ReadMap;
    MapSticky(r);
    var rest := ReadMap(r, 1).1.remaining;
    j := |p| - |rest|;
    assert p[j..] == rest;
  }

  // Both parses go on from the checksum type at offset i.
  lemma EagerTail(p: Bytes, r: RBuf, i: nat)
    requires Suffix(p, r, i) && i < |p| && p[i] < CHECKSUM_COUNT
    requires i + 1 + WireSumSize(p[i]) <= |p|
    requires ReadCallReq(RBuf(p, false).ReadByte().1).1 == r
    ensures var (flags, r1) := RBuf(p, false).ReadByte();
      var c := i + 1 + WireSumSize(p[i]);
      && ParseInbound(p) == Ok(Inbound(flags, ReadCallReq(r1).0, p[i], p[i + 1..c], p[c..]))
      && flags == p[0]
      && p == p[..i] + ([p[i]] + (p[i + 1..c] + p[c..]))
  {
    hide ReadCallReq, WireSumSize;
    var c := i + 1 + WireSumSize(p[i]);
    ReadByteAt(p, i);
    ReadAt(p, i + 1, WireSumSize(p[i]));
    assert p == p[0..];
    ReadByteAt(p, 0);
    assert p == p[..i] + ([p[i]] + (p[i + 1..c] + p[c..]));
  }

  lemma ShortFails(p: Bytes)
    requires LazyParse(p).Ok?
    ensures |p| >= SERVICE_LEN_INDEX
  {
  }

  /** Splitting the endpoint's contents into chunks starts with the lazy method and arg2. */
  lemma FirstChunksAgree(m: Bytes, a: Bytes, tail: Bytes)
    requires |m| < 0x1_0000 && |a| < 0x1_0000 && |Encode([m, a]) + tail| < 0x1_0000
    ensures |Parse(RBuf(Encode([m, a]) + tail, false)).0| >= 2
    ensures Parse(RBuf(Encode([m, a]) + tail, false)).0[..2] == [m, a]
  {
    hide U16, Encode, Parse;
    EncodeOne(m);
    EncodeOne(a);
    assert [m, a] == [m] + [a];
    EncodeAppend([m], [a]);
    var mid := (U16(|a|) + a) + tail;
    assert Encode([m, a]) + tail == (U16(|m|) + m) + mid;
    ParseOne(m, mid);
    ParseOne(a, tail);
  }

  lemma ParseOne(c: Bytes, rest: Bytes)
    requires |(U16(|c|) + c) + rest| < 0x1_0000
    ensures Parse(RBuf((U16(|c|) + c) + rest, false)).0 == [c] + Parse(RBuf(rest, false)).0
  {
    hide U16, PutUint;
    var b := (U16(|c|) + c) + rest;
    U16RoundTrip(|c|);
    assert b[..2] == U16(|c|) && b[2..] == c + rest;
    assert (c + rest)[..|c|] == c && (c + rest)[|c|..] == rest;
    ParseCons(RBuf(b, false), c, RBuf(c + rest, false), RBuf(rest, false));
  }

  lemma EncodeTwo(m: Bytes, a: Bytes, tail: Bytes)
    requires |Encode([m, a]) + tail| < 0x1_0000
    ensures |m| < 0x1_0000 && |a| < 0x1_0000
  {
    EncodeSizes([m, a]);
    assert [m, a][0] == m && [m, a][1] == a;
  }

  lemma RequestIs(p: Bytes)
    requires ParseInbound(p).Ok?
    ensures ParseInbound(p).value.req == ReadCallReq(RBuf(p, false).ReadByte().1).0
  {
    hide ReadCallReq;
  }
}
