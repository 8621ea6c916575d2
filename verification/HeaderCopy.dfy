/** A relay copies the bytes before the checksum type into the frame it writes; what they
    mean does not depend on what follows them (relay.go:881-926). */
module HeaderCopy {
  import opened Buffers
  import opened Messages
  import opened Chunks
  import opened LazyCallReq
  import opened LazyRefinesEager

  // Headers are read from their own bytes alone.
  lemma MapLocal(r: RBuf, b: Bytes, c: Bytes)
    requires !ReadMap(r, 1).1.failed && r.remaining == b + ReadMap(r, 1).1.remaining
    ensures ReadMap(RBuf(b + c, false), 1) == (ReadMap(r, 1).0, RBuf(c, false))
  {
    hide RBuf.ReadUint, ReadPairs, EncodePairs, PutUint, PutAll;
    var (n, r1) := r.ReadUint(1);
    PairsReadAreEncoded(r1, 1, n);
    var (ps, r2) := ReadPairs(r1, 1, n);
    CountByte(r);
    var e := EncodePairs(1, ps);
    assert b == PutUint(n, 1) + e by {
      assert r.remaining == PutUint(n, 1) + e + r2.remaining;
      assert b == r.remaining[..|r.remaining| - |r2.remaining|];
    }
    assert b + c == PutUint(n, 1) + (e + c);
    ReadUintBack(n, 1, e + c);
    ReadPairsBack(1, ps, c);
  }

  lemma CountByte(r: RBuf)
    requires !r.ReadUint(1).1.failed
    ensures r.remaining == PutUint(r.ReadUint(1).0, 1) + r.ReadUint(1).1.remaining && r.ReadUint(1).0 < Limit(1)
  {
    BytesRoundTrip(r.remaining[..1]);
    GetUintBounds(r.remaining[..1]);
  }

  // Where the service ends and the headers start.
  function HeadersAt(p: Bytes): (j: nat)
    requires |p| > SERVICE_LEN_INDEX
  {
    SERVICE_NAME_INDEX + p[SERVICE_LEN_INDEX]
  }

  lemma HeaderEnds(p: Bytes, l: Lazy)
    requires |p| < 0x1_0000 && LazyParse(p) == Ok(l)
    ensures |p| > SERVICE_LEN_INDEX && HeadersAt(p) <= l.checksumTypeOffset < |p|
    ensures ReadMap(RBuf(p[HeadersAt(p)..], false), 1).1 == RBuf(p[l.checksumTypeOffset..], false)
    ensures RBuf(p[SERVICE_LEN_INDEX..], false).ReadLenBytes(1) == (ServiceOf(p), RBuf(p[HeadersAt(p)..], false))
  {
    hide ReadCallReq, LazyTail, LazyHeaders, ReadMap, TtlOf, SpanOf, ServiceOf, FieldsOf, MoreFragments, Encode,
      WireSumSize, LazyParse, Arg2Of, RBuf.ReadLenBytes, RBuf.ReadByte;
    ShortFails(p);
    SameHeader(p);
    var (service, r4) := RBuf(p[SERVICE_LEN_INDEX..], false).ReadLenBytes(1);
    var (headers, r5) := ReadMap(r4, 1);
    TailSticky(p, FieldsOf(headers), r5);
    MapSticky(r4);
    ServiceRead(p);
    var i := SuffixOfMap(p, r4, HeadersAt(p));
    TailIs(p, FieldsOf(headers), r5, i, l);
  }

  // The request a payload holds, part by part.
  lemma RequestFrom(p: Bytes, off: nat, headers: map<Bytes, Bytes>)
    requires |p| > SERVICE_LEN_INDEX && HeadersAt(p) <= off <= |p|
    requires RBuf(p[SERVICE_LEN_INDEX..], false).ReadLenBytes(1) == (ServiceOf(p), RBuf(p[HeadersAt(p)..], false))
    requires ReadMap(RBuf(p[HeadersAt(p)..], false), 1) == (headers, RBuf(p[off..], false))
    ensures ReadCallReq(RBuf(p, false).ReadByte().1) ==
      (CallReq(TtlOf(p), SpanOf(p), ServiceOf(p), headers), RBuf(p[off..], false))
  {
    hide ReadCallReq, LazyParse, LazyTail, LazyHeaders, ReadMap, TtlOf, SpanOf, ServiceOf, FieldsOf,
      RBuf.ReadLenBytes, RBuf.ReadByte;
    SameHeader(p);
  }

  // Headers that start and end at the same places with the same bytes are the same.
  lemma SameHeaders(p: Bytes, q: Bytes, j: nat, off: nat)
    requires j <= off <= |p| && off <= |q| && q[j..off] == p[j..off]
    requires ReadMap(RBuf(p[j..], false), 1).1 == RBuf(p[off..], false)
    ensures ReadMap(RBuf(q[j..], false), 1) == (ReadMap(RBuf(p[j..], false), 1).0, RBuf(q[off..], false))
  {
    hide ReadMap;
    assert p[j..] == p[j..off] + p[off..] && q[j..] == q[j..off] + q[off..];
    MapLocal(RBuf(p[j..], false), p[j..off], q[off..]);
  }

  /** Any payload with the same bytes from the span up to the checksum type decodes to the
      same span, service and headers, and to the time to live of its own. */
  lemma SameRequest(p: Bytes, l: Lazy, p1: Bytes)
    requires |p| < 0x1_0000 && LazyParse(p) == Ok(l)
    requires SPAN_INDEX <= l.checksumTypeOffset <= |p1| && l.checksumTypeOffset <= |p|
    requires p1[SPAN_INDEX..l.checksumTypeOffset] == p[SPAN_INDEX..l.checksumTypeOffset]
    ensures ParseInbound(p).Ok?
    ensures ReadCallReq(RBuf(p1, false).ReadByte().1) ==
      (ParseInbound(p).value.req.(ttl := TtlOf(p1)), RBuf(p1[l.checksumTypeOffset..], false))
  {
    hide ReadCallReq, LazyParse, ReadMap, TtlOf, SpanOf, ServiceOf, FieldsOf, RBuf.ReadLenBytes, RBuf.ReadByte,
      ParseInbound;
    var off := l.checksumTypeOffset;
    HeaderEnds(p, l);
    SameBytes(p, p1, SPAN_INDEX, off);
    SameService(p, p1, off);
    SameHeaders(p, p1, HeadersAt(p), off);
    SameSpan(p, p1, off);
    var headers := ReadMap(RBuf(p[HeadersAt(p)..], false), 1).0;
    RequestFrom(p, off, headers);
    RequestFrom(p1, off, headers);
    ParsesInbound(p, l);
    RequestIs(p);
  }

  lemma ParsesInbound(p: Bytes, l: Lazy)
    requires |p| < 0x1_0000 && LazyParse(p) == Ok(l)
    ensures ParseInbound(p).Ok?
  {
    hide LazyParse, ParseInbound;
    LazyAgrees(p, l);
  }

  lemma SameBytes(p: Bytes, q: Bytes, a: nat, b: nat)
    requires a <= b <= |p| && b <= |q| && p[a..b] == q[a..b]
    ensures forall i :: a <= i < b ==> p[i] == q[i]
  {
    forall i | a <= i < b
      ensures p[i] == q[i]
    {
      assert p[a..b][i - a] == p[i] && q[a..b][i - a] == q[i];
    }
  }

  lemma SameService(p: Bytes, q: Bytes, b: nat)
    requires SERVICE_NAME_INDEX <= b <= |p| && b <= |q| && HeadersAt(p) <= b
    requires forall i :: SPAN_INDEX <= i < b ==> p[i] == q[i]
    ensures HeadersAt(q) == HeadersAt(p) && ServiceOf(q) == ServiceOf(p)
    ensures RBuf(q[SERVICE_LEN_INDEX..], false).ReadLenBytes(1) == (ServiceOf(q), RBuf(q[HeadersAt(q)..], false))
    ensures q[HeadersAt(p)..b] == p[HeadersAt(p)..b]
  {
    ReadLenOne(RBuf(q[SERVICE_LEN_INDEX..], false));
    ReadByteAt(q, SERVICE_LEN_INDEX);
    ReadAt(q, SERVICE_NAME_INDEX, q[SERVICE_LEN_INDEX]);
  }

  lemma SameSpan(p: Bytes, q: Bytes, b: nat)
    requires SERVICE_LEN_INDEX <= b <= |p| && b <= |q|
    requires forall i :: SPAN_INDEX <= i < b ==> p[i] == q[i]
    ensures SpanOf(p) == SpanOf(q)
  {
    assert p[SPAN_INDEX..SERVICE_LEN_INDEX] == q[SPAN_INDEX..SERVICE_LEN_INDEX];
  }

  // ---------- the time to live ----------

  // handleCallReq caps the time to live at the relay's maximum.
  function ClampTTL(p: Bytes, maxTimeout: nat): (r: Bytes)
    requires |p| >= SPAN_INDEX
    ensures |r| == |p|
  {
    if TtlOf(p) > maxTimeout then SetTTL(p, maxTimeout) else p
  }

  lemma ClampedTTL(p: Bytes, maxTimeout: nat)
    requires |p| >= SPAN_INDEX && Millis(maxTimeout) < Limit(4)
    ensures var q := ClampTTL(p, maxTimeout);
      && q[0..1] == p[0..1] && q[SPAN_INDEX..] == p[SPAN_INDEX..]
      && TtlOf(q) == (if TtlOf(p) > maxTimeout then maxTimeout - maxTimeout % MILLISECOND else TtlOf(p))
  {
    hide Millis, Limit, PutUint, GetUint;
    var b, q := PutUint(Millis(maxTimeout), 4), SetTTL(p, maxTimeout);
    UintRoundTrip(Millis(maxTimeout), 4);
    WholeMillis(maxTimeout);
    assert q[TTL_INDEX..SPAN_INDEX] == b;
    assert q[SPAN_INDEX..] == p[SPAN_INDEX..] && q[0..1] == p[0..1];
  }
}
