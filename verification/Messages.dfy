/** The wire form of messages (messages.go, tracing.go). Strings are byte sequences, and
    a header map is written in whatever order its keys are visited. */
module Messages {
  import opened Buffers

  type Pair = (Bytes, Bytes)

  // ---------- lists of key-value pairs ----------

  function EncodeString(width: nat, b: Bytes): (r: Bytes) {
    PutUint(|b|, width) + b
  }

  function EncodePairs(width: nat, ps: seq<Pair>): (r: Bytes) {
    if ps == [] then [] else EncodeString(width, ps[0].0) + (EncodeString(width, ps[0].1) + EncodePairs(width, ps[1..]))
  }

  predicate StringFits(width: nat, b: Bytes) {
    |b| < Limit(width)
  }

  predicate PairsFit(width: nat, ps: seq<Pair>) {
    forall i :: 0 <= i < |ps| ==> StringFits(width, ps[i].0) && StringFits(width, ps[i].1)
  }

  function ReadPairs(r: RBuf, width: nat, n: nat): (res: (seq<Pair>, RBuf))
    ensures |res.0| == n
    decreases n
  {
    if n == 0 then ([], r)
    else
      var (k, r1) := r.ReadLenBytes(width);
      var (v, r2) := r1.ReadLenBytes(width);
      var (ps, r3) := ReadPairs(r2, width, n - 1);
      ([(k, v)] + ps, r3)
  }

  // Later pairs replace earlier ones with the same key.
  function PutAll(m: map<Bytes, Bytes>, ps: seq<Pair>): (r: map<Bytes, Bytes>)
    decreases |ps|
  {
    if ps == [] then m else PutAll(m[ps[0].0 := ps[0].1], ps[1..])
  }

  // A visit of every key of a map, in any order.
  predicate Visits(m: map<Bytes, Bytes>, order: seq<Bytes>) {
    && (forall k :: k in m ==> k in order)
    && (forall i :: 0 <= i < |order| ==> order[i] in m)
    && (forall i, j :: 0 <= i < j < |order| ==> order[i] != order[j])
  }

  function PairsOf(m: map<Bytes, Bytes>, order: seq<Bytes>): (ps: seq<Pair>)
    requires forall i :: 0 <= i < |order| ==> order[i] in m
    ensures |ps| == |order|
    ensures forall i :: 0 <= i < |ps| ==> ps[i] == (order[i], m[order[i]])
  {
    seq(|order|, i requires 0 <= i < |order| => (order[i], m[order[i]]))
  }

  lemma {:induction false} PutPairs(base: map<Bytes, Bytes>, m: map<Bytes, Bytes>, order: seq<Bytes>)
    requires forall i :: 0 <= i < |order| ==> order[i] in m
    ensures PutAll(base, PairsOf(m, order)).Keys == base.Keys + (set k | k in order)
    ensures forall k :: k in order ==> PutAll(base, PairsOf(m, order))[k] == m[k]
    ensures forall k :: k in base && k !in order ==> PutAll(base, PairsOf(m, order))[k] == base[k]
    decreases |order|
  {
    if order == [] {
    } else {
      var k := order[0];
      assert PairsOf(m, order)[1..] == PairsOf(m, order[1..]);
      assert order == [k] + order[1..];
      PutPairs(base[k := m[k]], m, order[1..]);
    }
  }

  /** Whatever the order of the visit, the pairs written rebuild the map. */
  lemma VisitRebuilds(m: map<Bytes, Bytes>, order: seq<Bytes>)
    requires Visits(m, order)
    ensures PutAll(map[], PairsOf(m, order)) == m
  {
    PutPairs(map[], m, order);
  }

  lemma {:induction false} DistinctCount(order: seq<Bytes>)
    requires forall i, j :: 0 <= i < j < |order| ==> order[i] != order[j]
    ensures |set k | k in order| == |order|
    decreases |order|
  {
    if order == [] {
    } else {
      DistinctCount(order[1..]);
      assert (set k | k in order) == {order[0]} + set k | k in order[1..];
    }
  }

  lemma VisitCount(m: map<Bytes, Bytes>, order: seq<Bytes>)
    requires Visits(m, order)
    ensures |order| == |m|
  {
    DistinctCount(order);
    assert m.Keys == set k | k in order;
  }

  // ---------- reading back what was encoded ----------

  lemma ReadUintBack(n: nat, width: nat, rest: Bytes)
    requires n < Limit(width)
    ensures RBuf(PutUint(n, width) + rest, false).ReadUint(width) == (n, RBuf(rest, false))
  {
    ReadUintWraps(n, width, rest);
  }

  lemma ReadUintWraps(n: nat, width: nat, rest: Bytes)
    ensures RBuf(PutUint(n, width) + rest, false).ReadUint(width) == (n % Limit(width), RBuf(rest, false))
  {
    UintRoundTrip(n, width);
    var b := PutUint(n, width) + rest;
    assert b[..width] == PutUint(n, width) && b[width..] == rest;
  }

  lemma ReadBytesBack(b: Bytes, rest: Bytes)
    ensures RBuf(b + rest, false).ReadBytes(|b|) == (b, RBuf(rest, false))
  {
    assert (b + rest)[..|b|] == b && (b + rest)[|b|..] == rest;
  }

  lemma ReadByteBack(b: Byte, rest: Bytes)
    ensures RBuf([b] + rest, false).ReadByte() == (b, RBuf(rest, false))
  {
    ReadBytesBack([b], rest);
  }

  lemma ReadStringBack(width: nat, b: Bytes, rest: Bytes)
    requires StringFits(width, b)
    ensures RBuf(EncodeString(width, b) + rest, false).ReadLenBytes(width) == (b, RBuf(rest, false))
  {
    hide PutUint, RBuf.ReadBytes, RBuf.ReadUint;
    assert EncodeString(width, b) + rest == PutUint(|b|, width) + (b + rest);
    ReadUintBack(|b|, width, b + rest);
    ReadBytesBack(b, rest);
  }

  lemma {:induction false} ReadPairsBack(width: nat, ps: seq<Pair>, rest: Bytes)
    requires PairsFit(width, ps)
    ensures ReadPairs(RBuf(EncodePairs(width, ps) + rest, false), width, |ps|) == (ps, RBuf(rest, false))
  {
    hide EncodeString, RBuf.ReadLenBytes;
    if ps != [] {
      var k, v, tail := EncodeString(width, ps[0].0), EncodeString(width, ps[0].1), EncodePairs(width, ps[1..]) + rest;
      assert EncodePairs(width, ps) + rest == k + (v + tail);
      ReadStringBack(width, ps[0].0, v + tail);
      ReadStringBack(width, ps[0].1, tail);
      ReadPairsBack(width, ps[1..], rest);
      assert ps == [(ps[0].0, ps[0].1)] + ps[1..];
    } else {
      assert EncodePairs(width, ps) + rest == rest;
    }
  }

  /** The other way: pairs read without an error are encoded by what was read. */
  lemma {:induction false} PairsReadAreEncoded(r: RBuf, width: nat, n: nat)
    requires !ReadPairs(r, width, n).1.failed
    ensures !r.failed && PairsFit(width, ReadPairs(r, width, n).0)
    ensures r.remaining == EncodePairs(width, ReadPairs(r, width, n).0) + ReadPairs(r, width, n).1.remaining
    decreases n
  {
    hide EncodeString, RBuf.ReadLenBytes;
    if n > 0 {
      var (k, r1) := r.ReadLenBytes(width);
      var (v, r2) := r1.ReadLenBytes(width);
      var (ps, r3) := ReadPairs(r2, width, n - 1);
      PairsReadAreEncoded(r2, width, n - 1);
      StringReadIsEncoded(r1, width);
      StringReadIsEncoded(r, width);
      var all := [(k, v)] + ps;
      assert all[1..] == ps;
      assert EncodePairs(width, all) + r3.remaining ==
        EncodeString(width, k) + (EncodeString(width, v) + (EncodePairs(width, ps) + r3.remaining));
    } else {
      assert EncodePairs(width, []) + r.remaining == r.remaining;
    }
  }

  lemma StringReadIsEncoded(r: RBuf, width: nat)
    ensures var (b, r') := r.ReadLenBytes(width);
      !r'.failed ==> !r.failed && StringFits(width, b) && r.remaining == EncodeString(width, b) + r'.remaining
  {
    var (b, r') := r.ReadLenBytes(width);
    if !r'.failed {
      var head := r.remaining[..width];
      BytesRoundTrip(head);
      GetUintBounds(head);
      assert r.remaining == head + (b + r'.remaining);
    }
  }

  // ---------- messages ----------

  datatype Span = Span(traceID: nat, parentID: nat, spanID: nat, flags: Byte)

  // Times are in nanoseconds, and milliseconds on the wire.
  const MILLISECOND := 1_000_000

  function Millis(ttl: nat): (n: nat) {
    ttl / MILLISECOND
  }

  lemma WholeMillis(ttl: nat)
    ensures Millis(ttl) * MILLISECOND == ttl - ttl % MILLISECOND
  {
  }

  datatype CallReq = CallReq(ttl: nat, tracing: Span, service: Bytes, headers: map<Bytes, Bytes>)

  // What the wire keeps of a request: the milliseconds are a uint32, cut off without an error.
  function OnWire(m: CallReq): (r: CallReq) {
    m.(ttl := Millis(m.ttl) % Limit(4) * MILLISECOND)
  }

  /** The time to live is kept exactly if it is in whole milliseconds and less than 2^32 of
      them; below that limit it is only cut to whole milliseconds. */
  lemma TtlKept(m: CallReq)
    ensures OnWire(m) == m <==> m.ttl % MILLISECOND == 0 && Millis(m.ttl) < Limit(4)
    ensures Millis(m.ttl) < Limit(4) ==> OnWire(m).ttl == m.ttl - m.ttl % MILLISECOND
  {
    LimitIsWidth();
    WholeMillis(m.ttl);
  }

  datatype CallRes = CallRes(code: Byte, tracing: Span, headers: map<Bytes, Bytes>)

  datatype ErrorMessage = ErrorMessage(code: Byte, tracing: Span, message: Bytes)

  datatype InitMessage = InitMessage(version: nat, params: map<Bytes, Bytes>)

  predicate SpanFits(s: Span) {
    s.traceID < Limit(8) && s.parentID < Limit(8) && s.spanID < Limit(8)
  }

  predicate MapFits(width: nat, m: map<Bytes, Bytes>) {
    |m| < Limit(width) && forall k :: k in m ==> StringFits(width, k) && StringFits(width, m[k])
  }

  predicate CallReqFits(m: CallReq) {
    SpanFits(m.tracing) && StringFits(1, m.service) && MapFits(1, m.headers)
  }

  function EncodeSpan(s: Span): (r: Bytes) {
    PutUint(s.spanID, 8) + (PutUint(s.parentID, 8) + (PutUint(s.traceID, 8) + [s.flags]))
  }

  // A count of `width` bytes and that many pairs.
  function EncodeMap(width: nat, m: map<Bytes, Bytes>, order: seq<Bytes>): (r: Bytes)
    requires Visits(m, order)
  {
    PutUint(|m|, width) + EncodePairs(width, PairsOf(m, order))
  }

  function EncodeCallReq(m: CallReq, order: seq<Bytes>): (r: Bytes)
    requires Visits(m.headers, order)
  {
    PutUint(Millis(m.ttl), 4) + (EncodeSpan(m.tracing) + (EncodeString(1, m.service) + EncodeMap(1, m.headers, order)))
  }

  function EncodeCallRes(m: CallRes, order: seq<Bytes>): (r: Bytes)
    requires Visits(m.headers, order)
  {
    [m.code] + (EncodeSpan(m.tracing) + EncodeMap(1, m.headers, order))
  }

  function EncodeError(m: ErrorMessage): (r: Bytes) {
    [m.code] + (EncodeSpan(m.tracing) + EncodeString(2, m.message))
  }

  function EncodeInit(m: InitMessage, order: seq<Bytes>): (r: Bytes)
    requires Visits(m.params, order)
  {
    PutUint(m.version, 2) + EncodeMap(2, m.params, order)
  }

  function ReadSpan(r: RBuf): (res: (Span, RBuf)) {
    var (spanID, r1) := r.ReadUint(8);
    var (parentID, r2) := r1.ReadUint(8);
    var (traceID, r3) := r2.ReadUint(8);
    var (flags, r4) := r3.ReadByte();
    (Span(traceID, parentID, spanID, flags), r4)
  }

  function ReadMap(r: RBuf, width: nat): (res: (map<Bytes, Bytes>, RBuf)) {
    var (n, r1) := r.ReadUint(width);
    var (ps, r2) := ReadPairs(r1, width, n);
    (PutAll(map[], ps), r2)
  }

  function ReadCallReq(r: RBuf): (res: (CallReq, RBuf)) {
    var (ttl, r1) := r.ReadUint(4);
    var (tracing, r2) := ReadSpan(r1);
    var (service, r3) := r2.ReadLenBytes(1);
    var (headers, r4) := ReadMap(r3, 1);
    (CallReq(ttl * MILLISECOND, tracing, service, headers), r4)
  }

  function ReadCallRes(r: RBuf): (res: (CallRes, RBuf)) {
    var (code, r1) := r.ReadByte();
    var (tracing, r2) := ReadSpan(r1);
    var (headers, r3) := ReadMap(r2, 1);
    (CallRes(code, tracing, headers), r3)
  }

  function ReadError(r: RBuf): (res: (ErrorMessage, RBuf)) {
    var (code, r1) := r.ReadByte();
    var (tracing, r2) := ReadSpan(r1);
    var (message, r3) := r2.ReadLenBytes(2);
    (ErrorMessage(code, tracing, message), r3)
  }

  function ReadInit(r: RBuf): (res: (InitMessage, RBuf)) {
    var (version, r1) := r.ReadUint(2);
    var (params, r2) := ReadMap(r1, 2);
    (InitMessage(version, params), r2)
  }

  // ---------- round trips ----------

  lemma SpanRoundTrip(s: Span, rest: Bytes)
    requires SpanFits(s)
    ensures ReadSpan(RBuf(EncodeSpan(s) + rest, false)) == (s, RBuf(rest, false))
    ensures |EncodeSpan(s)| == 25
  {
    hide RBuf.ReadUint, RBuf.ReadByte, PutUint, Limit;
    var r3 := [s.flags] + rest;
    var r2 := PutUint(s.traceID, 8) + r3;
    var r1 := PutUint(s.parentID, 8) + r2;
    assert EncodeSpan(s) + rest == PutUint(s.spanID, 8) + r1;
    ReadUintBack(s.spanID, 8, r1);
    ReadUintBack(s.parentID, 8, r2);
    ReadUintBack(s.traceID, 8, r3);
    ReadByteBack(s.flags, rest);
  }

  lemma MapRoundTrip(width: nat, m: map<Bytes, Bytes>, order: seq<Bytes>, rest: Bytes)
    requires Visits(m, order) && MapFits(width, m)
    ensures ReadMap(RBuf(EncodeMap(width, m, order) + rest, false), width) == (m, RBuf(rest, false))
  {
    hide RBuf.ReadUint, PutUint, Limit, ReadPairs, EncodePairs, PutAll, Visits;
    VisitFits(width, m, order);
    var ps := PairsOf(m, order);
    assert EncodeMap(width, m, order) + rest == PutUint(|m|, width) + (EncodePairs(width, ps) + rest);
    ReadUintBack(|m|, width, EncodePairs(width, ps) + rest);
    ReadPairsBack(width, ps, rest);
    VisitRebuilds(m, order);
  }

  lemma VisitFits(width: nat, m: map<Bytes, Bytes>, order: seq<Bytes>)
    requires Visits(m, order) && MapFits(width, m)
    ensures |order| == |m| && (forall i :: 0 <= i < |order| ==> order[i] in m) && PairsFit(width, PairsOf(m, order))
  {
    VisitCount(m, order);
  }

  /** A call request reads back as written, for every order in which its headers are
      visited, with its time to live in milliseconds and modulo 2^32 of them. */
  lemma CallReqRoundTrip(m: CallReq, order: seq<Bytes>, rest: Bytes)
    requires Visits(m.headers, order) && CallReqFits(m)
    ensures ReadCallReq(RBuf(EncodeCallReq(m, order) + rest, false)) ==
      (OnWire(m), RBuf(rest, false))
  {
    hide RBuf.ReadUint, RBuf.ReadLenBytes, PutUint, Limit, ReadMap, EncodeMap, ReadSpan, EncodeSpan, EncodeString,
      Visits, MapFits, Millis;
    var r3 := EncodeMap(1, m.headers, order) + rest;
    var r2 := EncodeString(1, m.service) + r3;
    var r1 := EncodeSpan(m.tracing) + r2;
    assert EncodeCallReq(m, order) + rest == PutUint(Millis(m.ttl), 4) + r1;
    ReadUintWraps(Millis(m.ttl), 4, r1);
    SpanRoundTrip(m.tracing, r2);
    ReadStringBack(1, m.service, r3);
    MapRoundTrip(1, m.headers, order, rest);
  }

  lemma CallResRoundTrip(m: CallRes, order: seq<Bytes>, rest: Bytes)
    requires Visits(m.headers, order) && SpanFits(m.tracing) && MapFits(1, m.headers)
    ensures ReadCallRes(RBuf(EncodeCallRes(m, order) + rest, false)) == (m, RBuf(rest, false))
  {
    hide RBuf.ReadByte, Limit, ReadMap, EncodeMap, ReadSpan, EncodeSpan, Visits, MapFits;
    var r2 := EncodeMap(1, m.headers, order) + rest;
    var r1 := EncodeSpan(m.tracing) + r2;
    assert EncodeCallRes(m, order) + rest == [m.code] + r1;
    ReadByteBack(m.code, r1);
    SpanRoundTrip(m.tracing, r2);
    MapRoundTrip(1, m.headers, order, rest);
  }

  lemma ErrorRoundTrip(m: ErrorMessage, rest: Bytes)
    requires SpanFits(m.tracing) && StringFits(2, m.message)
    ensures ReadError(RBuf(EncodeError(m) + rest, false)) == (m, RBuf(rest, false))
  {
    hide RBuf.ReadByte, RBuf.ReadLenBytes, Limit, ReadSpan, EncodeSpan, EncodeString;
    var r2 := EncodeString(2, m.message) + rest;
    var r1 := EncodeSpan(m.tracing) + r2;
    assert EncodeError(m) + rest == [m.code] + r1;
    ReadByteBack(m.code, r1);
    SpanRoundTrip(m.tracing, r2);
    ReadStringBack(2, m.message, rest);
  }

  lemma InitRoundTrip(m: InitMessage, order: seq<Bytes>, rest: Bytes)
    requires Visits(m.params, order) && m.version < Limit(2) && MapFits(2, m.params)
    ensures ReadInit(RBuf(EncodeInit(m, order) + rest, false)) == (m, RBuf(rest, false))
  {
    hide RBuf.ReadUint, PutUint, Limit, ReadMap, EncodeMap, Visits, MapFits;
    var r1 := EncodeMap(2, m.params, order) + rest;
    assert EncodeInit(m, order) + rest == PutUint(m.version, 2) + r1;
    ReadUintBack(m.version, 2, r1);
    MapRoundTrip(2, m.params, order, rest);
  }

  // ---------- where each field lies ----------

  // A number that fits its field is found there, and so is what follows it.
  lemma FieldAt(n: nat, width: nat, rest: Bytes)
    requires n < Limit(width)
    ensures var b := PutUint(n, width) + rest; |b| == width + |rest| && GetUint(b[..width]) == n && b[width..] == rest
  {
    hide PutUint, GetUint, Limit;
    UintRoundTrip(n, width);
    var b := PutUint(n, width) + rest;
    assert b[..width] == PutUint(n, width);
  }

  /** A span lies on the wire as its own ID, its parent's, the trace's, and the flags. */
  lemma SpanLayout(s: Span)
    requires SpanFits(s)
    ensures var b := EncodeSpan(s);
      && |b| == 25 && GetUint(b[..8]) == s.spanID && GetUint(b[8..16]) == s.parentID
      && GetUint(b[16..24]) == s.traceID && b[24] == s.flags
  {
    hide PutUint, GetUint, Limit;
    var b := EncodeSpan(s);
    var b1 := PutUint(s.parentID, 8) + (PutUint(s.traceID, 8) + [s.flags]);
    var b2 := PutUint(s.traceID, 8) + [s.flags];
    FieldAt(s.spanID, 8, b1);
    FieldAt(s.parentID, 8, b2);
    FieldAt(s.traceID, 8, [s.flags]);
    assert b[8..16] == b1[..8] && b[16..24] == b2[..8];
  }

  // How many bytes come before the i-th pair.
  function PairStart(width: nat, ps: seq<Pair>, i: nat): (n: nat)
    requires i <= |ps|
  {
    if i == 0 then 0 else 2 * width + |ps[0].0| + |ps[0].1| + PairStart(width, ps[1..], i - 1)
  }

  // At this place there are the size of a string and the string.
  predicate StringAt(b: Bytes, at: nat, width: nat, v: Bytes) {
    && at + width + |v| <= |b|
    && GetUint(b[at..at + width]) == |v| && b[at + width..at + width + |v|] == v
  }

  lemma StringFurther(before: Bytes, b: Bytes, at: nat, width: nat, v: Bytes)
    requires StringAt(b, at, width, v)
    ensures StringAt(before + b, |before| + at, width, v)
  {
    hide GetUint;
    var c, n := before + b, |before| + at;
    assert c[n..n + width] == b[at..at + width];
    assert c[n + width..n + width + |v|] == b[at + width..at + width + |v|];
  }

  lemma StringHere(before: Bytes, width: nat, v: Bytes, rest: Bytes)
    requires StringFits(width, v)
    ensures StringAt(before + (EncodeString(width, v) + rest), |before|, width, v)
  {
    hide PutUint, GetUint, Limit;
    var b := EncodeString(width, v) + rest;
    assert b == PutUint(|v|, width) + (v + rest);
    FieldAt(|v|, width, v + rest);
    assert b[0..width] == b[..width] && b[width..width + |v|] == b[width..][..|v|];
    StringFurther(before, b, 0, width, v);
  }

  /** Each pair is the size of its key, its key, the size of its value and its value. */
  lemma {:induction false} PairsLayout(width: nat, ps: seq<Pair>, i: nat)
    requires PairsFit(width, ps) && i < |ps|
    ensures var b, at := EncodePairs(width, ps), PairStart(width, ps, i);
      StringAt(b, at, width, ps[i].0) && StringAt(b, at + width + |ps[i].0|, width, ps[i].1)
    decreases |ps|
  {
    hide StringAt, Limit;
    var (key, val) := ps[0];
    var k, v, rest := EncodeString(width, key), EncodeString(width, val), EncodePairs(width, ps[1..]);
    assert [] + (k + (v + rest)) == k + (v + rest) && (k + v) + rest == k + (v + rest);
    if i == 0 {
      StringHere([], width, key, v + rest);
      StringHere(k, width, val, rest);
    } else {
      PairsLayout(width, ps[1..], i - 1);
      var at := PairStart(width, ps[1..], i - 1);
      StringFurther(k + v, rest, at, width, ps[i].0);
      StringFurther(k + v, rest, at + width + |ps[i].0|, width, ps[i].1);
    }
  }

  /** A call request: the time to live in milliseconds, the span, the service and the headers. */
  lemma CallReqLayout(m: CallReq, order: seq<Bytes>)
    requires Visits(m.headers, order) && CallReqFits(m)
    ensures var b, n := EncodeCallReq(m, order), |m.service|;
      && |b| > 30 + n && GetUint(b[..4]) == Millis(m.ttl) % Limit(4) && b[4..29] == EncodeSpan(m.tracing)
      && b[29] == n && b[30..30 + n] == m.service && b[30 + n] == |m.headers|
      && b[31 + n..] == EncodePairs(1, PairsOf(m.headers, order))
  {
    hide PutUint, GetUint, EncodeSpan, EncodePairs, Limit;
    LimitIsWidth();
    var b, n := EncodeCallReq(m, order), |m.service|;
    var pairs := EncodePairs(1, PairsOf(m.headers, order));
    UintRoundTrip(Millis(m.ttl), 4);
    SpanLayout(m.tracing);
    OneByte(n);
    OneByte(|m.headers|);
    var b3 := [|m.headers|] + pairs;
    var b2 := [n] + m.service + b3;
    assert b == PutUint(Millis(m.ttl), 4) + (EncodeSpan(m.tracing) + b2);
    assert b[..4] == PutUint(Millis(m.ttl), 4) && b[4..29] == EncodeSpan(m.tracing) && b[29..] == b2;
    assert b[30..30 + n] == b2[1..1 + n] && b2[1 + n..] == b3 && b[30 + n..] == b3;
  }

  // A single byte holds itself.
  lemma OneByte(n: nat)
    requires n < 0x100
    ensures PutUint(n, 1) == [n]
  {
    assert PutUint(n / 0x100, 0) == [];
    assert [] + [n % 0x100] == [n];
  }

  /** A call response: the code, the span and the headers. */
  lemma CallResLayout(m: CallRes, order: seq<Bytes>)
    requires Visits(m.headers, order) && SpanFits(m.tracing) && MapFits(1, m.headers)
    ensures var b := EncodeCallRes(m, order);
      && |b| > 26 && b[0] == m.code && b[1..26] == EncodeSpan(m.tracing) && b[26] == |m.headers|
      && b[27..] == EncodePairs(1, PairsOf(m.headers, order))
  {
    hide PutUint, EncodeSpan, EncodePairs, Visits, Limit;
    LimitIsWidth();
    SpanLayout(m.tracing);
    OneByte(|m.headers|);
  }

  /** An error message: the code, the span and the text. */
  lemma ErrorLayout(m: ErrorMessage)
    requires SpanFits(m.tracing) && StringFits(2, m.message)
    ensures var b := EncodeError(m);
      && |b| == 28 + |m.message| && b[0] == m.code && b[1..26] == EncodeSpan(m.tracing)
      && GetUint(b[26..28]) == |m.message| && b[28..] == m.message
  {
    hide PutUint, GetUint, EncodeSpan, Limit;
    SpanLayout(m.tracing);
    FieldAt(|m.message|, 2, m.message);
    var b := EncodeError(m);
    assert b[26..28] == EncodeString(2, m.message)[..2];
  }

  /** An init message: the version and the parameters. */
  lemma InitLayout(m: InitMessage, order: seq<Bytes>)
    requires Visits(m.params, order) && m.version < Limit(2) && MapFits(2, m.params)
    ensures var b := EncodeInit(m, order);
      && |b| >= 4 && GetUint(b[..2]) == m.version && GetUint(b[2..4]) == |m.params|
      && b[4..] == EncodePairs(2, PairsOf(m.params, order))
  {
    hide PutUint, GetUint, EncodePairs, Limit;
    var b, b1 := EncodeInit(m, order), EncodeMap(2, m.params, order);
    FieldAt(m.version, 2, b1);
    FieldAt(|m.params|, 2, EncodePairs(2, PairsOf(m.params, order)));
    assert b[2..4] == b1[..2];
  }
}
