/** Writing messages into and reading them out of buffers (messages.go, tracing.go). */
module MessageCodec {
  import opened Buffers
  import opened Messages

  /** From a to z the bytes b were written; it failed exactly if the buffer had failed
      before, something in b could not be encoded (not ok), or b does not fit. */
  predicate Appended(a: WBuf, z: WBuf, ok: bool, b: Bytes) {
    && z.capacity == a.capacity
    && z.failed == (a.failed || !ok || |a.written| + |b| > a.capacity)
    && (!z.failed ==> z.written == a.written + b)
  }

  lemma AppendedTwice(a: WBuf, m: WBuf, z: WBuf, ok1: bool, ok2: bool, b1: Bytes, b2: Bytes)
    requires Appended(a, m, ok1, b1) && Appended(m, z, ok2, b2)
    ensures Appended(a, z, ok1 && ok2, b1 + b2)
  {
    assert a.written + b1 + b2 == a.written + (b1 + b2);
  }

  lemma PutAppends(a: WBuf, b: Bytes)
    ensures |a.written| <= a.capacity ==> Appended(a, a.Put(b), true, b)
  {
  }

  lemma PutStringAppends(a: WBuf, width: nat, b: Bytes)
    requires |a.written| <= a.capacity
    ensures Appended(a, a.PutLenBytes(width, b), StringFits(width, b), EncodeString(width, b))
  {
    var n := PutUint(|b|, width);
    PutAppends(a, n);
    PutAppends(a.Put(n), b);
    AppendedTwice(a, a.Put(n), a.Put(n).Put(b), true, true, n, b);
  }

  lemma {:induction false} EncodePairsConcat(width: nat, ps: seq<Pair>, qs: seq<Pair>)
    ensures EncodePairs(width, ps + qs) == EncodePairs(width, ps) + EncodePairs(width, qs)
  {
    if ps == [] {
      assert ps + qs == qs;
    } else {
      assert (ps + qs)[1..] == ps[1..] + qs;
      EncodePairsConcat(width, ps[1..], qs);
    }
  }

  lemma EncodePairsSnoc(width: nat, ps: seq<Pair>, p: Pair)
    ensures EncodePairs(width, ps + [p]) == EncodePairs(width, ps) +
      (EncodeString(width, p.0) + EncodeString(width, p.1))
  {
    EncodePairsConcat(width, ps, [p]);
    var one := [p];
    assert one[1..] == [];
    assert EncodeString(width, p.1) + [] == EncodeString(width, p.1);
  }

  predicate MapStringsFit(width: nat, m: map<Bytes, Bytes>, order: seq<Bytes>)
    requires forall i :: 0 <= i < |order| ==> order[i] in m
  {
    PairsFit(width, PairsOf(m, order))
  }

  method WriteString(w: WriteBuffer, width: nat, b: Bytes)
    requires w.Valid()
    modifies w, w.buffer
    ensures w.Valid() && Appended(old(w.View()), w.View(), StringFits(width, b), EncodeString(width, b))
  {
    PutStringAppends(w.View(), width, b);
    w.WriteLenBytes(width, b);
  }

  method WriteNumber(w: WriteBuffer, n: nat, width: nat)
    requires w.Valid()
    modifies w, w.buffer
    ensures w.Valid() && Appended(old(w.View()), w.View(), true, PutUint(n, width))
  {
    PutAppends(w.View(), PutUint(n, width));
    w.WriteUint(n, width);
  }

  method WritePair(w: WriteBuffer, width: nat, p: Pair)
    requires w.Valid()
    modifies w, w.buffer
    ensures w.Valid()
    ensures Appended(old(w.View()), w.View(), StringFits(width, p.0) && StringFits(width, p.1),
                     EncodeString(width, p.0) + EncodeString(width, p.1))
  {
    hide EncodeString, StringFits, Appended;
    WriteString(w, width, p.0);
    ghost var m := w.View();
    WriteString(w, width, p.1);
    AppendedTwice(old(w.View()), m, w.View(), StringFits(width, p.0), StringFits(width, p.1),
                  EncodeString(width, p.0), EncodeString(width, p.1));
  }

  /** The loop over a header map, in the order its keys are visited. */
  method WriteMap(w: WriteBuffer, width: nat, m: map<Bytes, Bytes>, order: seq<Bytes>)
    requires w.Valid() && Visits(m, order)
    modifies w, w.buffer
    ensures w.Valid() && Appended(old(w.View()), w.View(), MapStringsFit(width, m, order), EncodeMap(width, m, order))
  {
    hide EncodeString, StringFits, Appended, PutUint, Visits;
    assert forall i :: 0 <= i < |order| ==> order[i] in m by { VisitsIn(m, order); }
    ghost var ps := PairsOf(m, order);
    WriteNumber(w, |m|, width);
    var i := 0;
    assert PutUint(|m|, width) + EncodePairs(width, ps[..0]) == PutUint(|m|, width);
    while i < |order|
      invariant 0 <= i <= |order| && w.Valid()
      invariant Appended(old(w.View()), w.View(), PairsFit(width, ps[..i]),
        PutUint(|m|, width) + EncodePairs(width, ps[..i]))
    {
      ghost var before := w.View();
      WritePair(w, width, (order[i], m[order[i]]));
      OneMorePair(old(w.View()), before, w.View(), width, PutUint(|m|, width), ps, i);
      i := i + 1;
    }
    assert ps[..i] == ps;
  }

  lemma VisitsIn(m: map<Bytes, Bytes>, order: seq<Bytes>)
    requires Visits(m, order)
    ensures forall i :: 0 <= i < |order| ==> order[i] in m
  {
  }

  lemma OneMorePair(a: WBuf, m: WBuf, z: WBuf, width: nat, n: Bytes, ps: seq<Pair>, i: nat)
    requires i < |ps|
    requires Appended(a, m, PairsFit(width, ps[..i]), n + EncodePairs(width, ps[..i]))
    requires Appended(m, z, StringFits(width, ps[i].0) && StringFits(width, ps[i].1),
                      EncodeString(width, ps[i].0) + EncodeString(width, ps[i].1))
    ensures Appended(a, z, PairsFit(width, ps[..i + 1]), n + EncodePairs(width, ps[..i + 1]))
  {
    hide Appended, EncodeString, StringFits;
    var p := EncodeString(width, ps[i].0) + EncodeString(width, ps[i].1);
    AppendedTwice(a, m, z, PairsFit(width, ps[..i]), StringFits(width, ps[i].0) && StringFits(width, ps[i].1),
                  n + EncodePairs(width, ps[..i]), p);
    assert ps[..i + 1] == ps[..i] + [ps[i]];
    EncodePairsSnoc(width, ps[..i], ps[i]);
    assert n + EncodePairs(width, ps[..i]) + p == n + (EncodePairs(width, ps[..i]) + p);
  }

  method WriteSpan(w: WriteBuffer, s: Span)
    requires w.Valid()
    modifies w, w.buffer
    ensures w.Valid() && Appended(old(w.View()), w.View(), true, EncodeSpan(s))
  {
    hide Appended, PutUint;
    WriteNumber(w, s.spanID, 8);
    ghost var v1 := w.View();
    WriteNumber(w, s.parentID, 8);
    ghost var v2 := w.View();
    WriteNumber(w, s.traceID, 8);
    ghost var v3 := w.View();
    PutAppends(v3, [s.flags]);
    w.WriteBytes([s.flags]);
    AppendedTwice(v2, v3, w.View(), true, true, PutUint(s.traceID, 8), [s.flags]);
    AppendedTwice(v1, v2, w.View(), true, true, PutUint(s.parentID, 8), PutUint(s.traceID, 8) + [s.flags]);
    AppendedTwice(old(w.View()), v1, w.View(), true, true, PutUint(s.spanID, 8), EncodeSpan(s)[8..]);
    assert EncodeSpan(s) == PutUint(s.spanID, 8) + EncodeSpan(s)[8..];
  }

  /** callReq.write: the buffer takes the whole encoding, or fails exactly if it is too
      small or a string is too long for its length prefix. */
  method WriteCallReq(w: WriteBuffer, m: CallReq, order: seq<Bytes>)
    requires w.Valid() && Visits(m.headers, order)
    modifies w, w.buffer
    ensures w.Valid()
    ensures Appended(old(w.View()), w.View(), StringFits(1, m.service) && MapStringsFit(1, m.headers, order),
                     EncodeCallReq(m, order))
  {
    hide Appended, PutUint, EncodeSpan, EncodeMap, EncodeString, MapStringsFit, StringFits, Visits;
    assert forall i :: 0 <= i < |order| ==> order[i] in m.headers by { VisitsIn(m.headers, order); }
    WriteNumber(w, Millis(m.ttl), 4);
    ghost var v1 := w.View();
    WriteSpan(w, m.tracing);
    ghost var v2 := w.View();
    WriteString(w, 1, m.service);
    ghost var v3 := w.View();
    WriteMap(w, 1, m.headers, order);
    ghost var ok := MapStringsFit(1, m.headers, order);
    ghost var b3 := EncodeMap(1, m.headers, order);
    AppendedTwice(v2, v3, w.View(), StringFits(1, m.service), ok, EncodeString(1, m.service), b3);
    ghost var b2 := EncodeString(1, m.service) + b3;
    AppendedTwice(v1, v2, w.View(), true, StringFits(1, m.service) && ok, EncodeSpan(m.tracing), b2);
    AppendedTwice(old(w.View()), v1, w.View(), true, StringFits(1, m.service) && ok,
                  PutUint(Millis(m.ttl), 4), EncodeSpan(m.tracing) + b2);
  }

  /** The loop that fills a map from a buffer. */
  method ReadMapFrom(r: ReadBuffer, width: nat) returns (m: map<Bytes, Bytes>)
    requires r.Valid()
    modifies r
    ensures r.Valid() && r.initialLength == old(r.initialLength)
    ensures (m, r.View()) == ReadMap(old(r.View()), width)
  {
    hide RBuf.ReadLenBytes, RBuf.ReadUint;
    var n := r.ReadUint(width);
    ghost var start := r.View();
    m := map[];
    var i := 0;
    ghost var all := ReadPairs(start, width, n);
    while i < n
      invariant 0 <= i <= n && r.Valid() && r.initialLength == old(r.initialLength)
      invariant ReadPairs(r.View(), width, n - i) == (all.0[i..], all.1)
      invariant PutAll(m, all.0[i..]) == PutAll(map[], all.0)
    {
      var k := r.ReadLenBytes(width);
      var v := r.ReadLenBytes(width);
      assert all.0[i..] == [(k, v)] + all.0[i + 1..];
      m := m[k := v];
      i := i + 1;
    }
    assert all.0[n..] == [];
  }

  method ReadSpanFrom(r: ReadBuffer) returns (s: Span)
    requires r.Valid()
    modifies r
    ensures r.Valid() && r.initialLength == old(r.initialLength)
    ensures (s, r.View()) == ReadSpan(old(r.View()))
  {
    hide RBuf.ReadUint, RBuf.ReadByte;
    var spanID := r.ReadUint(8);
    var parentID := r.ReadUint(8);
    var traceID := r.ReadUint(8);
    var flags := r.ReadSingleByte();
    s := Span(traceID, parentID, spanID, flags);
  }

  method ReadCallReqFrom(r: ReadBuffer) returns (m: CallReq, failed: bool)
    requires r.Valid()
    modifies r
    ensures r.Valid() && r.initialLength == old(r.initialLength)
    ensures (m, r.View()) == ReadCallReq(old(r.View())) && failed == r.err
  {
    hide RBuf.ReadUint, RBuf.ReadLenBytes, ReadMap, ReadSpan;
    var ttl := r.ReadUint(4);
    var tracing := ReadSpanFrom(r);
    var service := r.ReadLenBytes(1);
    var headers := ReadMapFrom(r, 1);
    m := CallReq(ttl * MILLISECOND, tracing, service, headers);
    failed := r.err;
  }

  /** A call request through two buffers: written without an error, it is read back. */
  method CallReqThroughBuffers(m: CallReq, order: seq<Bytes>, size: nat)
      returns (wrote: bool, got: CallReq, failed: bool)
    requires Visits(m.headers, order) && CallReqFits(m)
    ensures wrote == (|EncodeCallReq(m, order)| <= size)
    ensures wrote ==> !failed && got == OnWire(m)
  {
    hide EncodeCallReq, ReadCallReq, Limit, Visits;
    VisitFits(1, m.headers, order);
    var w := new WriteBuffer(size);
    WriteCallReq(w, m, order);
    wrote := !w.err;
    assert wrote ==> w.buffer[..w.pos] == [] + EncodeCallReq(m, order) == EncodeCallReq(m, order);
    var r := new ReadBuffer(w.buffer[..w.pos]);
    CallReqRoundTrip(m, order, []);
    assert EncodeCallReq(m, order) + [] == EncodeCallReq(m, order);
    got, failed := ReadCallReqFrom(r);
  }
}
