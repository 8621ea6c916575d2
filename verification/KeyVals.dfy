/** Key-value pairs in a Thrift arg2: the relay's iterator (thrift/arg2/kv_iterator.go) and
    the pairs a relay appends (relay.go). */
module KeyVals {
  import opened Buffers
  import opened Messages
  import opened MessageCodec

  // ---------- the iterator ----------

  datatype Iterator = Iterator(remaining: Bytes, leftPairCount: nat, key: Bytes, val: Bytes)

  datatype IterResult = Pos(it: Iterator) | EOF | Broken

  function Next(i: Iterator): (r: IterResult) {
    if i.leftPairCount == 0 then EOF
    else
      var (key, r1) := RBuf(i.remaining, false).ReadLenBytes(2);
      var (val, r2) := r1.ReadLenBytes(2);
      if r2.failed then Broken else Pos(Iterator(r2.remaining, i.leftPairCount - 1, key, val))
  }

  function NewIterator(arg2: Bytes): (r: IterResult) {
    if |arg2| < 2 then EOF else Next(Iterator(arg2[2..], GetUint(arg2[..2]), [], []))
  }

  datatype Collected = Pairs(ps: seq<Pair>, rest: Bytes) | Malformed

  // The pairs an iterator goes through, from its current position to the end.
  function Collect(r: IterResult, rest: Bytes): (c: Collected)
    decreases if r.Pos? then r.it.leftPairCount + 1 else 0
  {
    match r
    case EOF => Pairs([], rest)
    case Broken => Malformed
    case Pos(it) =>
      match Collect(Next(it), it.remaining)
      case Malformed => Malformed
      case Pairs(ps, rest') => Pairs([(it.key, it.val)] + ps, rest')
  }

  // All the pairs of an arg2, and the bytes after them.
  function PairsIn(arg2: Bytes): (c: Collected) {
    if |arg2| < 2 then Malformed else Collect(NewIterator(arg2), arg2[2..])
  }

  lemma {:induction false} CollectIsRead(it: Iterator)
    ensures var (ps, r) := ReadPairs(RBuf(it.remaining, false), 2, it.leftPairCount);
      Collect(Next(it), it.remaining) == if r.failed then Malformed else Pairs(ps, r.remaining)
    decreases it.leftPairCount
  {
    hide RBuf.ReadLenBytes;
    if it.leftPairCount == 0 {
    } else {
      var (key, r1) := RBuf(it.remaining, false).ReadLenBytes(2);
      var (val, r2) := r1.ReadLenBytes(2);
      if r2.failed {
        FailedPairs(r2, it.leftPairCount - 1);
      } else {
        CollectIsRead(Iterator(r2.remaining, it.leftPairCount - 1, key, val));
      }
    }
  }

  lemma {:induction false} FailedPairs(r: RBuf, n: nat)
    requires r.failed
    ensures ReadPairs(r, 2, n).1.failed
    decreases n
  {
    if n == 0 {
    } else {
      FailedPairs(r, n - 1);
    }
  }

  /** Iterating is reading as many pairs as the count says. */
  lemma PairsInIsRead(arg2: Bytes)
    requires |arg2| >= 2
    ensures var (ps, r) := ReadPairs(RBuf(arg2[2..], false), 2, GetUint(arg2[..2]));
      PairsIn(arg2) == if r.failed then Malformed else Pairs(ps, r.remaining)
  {
    CollectIsRead(Iterator(arg2[2..], GetUint(arg2[..2]), [], []));
  }

  // ---------- appending ----------

  // writeArg2WithAppends: the count grows by the number of appends, as a uint16.
  function WithAppends(arg2: Bytes, appends: seq<Pair>): (r: Bytes)
    requires |arg2| >= 2
  {
    U16(GetUint(arg2[..2]) + |appends|) + (arg2[2..] + EncodePairs(2, appends))
  }

  lemma WithAppendsIs(arg2: Bytes, appends: seq<Pair>)
    requires |arg2| >= 2
    ensures var a := WithAppends(arg2, appends);
      |a| >= 2 && a[2..] == arg2[2..] + EncodePairs(2, appends)
        && GetUint(a[..2]) == (GetUint(arg2[..2]) + |appends|) % 0x1_0000
  {
    hide U16;
    U16RoundTrip(GetUint(arg2[..2]) + |appends|);
    var a := WithAppends(arg2, appends);
    assert a[..2] == U16(GetUint(arg2[..2]) + |appends|);
    assert a[2..] == arg2[2..] + EncodePairs(2, appends);
  }

  // What is needed for the appended pairs to be read back after the ones that were there.
  predicate AppendsReadable(count: nat, rest: Bytes, appends: seq<Pair>) {
    && count + |appends| < 0x1_0000
    && PairsFit(2, appends)
    && EncodePairs(2, appends) <= rest + EncodePairs(2, appends)
  }

  /** Appending keeps the pairs and adds the new ones, exactly when the count does not
      wrap, keys and values fit their length prefixes, and the bytes after the last pair
      (none, in a well-formed arg2) do not get in the way. */
  lemma AppendsKept(arg2: Bytes, ps: seq<Pair>, rest: Bytes, appends: seq<Pair>)
    requires |arg2| >= 2 && PairsIn(arg2) == Pairs(ps, rest)
    ensures (PairsIn(WithAppends(arg2, appends)).Pairs? && PairsIn(WithAppends(arg2, appends)).ps == ps + appends)
      <==> AppendsReadable(|ps|, rest, appends)
    ensures rest == [] && |ps| + |appends| < 0x1_0000 && PairsFit(2, appends) ==>
      PairsIn(WithAppends(arg2, appends)) == Pairs(ps + appends, [])
  {
    hide PairsIn, WithAppends, ReadPairs, EncodePairs;
    var n, b, e := GetUint(arg2[..2]), arg2[2..], EncodePairs(2, appends);
    PairsInIsRead(arg2);
    PairsReadAreEncoded(RBuf(b, false), 2, n);
    WithAppendsIs(arg2, appends);
    PairsInIsRead(WithAppends(arg2, appends));
    assert b == EncodePairs(2, ps) + rest;
    assert b + e == EncodePairs(2, ps) + (rest + e);
    if AppendsReadable(|ps|, rest, appends) {
      var left := (rest + e)[|e|..];
      assert rest + e == e + left;
      ReadsAppends(ps, appends, left);
    } else if PairsIn(WithAppends(arg2, appends)).Pairs? && PairsIn(WithAppends(arg2, appends)).ps == ps + appends {
      PairsReadAreEncoded(RBuf(b + e, false), 2, (n + |appends|) % 0x1_0000);
      AppendsWereThere(ps, appends, rest + e, ReadPairs(RBuf(b + e, false), 2, (n + |appends|) % 0x1_0000).1.remaining);
    }
    if rest == [] {
      assert rest + e == e;
    }
  }

  lemma ReadsAppends(ps: seq<Pair>, appends: seq<Pair>, left: Bytes)
    requires PairsFit(2, ps) && PairsFit(2, appends)
    ensures ReadPairs(RBuf(EncodePairs(2, ps) + (EncodePairs(2, appends) + left), false), 2, |ps + appends|) ==
      (ps + appends, RBuf(left, false))
  {
    hide EncodePairs, ReadPairs, PairsFit;
    var d, e := EncodePairs(2, ps), EncodePairs(2, appends);
    EncodePairsConcat(2, ps, appends);
    assert d + (e + left) == d + e + left;
    FitTogether(ps, appends);
    ReadPairsBack(2, ps + appends, left);
  }

  lemma FitTogether(ps: seq<Pair>, qs: seq<Pair>)
    requires PairsFit(2, ps) && PairsFit(2, qs)
    ensures PairsFit(2, ps + qs)
  {
  }

  lemma AppendsWereThere(ps: seq<Pair>, appends: seq<Pair>, tail: Bytes, left: Bytes)
    requires EncodePairs(2, ps) + tail == EncodePairs(2, ps + appends) + left && PairsFit(2, ps + appends)
    ensures EncodePairs(2, appends) <= tail && PairsFit(2, appends)
  {
    hide EncodePairs;
    EncodePairsConcat(2, ps, appends);
    var d, e := EncodePairs(2, ps), EncodePairs(2, appends);
    assert (d + tail)[|d|..] == tail;
    assert (d + e + left)[|d|..] == e + left;
    assert forall i :: 0 <= i < |appends| ==> (ps + appends)[|ps| + i] == appends[i];
  }

  /** One stray byte after the last pair is enough to lose the appended pair. */
  lemma TrailingBytesLoseAppends()
    ensures var arg2: Bytes, appends: seq<Pair> := [0, 0, 7], [([1], [2])];
      && PairsIn(arg2) == Pairs([], [7])
      && !(PairsIn(WithAppends(arg2, appends)).Pairs? && PairsIn(WithAppends(arg2, appends)).ps == appends)
  {
    hide PairsIn, WithAppends, EncodePairs;
    var arg2: Bytes, appends: seq<Pair> := [0, 0, 7], [([1], [2])];
    var none: seq<Pair> := [];
    assert arg2[..2] == [0, 0] && arg2[2..] == [7];
    ZeroCount();
    PairsInIsRead(arg2);
    AppendsKept(arg2, none, [7], appends);
    assert none + appends == appends;
    StartsWithZero(appends);
    assert ([7] + EncodePairs(2, appends))[0] == 7;
  }

  lemma ZeroCount()
    ensures GetUint([0, 0]) == 0
  {
    var b: Bytes := [0, 0];
    assert b[..1] == [0];
    assert GetUint(b[..1]) == 0;
  }

  lemma StartsWithZero(ps: seq<Pair>)
    requires ps != [] && |ps[0].0| < 0x100
    ensures EncodePairs(2, ps) != [] && EncodePairs(2, ps)[0] == 0
  {
    var n := |ps[0].0|;
    assert PutUint(n, 2)[0] == 0 by {
      assert n / 0x100 == 0;
      assert PutUint(0, 1)[0] == 0;
    }
  }
}
