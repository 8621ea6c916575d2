/** Length-prefixed chunks, checksummed fragments, and what a run of fragments means.

    A fragment carries a non-empty list of chunks. The first chunk of a fragment
    continues the argument left open by the fragment before it, so a run of
    fragments denotes the list of arguments obtained by gluing the lists together. */
module Chunks {
  import opened Buffers

  type Chunk = Bytes

  // ---------- byte form of a chunk list ----------

  function Encode(cs: seq<Chunk>): (r: Bytes) {
    if cs == [] then [] else U16(|cs[0]|) + cs[0] + Encode(cs[1..])
  }

  lemma {:induction false} EncodeAppend(a: seq<Chunk>, b: seq<Chunk>)
    ensures Encode(a + b) == Encode(a) + Encode(b)
  {
    if a == [] {
      assert a + b == b;
    } else {
      assert (a + b)[1..] == a[1..] + b;
      EncodeAppend(a[1..], b);
    }
  }

  lemma EncodeOne(c: Chunk)
    ensures Encode([c]) == U16(|c|) + c
  {
    assert [c][1..] == [];
  }

  // The last chunk of a list grows by x.
  function Extend(cs: seq<Chunk>, x: Bytes): (r: seq<Chunk>)
    requires cs != []
    ensures |r| == |cs|
  {
    cs[..|cs| - 1] + [cs[|cs| - 1] + x]
  }

  lemma EncodeExtend(cs: seq<Chunk>, x: Bytes)
    requires cs != []
    ensures |Encode(Extend(cs, x))| == |Encode(cs)| + |x|
  {
    var init, last := cs[..|cs| - 1], cs[|cs| - 1];
    assert cs == init + [last];
    EncodeAppend(init, [last]);
    EncodeAppend(init, [last + x]);
    EncodeOne(last);
    EncodeOne(last + x);
  }

  datatype ParseStatus = Parsed | ChunkExceedsFragment | BufferTooSmall

  // The loop of recvAndParseNextFragment that splits a fragment into chunks.
  function Parse(r: RBuf): (p: (seq<Chunk>, ParseStatus))
    decreases |r.remaining|, !r.failed
  {
    if r.remaining == [] || r.failed then
      ([], if r.failed then BufferTooSmall else Parsed)
    else
      var (n, r1) := r.ReadUint(2);
      if n > |r1.remaining| % 0x1_0000 then ([], ChunkExceedsFragment)
      else
        var (c, r2) := r1.ReadBytes(n);
        var (cs, status) := Parse(r2);
        ([c] + cs, status)
  }

  lemma {:induction false} EncodeSizes(cs: seq<Chunk>)
    requires |Encode(cs)| < 0x1_0000
    ensures forall i :: 0 <= i < |cs| ==> |cs[i]| < 0x1_0000
  {
    if cs == [] {
    } else {
      EncodeSizes(cs[1..]);
    }
  }

  /** Splitting an encoded chunk list gives the list back. */
  lemma {:induction false} ParseEncode(cs: seq<Chunk>)
    requires |Encode(cs)| < 0x1_0000
    ensures Parse(RBuf(Encode(cs), false)) == (cs, Parsed)
  {
    if cs == [] {
    } else {
      EncodeHead(cs);
      ParseEncode(cs[1..]);
      ParseCons(RBuf(Encode(cs), false), cs[0], RBuf(Encode(cs)[2..], false), RBuf(Encode(cs[1..]), false));
      assert [cs[0]] + cs[1..] == cs;
    }
  }

  lemma ParseCons(r: RBuf, c: Chunk, r1: RBuf, r2: RBuf)
    requires r.remaining != [] && !r.failed
    requires r.ReadUint(2) == (|c|, r1) && r1.ReadBytes(|c|) == (c, r2)
    requires |c| <= |r1.remaining| < 0x1_0000
    ensures Parse(r) == ([c] + Parse(r2).0, Parse(r2).1)
  {
    hide RBuf.ReadUint, RBuf.ReadBytes;
  }

  lemma EncodeHead(cs: seq<Chunk>)
    requires cs != [] && |Encode(cs)| < 0x1_0000
    ensures var b, c := Encode(cs), cs[0];
            && |Encode(cs[1..])| + |c| + 2 == |b|
            && RBuf(b, false).ReadUint(2) == (|c|, RBuf(b[2..], false))
            && RBuf(b[2..], false).ReadBytes(|c|) == (c, RBuf(Encode(cs[1..]), false))
  {
    hide PutUint, GetUint, U16;
    var b, c := Encode(cs), cs[0];
    U16RoundTrip(|c|);
    assert b[..2] == U16(|c|);
    assert b[2..] == c + Encode(cs[1..]);
  }

  /** And a fragment that splits cleanly is the encoding of what it splits into. */
  lemma {:induction false} EncodeParse(b: Bytes)
    requires |b| < 0x1_0000
    requires Parse(RBuf(b, false)).1 == Parsed
    ensures Encode(Parse(RBuf(b, false)).0) == b
    decreases |b|
  {
    if b == [] {
    } else {
      assert Parse(RBuf(b, true)).1 == BufferTooSmall;
      if |b| >= 2 {
        var r1 := RBuf(b[2..], false);
        var n := GetUint(b[..2]);
        var c := r1.remaining[..n];
        EncodeParse(b[2..][n..]);
        BytesRoundTrip(b[..2]);
        assert b == b[..2] + c + b[2..][n..];
        var rest := Parse(RBuf(b[2..][n..], false)).0;
        assert ([c] + rest)[1..] == rest;
      }
    }
  }

  // ---------- what fragments mean ----------

  function Glue2(a: seq<Chunk>, b: seq<Chunk>): (r: seq<Chunk>)
    requires a != [] && b != []
    ensures |r| == |a| + |b| - 1
  {
    a[..|a| - 1] + [a[|a| - 1] + b[0]] + b[1..]
  }

  function Glue(fs: seq<seq<Chunk>>): (r: seq<Chunk>)
    requires forall i :: 0 <= i < |fs| ==> fs[i] != []
    ensures r != []
  {
    if fs == [] then [[]] else Glue2(fs[0], Glue(fs[1..]))
  }

  lemma Glue2Assoc(a: seq<Chunk>, b: seq<Chunk>, c: seq<Chunk>)
    requires a != [] && b != [] && c != []
    ensures Glue2(Glue2(a, b), c) == Glue2(a, Glue2(b, c))
  {
    if |b| == 1 {
      assert a[|a| - 1] + b[0] + c[0] == a[|a| - 1] + (b[0] + c[0]);
    }
  }

  lemma Glue2Unit(a: seq<Chunk>)
    requires a != []
    ensures Glue2(a, [[]]) == a && Glue2([[]], a) == a
  {
    assert a[|a| - 1] + [] == a[|a| - 1];
    assert [] + a[0] == a[0];
  }

  lemma {:induction false} GlueConcat(fs: seq<seq<Chunk>>, gs: seq<seq<Chunk>>)
    requires forall i :: 0 <= i < |fs| ==> fs[i] != []
    requires forall i :: 0 <= i < |gs| ==> gs[i] != []
    ensures Glue(fs + gs) == Glue2(Glue(fs), Glue(gs))
  {
    if fs == [] {
      assert fs + gs == gs;
      Glue2Unit(Glue(gs));
    } else {
      assert (fs + gs)[1..] == fs[1..] + gs;
      GlueConcat(fs[1..], gs);
      Glue2Assoc(fs[0], Glue(fs[1..]), Glue(gs));
    }
  }

  lemma GlueOne(f: seq<Chunk>)
    requires f != []
    ensures Glue([f]) == f
  {
    assert [f][1..] == [];
    Glue2Unit(f);
  }

  lemma GlueSnoc(fs: seq<seq<Chunk>>, f: seq<Chunk>)
    requires forall i :: 0 <= i < |fs| ==> fs[i] != []
    requires f != []
    ensures Glue(fs + [f]) == Glue2(Glue(fs), f)
  {
    GlueOne(f);
    GlueConcat(fs, [f]);
  }

  function Join(cs: seq<Chunk>): (r: Bytes) {
    if cs == [] then [] else cs[0] + Join(cs[1..])
  }

  lemma JoinNone()
    ensures Join([]) == []
  {
  }

  lemma {:induction false} JoinAppend(a: seq<Chunk>, b: seq<Chunk>)
    ensures Join(a + b) == Join(a) + Join(b)
  {
    if a == [] {
      assert a + b == b;
    } else {
      assert (a + b)[1..] == a[1..] + b;
      JoinAppend(a[1..], b);
    }
  }

  lemma JoinOne(c: Chunk)
    ensures Join([c]) == c
  {
    var one: seq<Chunk> := [c];
    assert one[1..] == [];
  }

  lemma JoinExtend(cs: seq<Chunk>, x: Bytes)
    requires cs != []
    ensures Join(Extend(cs, x)) == Join(cs) + x
  {
    var init, last := cs[..|cs| - 1], cs[|cs| - 1];
    assert cs == init + [last];
    JoinAppend(init, [last]);
    JoinAppend(init, [last + x]);
    JoinOne(last);
    JoinOne(last + x);
  }

  // ---------- checksums ----------

  // Farmhash has a type code on the wire but no implementation: it is created as Null.
  datatype Kind = Null | Crc32 | Crc32C

  /** A running checksum is determined by the bytes added so far, so a checksum
      algorithm is a function of those bytes. */
  type Digest = (Kind, Bytes) -> Bytes

  function TypeCode(k: Kind): (t: Byte) {
    match k case Null => 0 case Crc32 => 1 case Crc32C => 3
  }

  function SumSize(k: Kind): (n: nat) {
    if k == Null then 0 else 4
  }

  // ChecksumType.ChecksumSize and ChecksumType.New
  function WireSumSize(t: Byte): (n: nat) {
    if t == 1 || t == 2 || t == 3 then 4 else 0
  }

  function NewKind(t: Byte): (k: Kind) {
    if t == 1 then Crc32 else if t == 3 then Crc32C else Null
  }

  ghost predicate SumsSized(h: Digest) {
    forall k: Kind, d: Bytes :: |h(k, d)| == SumSize(k)
  }

  // ---------- fragments ----------

  const MORE_FRAGMENTS: Byte := 1

  predicate HasMore(flags: Byte) {
    flags % 2 == 1
  }

  /** A fragment as sent: contents are the bytes after the checksum. */
  datatype Fragment = Fragment(flags: Byte, csumType: Byte, csum: Bytes, contents: Bytes)

  /** The same fragment with its chunks told apart. */
  datatype Split = Split(flags: Byte, csum: Bytes, chunks: seq<Chunk>)

  function Seal(k: Kind, f: Split): (r: Fragment) {
    Fragment(f.flags, TypeCode(k), f.csum, Encode(f.chunks))
  }

  function SealAll(k: Kind, fs: seq<Split>): (r: seq<Fragment>)
    ensures |r| == |fs|
    ensures forall i :: 0 <= i < |fs| ==> r[i] == Seal(k, fs[i])
  {
    seq(|fs|, i requires 0 <= i < |fs| => Seal(k, fs[i]))
  }

  function ChunkLists(fs: seq<Split>): (r: seq<seq<Chunk>>)
    ensures |r| == |fs|
    ensures forall i :: 0 <= i < |fs| ==> r[i] == fs[i].chunks
  {
    seq(|fs|, i requires 0 <= i < |fs| => fs[i].chunks)
  }

  function Data(fs: seq<Split>): (r: Bytes) {
    if fs == [] then [] else Join(fs[0].chunks) + Data(fs[1..])
  }

  lemma {:induction false} DataAppend(a: seq<Split>, b: seq<Split>)
    ensures Data(a + b) == Data(a) + Data(b)
  {
    if a == [] {
      assert a + b == b;
    } else {
      assert (a + b)[1..] == a[1..] + b;
      DataAppend(a[1..], b);
    }
  }

  lemma DataCons(seen: Bytes, fs: seq<Split>)
    ensures fs == [] ==> seen + Data(fs) == seen
    ensures fs != [] ==> seen + Data(fs) == seen + Join(fs[0].chunks) + Data(fs[1..])
  {
  }

  ghost predicate FragmentOk(h: Digest, k: Kind, seen: Bytes, f: Split, more: bool) {
    && f.chunks != []
    && |Encode(f.chunks)| < 0x1_0000
    && f.csum == h(k, seen + Join(f.chunks))
    && HasMore(f.flags) == more
  }

  /** A run of fragments that continues a message of which `seen` was already
      checksummed: each fragment's checksum covers everything up to its end, and
      all but the last announce a successor; `lastMore` says whether the last does. */
  ghost predicate Chain(h: Digest, k: Kind, seen: Bytes, fs: seq<Split>, lastMore: bool)
    decreases |fs|
  {
    fs != [] ==>
      && FragmentOk(h, k, seen, fs[0], |fs| > 1 || lastMore)
      && Chain(h, k, seen + Join(fs[0].chunks), fs[1..], lastMore)
  }

  lemma ChainCons(h: Digest, k: Kind, seen: Bytes, a: seq<Split>, b: seq<Split>, lastMore: bool)
    requires a != []
    requires FragmentOk(h, k, seen, a[0], |a| > 1 || b != [] || lastMore)
    requires Chain(h, k, seen + Join(a[0].chunks), a[1..] + b, lastMore)
    ensures Chain(h, k, seen, a + b, lastMore)
  {
    assert (a + b)[1..] == a[1..] + b;
  }

  lemma {:induction false} ChainAppend(h: Digest, k: Kind, seen: Bytes, a: seq<Split>, b: seq<Split>, lastMore: bool)
    requires Chain(h, k, seen, a, b != [] || lastMore)
    requires Chain(h, k, seen + Data(a), b, lastMore)
    ensures Chain(h, k, seen, a + b, lastMore)
    decreases |a|
  {
    DataCons(seen, a);
    if a == [] {
      assert a + b == b;
    } else {
      ChainAppend(h, k, seen + Join(a[0].chunks), a[1..], b, lastMore);
      ChainCons(h, k, seen, a, b, lastMore);
    }
  }

  lemma {:induction false} ChainChunks(h: Digest, k: Kind, seen: Bytes, fs: seq<Split>, lastMore: bool)
    requires Chain(h, k, seen, fs, lastMore)
    ensures forall i :: 0 <= i < |fs| ==> fs[i].chunks != []
    decreases |fs|
  {
    if fs == [] {
    } else {
      ChainChunks(h, k, seen + Join(fs[0].chunks), fs[1..], lastMore);
    }
  }

  // ---------- messages ----------

  // A fragment with its chunks told apart, as a receiver splits it.
  function SplitOf(f: Fragment): (s: Split) {
    Split(f.flags, f.csum, Parse(RBuf(f.contents, false)).0)
  }

  function SplitAll(fragments: seq<Fragment>): (fs: seq<Split>)
    ensures |fs| == |fragments|
    ensures forall i :: 0 <= i < |fs| ==> fs[i] == SplitOf(fragments[i])
  {
    seq(|fragments|, i requires 0 <= i < |fragments| => SplitOf(fragments[i]))
  }

  /** Fragments that make a well-formed message of these arguments: they split cleanly,
      every checksum covers all chunks up to the end of its fragment, all but the last
      announce a successor, and the chunk lists glued together are the arguments. */
  ghost predicate IsMessage(h: Digest, k: Kind, fragments: seq<Fragment>, args: seq<Chunk>, lastMore: bool) {
    var fs := SplitAll(fragments);
    && fs != [] && fragments == SealAll(k, fs) && Chain(h, k, [], fs, lastMore)
    && (forall i :: 0 <= i < |fs| ==> fs[i].chunks != [])
    && Glue(ChunkLists(fs)) == args
  }

  lemma {:induction false} ChainFits(h: Digest, k: Kind, seen: Bytes, fs: seq<Split>, lastMore: bool)
    requires Chain(h, k, seen, fs, lastMore)
    ensures forall i :: 0 <= i < |fs| ==> |Encode(fs[i].chunks)| < 0x1_0000
    decreases |fs|
  {
    if fs == [] {
    } else {
      ChainFits(h, k, seen + Join(fs[0].chunks), fs[1..], lastMore);
    }
  }

  /** Sealed fragments split into what was sealed. */
  lemma MessageOf(h: Digest, k: Kind, fs: seq<Split>, lastMore: bool)
    requires fs != [] && Chain(h, k, [], fs, lastMore)
    ensures SplitAll(SealAll(k, fs)) == fs
    ensures forall i :: 0 <= i < |fs| ==> fs[i].chunks != []
    ensures IsMessage(h, k, SealAll(k, fs), Glue(ChunkLists(fs)), lastMore)
  {
    hide Chain, Parse, Encode, Glue;
    ChainFits(h, k, [], fs, lastMore);
    ChainChunks(h, k, [], fs, lastMore);
    forall i | 0 <= i < |fs|
      ensures SplitOf(Seal(k, fs[i])) == fs[i]
    {
      ParseEncode(fs[i].chunks);
    }
    assert SplitAll(SealAll(k, fs)) == fs;
  }
}
