/** The reader accepts exactly well-formed messages (fragmenting_reader.go:113-314): a fragment
    is taken or refused by its bytes alone, a well-formed message reads back, and whatever
    reads to completion was one. */
module ReaderSound {
  import opened Buffers
  import opened Chunks
  import opened ReaderModel

  // ---------- splitting any contents ----------

  // Bytes from which no chunk can be taken: none, half a size, or a size that is too large.
  predicate Stuck(tail: Bytes) {
    |tail| < 2 || GetUint(tail[..2]) > |tail| - 2
  }

  function StuckStatus(tail: Bytes): (status: ParseStatus) {
    if tail == [] then Parsed else if |tail| == 1 then BufferTooSmall else ChunkExceedsFragment
  }

  /** Chunks come off the front of a fragment's contents until the rest has no chunk in
      front, and that rest alone decides how the split ends. */
  lemma {:induction false} ParseTail(cs: seq<Chunk>, tail: Bytes)
    requires |Encode(cs) + tail| < 0x1_0000 && Stuck(tail)
    ensures tail != [] || Parse(RBuf(Encode(cs) + tail, false)).0 == cs
    ensures Parse(RBuf(Encode(cs) + tail, false)).1 == StuckStatus(tail)
    decreases |cs|
  {
    if cs == [] {
      assert Encode(cs) + tail == tail;
      StuckParse(tail);
    } else {
      hide Encode, RBuf.ReadUint, RBuf.ReadBytes, U16, StuckStatus;
      var b, c, rest := Encode(cs) + tail, cs[0], Encode(cs[1..]) + tail;
      EncodeTail(cs, tail);
      HeadRead(c, rest);
      ParseTail(cs[1..], tail);
      ParseCons(RBuf(b, false), c, RBuf(b[2..], false), RBuf(rest, false));
      assert [c] + cs[1..] == cs;
    }
  }

  lemma StuckParse(tail: Bytes)
    requires |tail| < 0x1_0000 && Stuck(tail)
    ensures Parse(RBuf(tail, false)).1 == StuckStatus(tail)
    ensures tail == [] ==> Parse(RBuf(tail, false)).0 == []
  {
    if |tail| == 1 {
      assert Parse(RBuf(tail, true)).1 == BufferTooSmall;
    }
  }

  lemma EncodeTail(cs: seq<Chunk>, tail: Bytes)
    requires cs != []
    ensures Encode(cs) + tail == U16(|cs[0]|) + (cs[0] + (Encode(cs[1..]) + tail))
  {
    var rest := Encode(cs[1..]);
    assert Encode(cs) == U16(|cs[0]|) + cs[0] + rest;
    hide Encode, U16;
    Regroup(U16(|cs[0]|), cs[0], rest, tail);
  }

  lemma Regroup(a: Bytes, b: Bytes, c: Bytes, d: Bytes)
    ensures a + b + c + d == a + (b + (c + d))
  {
  }

  lemma HeadRead(c: Chunk, rest: Bytes)
    requires |U16(|c|) + (c + rest)| < 0x1_0000
    ensures var b := U16(|c|) + (c + rest);
      && b[2..] == c + rest
      && RBuf(b, false).ReadUint(2) == (|c|, RBuf(b[2..], false))
      && RBuf(b[2..], false).ReadBytes(|c|) == (c, RBuf(rest, false))
  {
    hide PutUint, GetUint, U16;
    var b := U16(|c|) + (c + rest);
    U16RoundTrip(|c|);
    assert b[..2] == U16(|c|);
    assert (c + rest)[..|c|] == c && (c + rest)[|c|..] == rest;
  }

  /** Every contents is some chunks followed by such a rest. */
  lemma {:induction false} SplitsSomehow(b: Bytes) returns (cs: seq<Chunk>, tail: Bytes)
    ensures b == Encode(cs) + tail && Stuck(tail)
    decreases |b|
  {
    if Stuck(b) {
      cs, tail := [], b;
    } else {
      var n := GetUint(b[..2]);
      var rest;
      rest, tail := SplitsSomehow(b[2 + n..]);
      var c := b[2..2 + n];
      cs := [c] + rest;
      BytesRoundTrip(b[..2]);
      assert cs[1..] == rest;
      assert b == b[..2] + c + b[2 + n..];
    }
  }

  // ---------- one fragment ----------

  function KindOf(running: Running, f: Fragment): (k: Kind) {
    if running.Running? then running.kind else NewKind(f.csumType)
  }

  /** What taking this fragment comes to, told by its bytes: its contents are the chunks cs
      followed by a rest that no chunk can be taken from. */
  function Verdict(h: Digest, running: Running, seen: Bytes, f: Fragment, cs: seq<Chunk>, tail: Bytes): (e: Error) {
    if running.Running? && f.csumType != TypeCode(running.kind) then MismatchedChecksumTypes
    else if |tail| >= 2 then ChunkExceedsFragmentSize
    else if |tail| == 1 then FragmentTooShort
    else if f.csum != h(KindOf(running, f), seen + Join(cs)) then MismatchedChecksums
    else if cs == [] then EmptyFragment
    else NoError
  }

  /** A fragment is taken, or refused with the error it deserves; once taken its first chunk
      is current, the others are to come, and its bytes have been checksummed. */
  lemma FetchDecides(h: Digest, r: State, cs: seq<Chunk>, tail: Bytes)
    requires r.err == NoError && r.pending != [] && |r.pending[0].contents| < 0x1_0000
    requires r.pending[0].contents == Encode(cs) + tail && Stuck(tail)
    ensures var f, r' := r.pending[0], Fetch(h, r);
      && r'.err == Verdict(h, r.csum, Seen(r), f, cs, tail)
      && (r'.err == NoError ==>
            r' == State(r.phase, cs[0], cs[1..], HasMore(f.flags), Running(KindOf(r.csum, f), Seen(r) + Join(cs)),
                        r.pending[1..], NoError))
  {
    hide Parse, Encode, Join;
    ParseTail(cs, tail);
    assert [] + Join(cs) == Join(cs);
  }

  /** Fetching succeeds exactly if there is a fragment, of the running type, that is the
      encoding of some chunks whose bytes, after the ones seen before, have its checksum. */
  lemma FetchIff(h: Digest, r: State)
    requires r.pending != [] ==> |r.pending[0].contents| < 0x1_0000
    ensures Fetch(h, r).err == NoError <==>
      && r.err == NoError && r.pending != []
      && exists cs ::
        && r.pending[0].contents == Encode(cs)
        && Verdict(h, r.csum, Seen(r), r.pending[0], cs, []) == NoError
  {
    hide Fetch;
    if r.err != NoError || r.pending == [] {
      FetchNothing(h, r);
    } else {
      var f := r.pending[0];
      var cs, tail := SplitsSomehow(f.contents);
      FetchDecides(h, r, cs, tail);
      if tail == [] {
        assert Encode(cs) + tail == Encode(cs);
      }
      if ds :| f.contents == Encode(ds) && Verdict(h, r.csum, Seen(r), f, ds, []) == NoError {
        assert Encode(ds) + [] == Encode(ds);
        FetchDecides(h, r, ds, []);
      }
    }
  }

  lemma FetchNothing(h: Digest, r: State)
    requires r.err != NoError || r.pending == []
    ensures Fetch(h, r).err == if r.err != NoError then r.err else ReceiverFailed
  {
  }

  // ---------- a well-formed message reads back ----------

  /** A reader between arguments of a well-formed message of which `args` remain. */
  ghost predicate Ready(h: Digest, k: Kind, r: State, fs: seq<Split>, args: seq<Chunk>) {
    || (r.phase == Waiting && Reads(h, k, r, fs, args))
    || (r == Initial(SealAll(k, fs)) && fs != [] && Chain(h, k, [], fs, false)
        && (forall i :: 0 <= i < |fs| ==> fs[i].chunks != []) && args == Glue(ChunkLists(fs)))
  }

  lemma BeginReads(h: Digest, k: Kind, r: State, fs: seq<Split>, args: seq<Chunk>, last: bool)
      returns (fs': seq<Split>)
    requires Ready(h, k, r, fs, args)
    ensures var r' := BeginArgument(h, r, last);
            && Reads(h, k, r', fs', args)
            && r'.phase == if last then InLastArgument else InArgument
  {
    hide Fetch, Chain;
    if r.phase == Waiting {
      fs' := fs;
    } else {
      FetchReads(h, k, r, fs);
      fs' := fs[1..];
    }
  }

  // Close after EOF: the next argument is in hand, or this was the last one.
  lemma CloseReads(h: Digest, k: Kind, r: State, fs: seq<Split>, args: seq<Chunk>, last: bool)
      returns (fs': seq<Split>)
    requires Reads(h, k, r, fs, args) && last == (|args| == 1)
    requires r.phase == if last then InLastArgument else InArgument
    requires r.cur == [] && (r.rem != [] || !r.more)
    ensures var r' := Close(h, r);
            && r'.err == NoError
            && if last then r'.phase == Complete else Ready(h, k, r', fs', args[1..])
  {
    hide Fetch, Chain;
    if last {
      CloseLast(h, k, r, fs, args);
      fs' := fs;
    } else {
      assert fs == [] ==> Glue(ChunkLists(fs)) == [[]];
      fs' := CloseAligns(h, k, r, fs, args);
    }
  }

  lemma ArgReads(h: Digest, k: Kind, r: State, fs: seq<Split>, args: seq<Chunk>) returns (fs': seq<Split>)
    requires Ready(h, k, r, fs, args) && args != []
    ensures var (r', arg, ok) := ReadArg(h, r, |args| == 1);
            && ok && arg == args[0] && r'.err == NoError
            && if |args| == 1 then r'.phase == Complete else Ready(h, k, r', fs', args[1..])
  {
    hide BeginArgument, Read, Close, Reads, ReadToEnd, Ready;
    var last := |args| == 1;
    var r0 := BeginArgument(h, r, last);
    fs' := BeginReads(h, k, r, fs, args, last);
    var n := |args[0]| + 1;
    fs' := ReadReads(h, k, r0, fs', args, n);
    ReadThenEnd(h, r0, n);
    var (r1, data, eof) := Read(h, r0, n);
    assert data == args[0] && eof;
    assert args[0][|args[0]|..] == [];
    fs' := CloseReads(h, k, r1, fs', [[]] + args[1..], last);
    assert ([[]] + args[1..])[1..] == args[1..];
  }

  /** A well-formed message reads back as its arguments. */
  lemma {:induction false} ArgsRead(h: Digest, k: Kind, r: State, fs: seq<Split>, args: seq<Chunk>)
    requires Ready(h, k, r, fs, args) && args != []
    ensures ReadArgs(h, r, |args|).1 == args && ReadArgs(h, r, |args|).2
    decreases |args|
  {
    hide Ready, ReadArg;
    var fs' := ArgReads(h, k, r, fs, args);
    if |args| == 1 {
      assert ReadArgs(h, ReadArg(h, r, true).0, 0).1 == [];
    } else {
      ArgsRead(h, k, ReadArg(h, r, false).0, fs', args[1..]);
      assert [args[0]] + args[1..] == args;
    }
  }

  // ---------- what reads to completion was a well-formed message ----------

  // What every fragment that comes off the wire is like.
  predicate FromWire(f: Fragment) {
    f.csumType < 4 && |f.csum| == WireSumSize(f.csumType) && |f.contents| < 0x1_0000
  }

  predicate AllFromWire(fragments: seq<Fragment>) {
    forall i :: 0 <= i < |fragments| ==> FromWire(fragments[i])
  }

  /** What a reader without an error has been given so far: `taken` are the fragments it has
      taken, with right checksums and flags; they denote the arguments `done`, then one of
      which `part` has been read and the current chunk follows, then the remaining chunks. */
  ghost predicate Took(h: Digest, k: Kind, r: State, all: seq<Fragment>, taken: seq<Split>, done: seq<Bytes>,
      part: Bytes) {
    && r.err == NoError && r.csum == Running(k, Data(taken))
    && all == SealAll(k, taken) + r.pending
    && taken != [] && Chain(h, k, [], taken, r.more)
    && (forall i :: 0 <= i < |taken| ==> taken[i].chunks != [])
    && Glue(ChunkLists(taken)) == done + [part + r.cur] + r.rem
  }

  // A fragment that is taken is the sealed form of its chunks.
  lemma TakenIs(h: Digest, r: State) returns (s: Split)
    requires SumsSized(h) && Fetch(h, r).err == NoError && AllFromWire(r.pending)
    ensures r.err == NoError && r.pending != []
    ensures var k, r' := KindOf(r.csum, r.pending[0]), Fetch(h, r);
      && r.pending[0] == Seal(k, s) && FragmentOk(h, k, Seen(r), s, HasMore(s.flags))
      && r' == State(r.phase, s.chunks[0], s.chunks[1..], HasMore(s.flags), Running(k, Seen(r) + Join(s.chunks)),
                     r.pending[1..], NoError)
  {
    hide Fetch, Encode, Join;
    FetchNothingMore(h, r);
    var f := r.pending[0];
    assert FromWire(f);
    var cs, tail := SplitsSomehow(f.contents);
    FetchDecides(h, r, cs, tail);
    assert Encode(cs) + [] == Encode(cs);
    s := Split(f.flags, f.csum, cs);
  }

  lemma FetchNothingMore(h: Digest, r: State)
    requires Fetch(h, r).err == NoError
    ensures r.err == NoError && r.pending != []
  {
  }

  lemma FirstTaken(h: Digest, fragments: seq<Fragment>) returns (k: Kind, taken: seq<Split>)
    requires SumsSized(h) && AllFromWire(fragments) && Fetch(h, Initial(fragments)).err == NoError
    ensures Took(h, k, Fetch(h, Initial(fragments)), fragments, taken, [], [])
  {
    hide Fetch, Encode, Join, SumsSized, Chain, Glue, Data;
    var s := TakenIs(h, Initial(fragments));
    var none: seq<Split>, nothing: seq<Bytes> := [], [];
    k, taken := KindOf(NoChecksum, fragments[0]), [s];
    OneChain(h, k, [], s);
    SealMore(k, none, s, fragments);
    DataMore(none, s);
    DataCons([], none);
    assert none + [s] == taken && SealAll(k, none) + fragments == fragments && [] + Data(none) == Data(none);
    GlueOne(s.chunks);
    assert ChunkLists(taken) == [s.chunks];
    assert nothing + [[] + s.chunks[0]] + s.chunks[1..] == s.chunks by {
      assert [] + s.chunks[0] == s.chunks[0];
    }
  }

  lemma NextTaken(h: Digest, k: Kind, r: State, all: seq<Fragment>, taken: seq<Split>, done: seq<Bytes>, part: Bytes)
      returns (taken': seq<Split>)
    requires SumsSized(h) && AllFromWire(r.pending) && Took(h, k, r, all, taken, done, part)
    requires r.cur == [] && r.rem == [] && r.more && Fetch(h, r).err == NoError
    ensures Took(h, k, Fetch(h, r), all, taken', done, part) && AllFromWire(Fetch(h, r).pending)
  {
    hide Fetch, Encode, Join, SumsSized, Chain, Glue, Data;
    var s := TakenIs(h, r);
    taken' := taken + [s];
    SealMore(k, taken, s, r.pending);
    OneChain(h, k, Data(taken), s);
    assert [] + Data(taken) == Data(taken);
    ChainAppend(h, k, [], taken, [s], HasMore(s.flags));
    DataMore(taken, s);
    assert ChunkLists(taken') == ChunkLists(taken) + [s.chunks];
    GlueSnoc(ChunkLists(taken), s.chunks);
    GlueTaken(done, part, s.chunks);
  }

  lemma OneChain(h: Digest, k: Kind, seen: Bytes, s: Split)
    requires FragmentOk(h, k, seen, s, HasMore(s.flags))
    ensures Chain(h, k, seen, [s], HasMore(s.flags))
  {
    assert [s][1..] == [];
  }

  lemma SealMore(k: Kind, taken: seq<Split>, s: Split, pending: seq<Fragment>)
    requires pending != [] && pending[0] == Seal(k, s)
    ensures SealAll(k, taken) + pending == SealAll(k, taken + [s]) + pending[1..]
  {
    assert SealAll(k, taken + [s]) == SealAll(k, taken) + [Seal(k, s)];
  }

  lemma DataMore(taken: seq<Split>, s: Split)
    ensures Data(taken + [s]) == Data(taken) + Join(s.chunks)
  {
    DataAppend(taken, [s]);
    assert [s][1..] == [];
    assert Join(s.chunks) + [] == Join(s.chunks);
  }

  lemma GlueTaken(done: seq<Bytes>, part: Bytes, cs: seq<Chunk>)
    requires cs != []
    ensures Glue2(done + [part + []] + [], cs) == done + [part + cs[0]] + cs[1..]
  {
    assert part + [] == part;
    assert done + [part + []] + [] == done + [part];
  }

  lemma {:induction false} EndTook(h: Digest, k: Kind, r: State, all: seq<Fragment>, taken: seq<Split>,
      done: seq<Bytes>,
                                   part: Bytes)
      returns (taken': seq<Split>)
    requires SumsSized(h) && AllFromWire(r.pending) && Took(h, k, r, all, taken, done, part) && ReadToEnd(h, r).2
    ensures var (r', data, _) := ReadToEnd(h, r);
      && Took(h, k, r', all, taken', done, part + data) && AllFromWire(r'.pending)
      && r'.phase == r.phase && r'.cur == [] && (r'.rem != [] || !r'.more)
    decreases |r.pending|
  {
    hide Fetch, SumsSized, Took, AllFromWire;
    var r1 := r.(cur := []);
    CurTook(h, k, r, all, taken, done, part);
    if r.rem != [] || !r.more {
      taken' := taken;
    } else {
      taken' := NextTaken(h, k, r1, all, taken, done, part + r.cur);
      var r2 := Fetch(h, r1);
      taken' := EndTook(h, k, r2, all, taken', done, part + r.cur);
      var rest := ReadToEnd(h, r2).1;
      assert part + r.cur + rest == part + (r.cur + rest);
    }
  }

  lemma CurTook(h: Digest, k: Kind, r: State, all: seq<Fragment>, taken: seq<Split>, done: seq<Bytes>, part: Bytes)
    requires Took(h, k, r, all, taken, done, part)
    ensures Took(h, k, r.(cur := []), all, taken, done, part + r.cur)
  {
    assert part + r.cur + [] == part + r.cur;
  }

  // One argument read to its end and closed.
  lemma ArgTook(h: Digest, k: Kind, r: State, all: seq<Fragment>, taken: seq<Split>, done: seq<Bytes>, last: bool)
      returns (taken': seq<Split>)
    requires SumsSized(h) && AllFromWire(r.pending) && Took(h, k, r, all, taken, done, []) && r.Reading()
    requires (r.phase == InLastArgument) == last && ReadToEnd(h, r).2 && Close(h, ReadToEnd(h, r).0).err == NoError
    ensures var (r', arg, _) := ReadToEnd(h, r);
      if last then Close(h, r').phase == Complete && taken' != [] && Chain(h, k, [], taken', false)
                   && all == SealAll(k, taken') + r'.pending
                   && (forall i :: 0 <= i < |taken'| ==> taken'[i].chunks != [])
                     && Glue(ChunkLists(taken')) == done + [arg]
      else Close(h, r').phase == Waiting && AllFromWire(Close(h, r').pending)
           && Took(h, k, Close(h, r'), all, taken', done + [arg], [])
  {
    hide Fetch, Chain, Glue, SumsSized, ReadToEnd;
    taken' := EndTook(h, k, r, all, taken, done, []);
    var (r', arg, _) := ReadToEnd(h, r);
    assert [] + arg == arg && arg + [] == arg;
    if last {
      assert done + [arg] + [] == done + [arg];
    } else {
      var c, cs := r'.rem[0], r'.rem[1..];
      assert [] + c == c;
      assert done + [arg] + r'.rem == done + [arg] + [c] + cs;
    }
  }

  // A reader about to begin an argument, with these arguments read.
  ghost predicate Between(h: Digest, r: State, all: seq<Fragment>, done: seq<Bytes>) {
    || (r == Initial(all) && done == [] && AllFromWire(all))
    || (r.phase == Waiting && AllFromWire(r.pending) && exists k, taken :: Took(h, k, r, all, taken, done, []))
  }

  lemma BeginTook(h: Digest, r: State, all: seq<Fragment>, done: seq<Bytes>, last: bool)
      returns (k: Kind, taken: seq<Split>)
    requires SumsSized(h) && Between(h, r, all, done) && BeginArgument(h, r, last).err == NoError
    ensures var r0 := BeginArgument(h, r, last);
      && Took(h, k, r0, all, taken, done, []) && AllFromWire(r0.pending)
      && r0.phase == if last then InLastArgument else InArgument
  {
    hide Fetch, Chain, Glue, SumsSized;
    if r == Initial(all) && done == [] && AllFromWire(all) {
      k, taken := FirstTaken(h, all);
      PendingTail(h, Initial(all));
    } else {
      k, taken :| Took(h, k, r, all, taken, done, []);
    }
  }

  lemma PendingTail(h: Digest, r: State)
    requires Fetch(h, r).err == NoError && AllFromWire(r.pending)
    ensures AllFromWire(Fetch(h, r).pending)
  {
  }

  /** Whatever is read to completion, argument by argument, was a well-formed message of
      exactly what was read. */
  lemma {:induction false} ArgsTook(h: Digest, r: State, all: seq<Fragment>, done: seq<Bytes>, count: nat)
      returns (k: Kind, n: nat)
    requires SumsSized(h) && Between(h, r, all, done) && count > 0 && ReadArgs(h, r, count).2
    ensures n <= |all| && IsMessage(h, k, all[..n], done + ReadArgs(h, r, count).1, false)
    decreases count
  {
    hide Fetch, SumsSized, Took, BeginArgument, ReadToEnd, Close, IsMessage, Chain, Glue, AllFromWire;
    var last := count == 1;
    var r0 := BeginArgument(h, r, last);
    FailedStays(h, r0);
    var taken;
    k, taken := BeginTook(h, r, all, done, last);
    TookOk(h, k, r0, all, taken, done);
    taken := ArgTook(h, k, r0, all, taken, done, last);
    var (r1, arg, _) := ReadToEnd(h, r0);
    if last {
      n := |taken|;
      assert all[..n] == SealAll(k, taken);
      MessageOf(h, k, taken, false);
      assert [arg] + [] == [arg];
    } else {
      k, n := ArgsTook(h, Close(h, r1), all, done + [arg], count - 1);
      var rest := ReadArgs(h, Close(h, r1), count - 1).1;
      assert done + [arg] + rest == done + ([arg] + rest);
    }
  }

  lemma FailedStays(h: Digest, r: State)
    ensures ReadToEnd(h, r).2 ==> r.err == NoError
  {
  }

  lemma TookOk(h: Digest, k: Kind, r: State, all: seq<Fragment>, taken: seq<Split>, done: seq<Bytes>)
    requires Took(h, k, r, all, taken, done, [])
    ensures r.err == NoError
  {
  }

  // ---------- fragments after the last ----------

  function WithMore(r: State, extra: seq<Fragment>): (r': State) {
    r.(pending := r.pending + extra)
  }

  lemma FetchMore(h: Digest, r: State, extra: seq<Fragment>)
    requires Fetch(h, r).err == NoError
    ensures Fetch(h, WithMore(r, extra)) == WithMore(Fetch(h, r), extra)
  {
    hide Parse, Join;
    assert (r.pending + extra)[1..] == r.pending[1..] + extra;
  }

  lemma {:induction false} EndMore(h: Digest, r: State, extra: seq<Fragment>)
    requires ReadToEnd(h, r).2
    ensures var (r', data, _) := ReadToEnd(h, r);
      ReadToEnd(h, WithMore(r, extra)) == (WithMore(r', extra), data, true)
    decreases |r.pending|
  {
    hide Fetch;
    if r.rem != [] || !r.more {
    } else {
      var r1 := r.(cur := []);
      FetchMore(h, r1, extra);
      EndMore(h, Fetch(h, r1), extra);
    }
  }

  lemma StepMore(h: Digest, r: State, last: bool, extra: seq<Fragment>)
    ensures BeginArgument(h, r, last).err == NoError ==>
      BeginArgument(h, WithMore(r, extra), last) == WithMore(BeginArgument(h, r, last), extra)
    ensures Close(h, r).err == NoError ==> Close(h, WithMore(r, extra)) == WithMore(Close(h, r), extra)
  {
    hide Fetch;
    if Fetch(h, r).err == NoError {
      FetchMore(h, r, extra);
    }
    if Fetch(h, r.(phase := Waiting)).err == NoError {
      FetchMore(h, r.(phase := Waiting), extra);
    }
  }

  // The reader does not look at what comes after the message.
  lemma {:induction false} ArgsMore(h: Digest, r: State, count: nat, extra: seq<Fragment>)
    requires ReadArgs(h, r, count).2
    ensures ReadArgs(h, WithMore(r, extra), count).1 == ReadArgs(h, r, count).1
      && ReadArgs(h, WithMore(r, extra), count).2
    decreases count
  {
    hide BeginArgument, Close, ReadToEnd;
    if count == 0 {
    } else {
      var r0 := BeginArgument(h, r, count == 1);
      FailedStays(h, r0);
      StepMore(h, r, count == 1, extra);
      EndMore(h, r0, extra);
      var r1 := ReadToEnd(h, r0).0;
      StepMore(h, r1, false, extra);
      ArgsMore(h, Close(h, r1), count - 1, extra);
    }
  }

  // These fragments start with a well-formed message of these arguments.
  ghost predicate StartsWith(h: Digest, fragments: seq<Fragment>, args: seq<Bytes>) {
    exists k: Kind, n: nat :: n <= |fragments| && IsMessage(h, k, fragments[..n], args, false)
  }

  lemma WholeStarts(h: Digest, k: Kind, fragments: seq<Fragment>, args: seq<Bytes>)
    requires IsMessage(h, k, fragments, args, false)
    ensures StartsWith(h, fragments, args)
  {
    hide IsMessage;
    assert fragments[..|fragments|] == fragments;
  }

  lemma FailedAlready(h: Digest, r: State)
    ensures r.err != NoError ==> ReadToEnd(h, r) == (r, [], false)
  {
  }

  lemma MessageReads(h: Digest, fragments: seq<Fragment>, args: seq<Bytes>)
    requires StartsWith(h, fragments, args)
    ensures args != [] && ReadArgs(h, Initial(fragments), |args|).1 == args && ReadArgs(h, Initial(fragments), |args|).2
  {
    hide ReadArgs, Chain;
    var k: Kind, n: nat :| n <= |fragments| && IsMessage(h, k, fragments[..n], args, false);
    ArgsRead(h, k, Initial(fragments[..n]), SplitAll(fragments[..n]), args);
    ArgsMore(h, Initial(fragments[..n]), |args|, fragments[n..]);
    assert fragments[..n] + fragments[n..] == fragments;
  }

  /** Reading a number of arguments succeeds exactly if the fragments start with a
      well-formed message of that many, and yields those: no fragment with a wrong type, a
      wrong checksum or broken chunks gets through. */
  lemma ReadsExactly(h: Digest, fragments: seq<Fragment>, count: nat)
    requires SumsSized(h) && AllFromWire(fragments) && count > 0
    ensures ReadArgs(h, Initial(fragments), count).2 <==>
      exists args :: |args| == count && StartsWith(h, fragments, args)
    ensures forall args :: |args| == count && StartsWith(h, fragments, args) ==>
      ReadArgs(h, Initial(fragments), count).1 == args
  {
    hide ReadArgs, IsMessage, SumsSized, StartsWith;
    forall args | |args| == count && StartsWith(h, fragments, args)
      ensures ReadArgs(h, Initial(fragments), count).1 == args && ReadArgs(h, Initial(fragments), count).2
    {
      MessageReads(h, fragments, args);
    }
    if ReadArgs(h, Initial(fragments), count).2 {
      MessageRead(h, fragments, count);
      ReadAll(h, Initial(fragments), count);
    }
  }

  lemma MessageRead(h: Digest, fragments: seq<Fragment>, count: nat)
    requires SumsSized(h) && AllFromWire(fragments) && count > 0 && ReadArgs(h, Initial(fragments), count).2
    ensures StartsWith(h, fragments, ReadArgs(h, Initial(fragments), count).1)
  {
    hide ReadArgs, IsMessage, SumsSized;
    var k, n := ArgsTook(h, Initial(fragments), fragments, [], count);
    var args := ReadArgs(h, Initial(fragments), count).1;
    assert [] + args == args;
  }

  lemma {:induction false} ReadAll(h: Digest, r: State, count: nat)
    requires ReadArgs(h, r, count).2
    ensures |ReadArgs(h, r, count).1| == count
    decreases count
  {
    hide ReadArg;
    if count == 0 {
    } else {
      ReadAll(h, ReadArg(h, r, count == 1).0, count - 1);
    }
  }

  // The reader is complete after the last argument, and has failed if one could not be read.
  lemma {:induction false} EndsComplete(h: Digest, r: State, count: nat)
    requires count > 0
    ensures ReadArgs(h, r, count).2 <==>
      && ReadArgs(h, r, count).0.phase == Complete
      && ReadArgs(h, r, count).0.err == NoError
    decreases count
  {
    hide Fetch;
    var r0 := BeginArgument(h, r, count == 1);
    EndFails(h, r0);
    if count > 1 && ReadArg(h, r, false).2 {
      EndsComplete(h, ReadArg(h, r, false).0, count - 1);
    }
  }

  lemma {:induction false} EndFails(h: Digest, r: State)
    ensures ReadToEnd(h, r).2 <==> ReadToEnd(h, r).0.err == NoError
    ensures ReadToEnd(h, r).0.phase == r.phase && (ReadToEnd(h, r).2 ==> r.Reading())
    decreases |r.pending|
  {
    hide Fetch;
    if r.err == NoError && r.Reading() && r.rem == [] && r.more && Fetch(h, r.(cur := [])).err == NoError {
      EndFails(h, Fetch(h, r.(cur := [])));
    }
  }
}
