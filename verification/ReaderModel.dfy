/** What the fragmenting reader (fragmenting_reader.go) does: it reassembles arguments from
    received fragments, checking the running checksum of each. */
module ReaderModel {
  import opened Buffers
  import opened Chunks

  datatype Phase = Start | InArgument | InLastArgument | Waiting | Complete

  datatype Error =
    | NoError | AlreadyReading | NotReading | AlreadyComplete
    | MoreDataInArgument | ExpectedMoreArguments | NoMoreFragments
    | MismatchedChecksumTypes | MismatchedChecksums | ChunkExceedsFragmentSize
    | FragmentTooShort | EmptyFragment | ReceiverFailed

  datatype Running = NoChecksum | Running(kind: Kind, summed: Bytes)

  /** `pending` are the fragments the receiver has yet to deliver; asking for one
      when there is none fails, as it does when the call times out. */
  datatype State = State(phase: Phase, cur: Chunk, rem: seq<Chunk>, more: bool,
                         csum: Running, pending: seq<Fragment>, err: Error) {
    predicate Reading() {
      phase == InArgument || phase == InLastArgument
    }
  }

  function Initial(fragments: seq<Fragment>): (r: State) {
    State(Start, [], [], true, NoChecksum, fragments, NoError)
  }

  // recvAndParseNextFragment
  function Fetch(h: Digest, r: State): (r': State)
    ensures r'.phase == r.phase
    ensures r'.err == NoError ==> r.err == NoError && |r'.pending| < |r.pending|
  {
    if r.err != NoError then r
    else if r.pending == [] then r.(err := ReceiverFailed)
    else
      var f := r.pending[0];
      var r1 := r.(pending := r.pending[1..]);
      if r.csum.Running? && TypeCode(r.csum.kind) != f.csumType then r1.(err := MismatchedChecksumTypes)
      else
        var (cs, status) := Parse(RBuf(f.contents, false));
        var csum := match r.csum
          case NoChecksum => Running(NewKind(f.csumType), Join(cs))
          case Running(k, summed) => Running(k, summed + Join(cs));
        var r2 := r1.(more := HasMore(f.flags), csum := csum, rem := cs);
        if status == ChunkExceedsFragment then r2.(err := ChunkExceedsFragmentSize)
        else if status == BufferTooSmall then r2.(err := FragmentTooShort)
        else if f.csum != h(csum.kind, csum.summed) then r2.(err := MismatchedChecksums)
        else if cs == [] then r2.(err := EmptyFragment)
        else r2.(cur := cs[0], rem := cs[1..])
  }

  function BeginArgument(h: Digest, r: State, last: bool): (r': State) {
    if r.err != NoError then r
    else if r.Reading() then r.(err := AlreadyReading)
    else if r.phase == Complete then r.(err := AlreadyComplete)
    else
      var r1 := if r.phase == Start then Fetch(h, r) else r;
      if r1.err != NoError then r1
      else r1.(phase := if last then InLastArgument else InArgument)
  }

  /** Reads up to n bytes. The flag is io.EOF: fewer than n bytes were left in the
      argument, which is only known once a further chunk or the end is seen. */
  function Read(h: Digest, r: State, n: nat): (res: (State, Bytes, bool))
    decreases |r.pending|
  {
    if r.err != NoError then (r, [], false)
    else if !r.Reading() then (r.(err := NotReading), [], false)
    else
      var m := if n < |r.cur| then n else |r.cur|;
      var data := r.cur[..m];
      var r1 := r.(cur := r.cur[m..]);
      if m == n then (r1, data, false)
      else if r.rem != [] || !r.more then (r1, data, true)
      else
        var r2 := Fetch(h, r1);
        if r2.err != NoError then (r2, data, false)
        else
          var (r3, rest, eof) := Read(h, r2, n - m);
          (r3, data + rest, eof)
  }

  // One turn of the loop in Read.
  lemma ReadTurn(h: Digest, r: State, n: nat, m: nat)
    requires r.err == NoError && r.Reading() && m == if n < |r.cur| then n else |r.cur|
    ensures var r1 := r.(cur := r.cur[m..]);
            var r2 := Fetch(h, r1);
            Read(h, r, n) ==
              if m == n then (r1, r.cur[..m], false)
              else if r.rem != [] || !r.more then (r1, r.cur[..m], true)
              else if r2.err != NoError then (r2, r.cur[..m], false)
              else (Read(h, r2, n - m).0, r.cur[..m] + Read(h, r2, n - m).1, Read(h, r2, n - m).2)
  {
    hide Fetch;
  }

  // Reads in pieces of any size up to the end of the argument; the flag is io.EOF.
  function ReadToEnd(h: Digest, r: State): (res: (State, Bytes, bool))
    decreases |r.pending|
  {
    if r.err != NoError then (r, [], false)
    else if !r.Reading() then (r.(err := NotReading), [], false)
    else
      var r1 := r.(cur := []);
      if r.rem != [] || !r.more then (r1, r.cur, true)
      else
        var r2 := Fetch(h, r1);
        if r2.err != NoError then (r2, r.cur, false)
        else
          var (r3, rest, eof) := ReadToEnd(h, r2);
          (r3, r.cur + rest, eof)
  }

  /** One Read on the way to the end: it is all there is to read, or the rest is still to be
      read, and less of it than before. */
  lemma {:induction false} ReadThenEnd(h: Digest, r: State, n: nat)
    ensures var (r1, data, eof) := Read(h, r, n);
      && (eof || r1.err != NoError ==> ReadToEnd(h, r) == (r1, data, eof))
      && (!eof && r1.err == NoError ==>
            && ReadToEnd(h, r) == (ReadToEnd(h, r1).0, data + ReadToEnd(h, r1).1, ReadToEnd(h, r1).2)
            && (|r1.pending| < |r.pending| || (|r1.pending| == |r.pending| && |r1.cur| + n == |r.cur|)))
    decreases |r.pending|
  {
    hide Fetch;
    if r.err != NoError || !r.Reading() {
    } else {
      var m := if n < |r.cur| then n else |r.cur|;
      assert r.cur[..m] + r.cur[m..] == r.cur;
      if m == n {
        EndFrom(h, r, m);
      } else {
        assert r.cur[m..] == [] && r.cur[..m] == r.cur;
        if r.rem == [] && r.more && Fetch(h, r.(cur := [])).err == NoError {
          var r2 := Fetch(h, r.(cur := []));
          ReadThenEnd(h, r2, n - m);
          var (r1, data, eof) := Read(h, r2, n - m);
          assert r.cur + (data + ReadToEnd(h, r1).1) == r.cur + data + ReadToEnd(h, r1).1;
        }
      }
    }
  }

  lemma EndFrom(h: Digest, r: State, m: nat)
    requires r.err == NoError && r.Reading() && m <= |r.cur|
    ensures var (r1, rest, eof) := ReadToEnd(h, r.(cur := r.cur[m..]));
      ReadToEnd(h, r) == (r1, r.cur[..m] + rest, eof)
  {
    hide Fetch;
    assert r.cur[..m] + r.cur[m..] == r.cur;
    if r.rem == [] && r.more && Fetch(h, r.(cur := [])).err == NoError {
      var rest := ReadToEnd(h, Fetch(h, r.(cur := []))).1;
      assert r.cur[..m] + (r.cur[m..] + rest) == r.cur + rest;
    }
  }

  // At the end of an argument there is nothing to read.
  lemma AtEnd(h: Digest, r: State, n: nat)
    requires n > 0 && ReadToEnd(h, r).2
    ensures var r1 := ReadToEnd(h, r).0;
      r1.err == NoError && r1.Reading() && r1.cur == [] && (r1.rem != [] || !r1.more)
        && Read(h, r1, n) == (r1, [], true)
    decreases |r.pending|
  {
    hide Fetch;
    if r.rem == [] && r.more {
      AtEnd(h, Fetch(h, r.(cur := [])), n);
    } else {
      var r1 := r.(cur := []);
      assert r1.cur[0..] == r1.cur && r1.(cur := r1.cur[0..]) == r1;
    }
  }

  // One argument as the helpers read it: to the end, checked empty, and closed.
  function ReadArg(h: Digest, r: State, last: bool): (res: (State, Bytes, bool)) {
    var (r1, arg, eof) := ReadToEnd(h, BeginArgument(h, r, last));
    if !eof then (r1, arg, false)
    else (Close(h, r1), arg, Close(h, r1).err == NoError)
  }

  // A number of arguments in turn, up to the first that fails.
  function ReadArgs(h: Digest, r: State, count: nat): (res: (State, seq<Bytes>, bool))
    decreases count
  {
    if count == 0 then (r, [], true)
    else
      var (r1, arg, ok) := ReadArg(h, r, count == 1);
      if !ok then (r1, [], false)
      else
        var (r2, rest, all) := ReadArgs(h, r1, count - 1);
        (r2, [arg] + rest, all)
  }

  // One turn of the loop over arguments.
  lemma ReadArgsTurn(h: Digest, r: State, count: nat)
    ensures count == 0 ==> ReadArgs(h, r, count) == (r, [], true)
    ensures count > 0 ==>
      var (r1, arg, ok) := ReadArg(h, r, count == 1);
      ReadArgs(h, r, count) ==
        if !ok then (r1, [], false)
        else (ReadArgs(h, r1, count - 1).0, [arg] + ReadArgs(h, r1, count - 1).1, ReadArgs(h, r1, count - 1).2)
  {
    hide ReadArg;
  }

  function Close(h: Digest, r: State): (r': State) {
    if r.err != NoError then r
    else if !r.Reading() then r.(err := NotReading)
    else if r.cur != [] then r.(err := MoreDataInArgument)
    else if r.phase == InLastArgument then
      if r.rem != [] || r.more then r.(err := ExpectedMoreArguments)
      else r.(phase := Complete)
    else if r.rem != [] then r.(phase := Waiting, cur := r.rem[0], rem := r.rem[1..])
    else if !r.more then r.(phase := Waiting, err := NoMoreFragments)
    else Fetch(h, r.(phase := Waiting))
  }

  // ---------- what is left to read ----------

  function Rest(r: State, fs: seq<Split>): (args: seq<Chunk>)
    requires forall i :: 0 <= i < |fs| ==> fs[i].chunks != []
  {
    Glue2([r.cur] + r.rem, Glue(ChunkLists(fs)))
  }

  /** The reader is inside a well-formed message: `fs` are the fragments to come,
      their checksums continue the running one, and `args` is what is left to
      read, starting with the rest of the current argument. */
  ghost predicate Reads(h: Digest, k: Kind, r: State, fs: seq<Split>, args: seq<Chunk>) {
    && r.err == NoError
    && r.pending == SealAll(k, fs)
    && r.more == (fs != [])
    && r.csum.Running? && r.csum.kind == k
    && Chain(h, k, r.csum.summed, fs, false)
    && (forall i :: 0 <= i < |fs| ==> fs[i].chunks != [])
    && Rest(r, fs) == args
  }

  function Seen(r: State): (b: Bytes) {
    if r.csum.NoChecksum? then [] else r.csum.summed
  }

  lemma FetchChain(h: Digest, k: Kind, r: State, fs: seq<Split>)
    requires r.err == NoError && fs != [] && r.pending == SealAll(k, fs)
    requires FragmentOk(h, k, Seen(r), fs[0], |fs| > 1)
    requires r.csum.Running? ==> r.csum.kind == k
    ensures var f := fs[0];
            Fetch(h, r) == State(r.phase, f.chunks[0], f.chunks[1..], |fs| > 1,
                                 Running(k, Seen(r) + Join(f.chunks)), SealAll(k, fs[1..]), NoError)
  {
    hide Parse, Encode, Join;
    var f := fs[0];
    ParseEncode(f.chunks);
    assert r.pending[0] == Seal(k, f);
    assert r.pending[1..] == SealAll(k, fs[1..]);
    assert [] + Join(f.chunks) == Join(f.chunks);
  }

  /** Fetching the next fragment of a chain succeeds and loses nothing. */
  lemma FetchReads(h: Digest, k: Kind, r: State, fs: seq<Split>)
    requires r.err == NoError && fs != [] && r.pending == SealAll(k, fs)
    requires Chain(h, k, Seen(r), fs, false)
    requires r.csum.Running? ==> r.csum.kind == k
    ensures var r' := Fetch(h, r);
            && (forall i :: 0 <= i < |fs| ==> fs[i].chunks != [])
            && Reads(h, k, r', fs[1..], Glue(ChunkLists(fs)))
            && r'.phase == r.phase
  {
    hide Fetch;
    var f := fs[0];
    ChainChunks(h, k, Seen(r), fs, false);
    FetchChain(h, k, r, fs);
    assert ChunkLists(fs)[1..] == ChunkLists(fs[1..]);
    assert [f.chunks[0]] + f.chunks[1..] == f.chunks;
  }

  ghost predicate ReadExactly(h: Digest, k: Kind, r: State, args: seq<Chunk>, n: nat, fs': seq<Split>)
    requires args != []
  {
    var (r', data, eof) := Read(h, r, n);
    var m := if n < |args[0]| then n else |args[0]|;
    && data == args[0][..m]
    && eof == (n > |args[0]|)
    && Reads(h, k, r', fs', [args[0][m..]] + args[1..])
    && r'.phase == r.phase
    && (eof ==> r'.cur == [] && (r'.rem != [] || !r'.more))
  }

  lemma ReadWithinChunk(h: Digest, k: Kind, r: State, fs: seq<Split>, args: seq<Chunk>, n: nat)
    requires Reads(h, k, r, fs, args) && r.Reading()
    requires n <= |r.cur| || r.rem != [] || !r.more
    ensures args != [] && ReadExactly(h, k, r, args, n, fs)
  {
    RestTake(r, fs, if n < |r.cur| then n else |r.cur|);
    if n > |r.cur| {
      LastChunk(r, fs);
    }
  }

  lemma ReadAcross(h: Digest, k: Kind, r: State, fs: seq<Split>, args: seq<Chunk>, n: nat)
    requires Reads(h, k, r, fs, args) && r.Reading()
    requires n > |r.cur| && r.rem == [] && r.more
    ensures fs != [] && forall i :: 0 <= i < |fs| ==> fs[i].chunks != []
    ensures var tail := Glue(ChunkLists(fs));
            && args == [r.cur + tail[0]] + tail[1..]
            && var r2 := Fetch(h, r.(cur := []));
            && Reads(h, k, r2, fs[1..], tail) && r2.phase == r.phase
            && var (r3, rest, eof) := Read(h, r2, n - |r.cur|);
            Read(h, r, n) == (r3, r.cur + rest, eof)
  {
    hide Fetch, Chain, Glue, SealAll;
    assert [r.cur] + r.rem == [r.cur];
    assert r.cur[|r.cur|..] == [] && r.cur[..|r.cur|] == r.cur;
    FetchReads(h, k, r.(cur := []), fs);
  }

  /** Reading n bytes returns exactly the next n bytes of the argument, or all of
      them and EOF when fewer are left, wherever the fragment boundaries fall.
      EOF leaves the reader where Close will find the next argument. */
  lemma {:induction false} ReadReads(h: Digest, k: Kind, r: State, fs: seq<Split>, args: seq<Chunk>, n: nat)
      returns (fs': seq<Split>)
    requires Reads(h, k, r, fs, args) && r.Reading()
    ensures args != [] && ReadExactly(h, k, r, args, n, fs')
    decreases |fs|
  {
    hide Fetch, Read, Reads, ReadExactly;
    if n <= |r.cur| || r.rem != [] || !r.more {
      ReadWithinChunk(h, k, r, fs, args, n);
      fs' := fs;
    } else {
      ReadAcross(h, k, r, fs, args, n);
      var tail, r2 := Glue(ChunkLists(fs)), Fetch(h, r.(cur := []));
      fs' := ReadReads(h, k, r2, fs[1..], tail, n - |r.cur|);
      ReadJoin(h, k, r, r2, args, tail, n, fs');
    }
  }

  lemma ReadJoin(h: Digest, k: Kind, r: State, r2: State, args: seq<Chunk>, tail: seq<Chunk>, n: nat, fs': seq<Split>)
    requires n >= |r.cur| && r2.phase == r.phase && tail != []
    requires args == [r.cur + tail[0]] + tail[1..]
    requires var (r3, rest, eof) := Read(h, r2, n - |r.cur|);
             Read(h, r, n) == (r3, r.cur + rest, eof)
    requires ReadExactly(h, k, r2, tail, n - |r.cur|, fs')
    ensures ReadExactly(h, k, r, args, n, fs')
  {
    hide Read, Reads;
    TakeAcross(r.cur, tail[0], n);
    assert args[1..] == tail[1..];
  }

  lemma TakeAcross(a: Bytes, b: Bytes, n: nat)
    requires n >= |a|
    ensures var m := if n < |a + b| then n else |a + b|;
            (a + b)[..m] == a + b[..m - |a|] && (a + b)[m..] == b[m - |a|..]
  {
  }

  lemma RestTake(r: State, fs: seq<Split>, m: nat)
    requires forall i :: 0 <= i < |fs| ==> fs[i].chunks != []
    requires m <= |r.cur|
    ensures var args := Rest(r, fs);
            && args != [] && |r.cur| <= |args[0]| && args[0][..m] == r.cur[..m]
            && Rest(r.(cur := r.cur[m..]), fs) == [args[0][m..]] + args[1..]
  {
    var tail := Glue(ChunkLists(fs));
    hide Glue;
    var args := Rest(r, fs);
    if r.rem == [] {
      assert [r.cur] + r.rem == [r.cur];
      assert args == [r.cur + tail[0]] + tail[1..];
      assert (r.cur + tail[0])[m..] == r.cur[m..] + tail[0];
    } else {
      Glue2Head(r.cur, r.rem, tail);
      Glue2Head(r.cur[m..], r.rem, tail);
    }
  }

  lemma Glue2Head(c: Chunk, cs: seq<Chunk>, tail: seq<Chunk>)
    requires cs != [] && tail != []
    ensures Glue2([c] + cs, tail) == [c] + Glue2(cs, tail)
  {
  }

  // With no more chunks to glue on, the current chunk is the rest of the argument.
  lemma LastChunk(r: State, fs: seq<Split>)
    requires forall i :: 0 <= i < |fs| ==> fs[i].chunks != []
    requires r.rem != [] || fs == []
    ensures Rest(r, fs)[0] == r.cur
  {
    if fs == [] {
      Glue2Unit([r.cur] + r.rem);
    }
  }

  /** Whether Close finds the next argument: it does exactly when a further chunk
      of the current fragment is in hand, which is what reading to EOF ensures.
      Otherwise it takes the chunk that ends this argument for the next one. */
  lemma CloseAligns(h: Digest, k: Kind, r: State, fs: seq<Split>, args: seq<Chunk>)
      returns (fs': seq<Split>)
    requires Reads(h, k, r, fs, args) && r.phase == InArgument && r.cur == [] && |args| > 1
    ensures Reads(h, k, Close(h, r), fs', if r.rem != [] then args[1..] else args)
    ensures Close(h, r).phase == Waiting
  {
    if r.rem != [] {
      fs' := fs;
      NextChunk(r, fs);
    } else {
      assert [r.cur] + r.rem == [[]];
      Glue2Unit(Glue(ChunkLists(fs)));
      FetchReads(h, k, r.(phase := Waiting), fs);
      fs' := fs[1..];
    }
  }

  lemma NextChunk(r: State, fs: seq<Split>)
    requires forall i :: 0 <= i < |fs| ==> fs[i].chunks != []
    requires r.rem != []
    ensures Rest(r.(cur := r.rem[0], rem := r.rem[1..]), fs) == Rest(r, fs)[1..]
  {
    assert [r.rem[0]] + r.rem[1..] == r.rem;
  }

  lemma CloseLast(h: Digest, k: Kind, r: State, fs: seq<Split>, args: seq<Chunk>)
    requires Reads(h, k, r, fs, args) && r.phase == InLastArgument && r.cur == []
    requires r.rem != [] || !r.more
    ensures |args| == 1 <==> Close(h, r).err == NoError
    ensures |args| == 1 ==> Close(h, r).phase == Complete
  {
    if fs == [] {
      Glue2Unit([r.cur] + r.rem);
    }
  }

  // ---------- closing before the end is seen ----------

  // Two arguments, the first of which ends at the end of a fragment.
  function EndsAtFragment(h: Digest): (fs: seq<Split>) {
    [Split(MORE_FRAGMENTS, h(Null, [1]), [[1]]), Split(0, h(Null, [1, 2]), [[], [2]])]
  }

  lemma EndsAtFragmentIs(h: Digest)
    ensures var fs := EndsAtFragment(h);
      Chain(h, Null, [], fs, false) && (forall i :: 0 <= i < |fs| ==> fs[i].chunks != [])
        && Glue(ChunkLists(fs)) == [[1], [2]]
  {
    var fs := EndsAtFragment(h);
    var one, two: seq<Chunk> := [[1]], [[], [2]];
    JoinOne([1]);
    JoinOne([2]);
    assert two[1..] == [[2]];
    assert Join(two) == [2];
    EncodeOne([1]);
    EncodeOne([2]);
    assert Encode(two) == U16(0) + [] + Encode([[2]]);
    assert fs[1..] == [fs[1]] && fs[1..][1..] == [];
    assert [] + Join(one) == [1] && [1] + Join(two) == [1, 2];
    assert ChunkLists(fs) == [one] + [two];
    GlueOne(two);
    assert ([one] + [two])[1..] == [two];
    assert Glue2(one, two) == [[1], [2]];
  }

  /** Reading all the bytes of an argument is not enough before Close: of two arguments of
      one byte each the first byte is read and the argument closed, and what is left to
      read is an empty argument followed by the second one. */
  lemma CloseTooEarly(h: Digest)
    ensures var fs := EndsAtFragment(h);
      var r := BeginArgument(h, Initial(SealAll(Null, fs)), false);
      && Reads(h, Null, r, fs[1..], [[1], [2]])
      && Read(h, r, 1).1 == [1]
      && Reads(h, Null, Close(h, Read(h, r, 1).0), [], [[], [2]])
  {
    hide Fetch, Chain, Glue;
    var fs := EndsAtFragment(h);
    EndsAtFragmentIs(h);
    var start := Initial(SealAll(Null, fs));
    FetchReads(h, Null, start, fs);
    FetchChain(h, Null, start, fs);
    var r := BeginArgument(h, start, false);
    var r1 := r.(cur := []);
    assert r.cur == [1] && r.rem == [] && r.more;
    assert r.cur[..1] == [1] && r.cur[1..] == [];
    assert Read(h, r, 1) == (r1, [1], false);
    var waiting := r1.(phase := Waiting);
    assert Close(h, r1) == Fetch(h, waiting);
    FetchReads(h, Null, waiting, fs[1..]);
    assert fs[1..][1..] == [];
    assert ChunkLists(fs[1..]) == [fs[1].chunks];
    GlueOne(fs[1].chunks);
  }
}
