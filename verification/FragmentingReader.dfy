/** The fragmenting reader (fragmenting_reader.go), and the way arguments are read
    through it (arguments.go). */
module FragmentingReader {
  import opened Buffers
  import opened Chunks
  import M = ReaderModel
  import opened ReaderModel

  lemma Snoc(cs: seq<Chunk>, c: Chunk, rest: seq<Chunk>)
    ensures cs + ([c] + rest) == cs + [c] + rest
    ensures Join(cs + [c]) == Join(cs) + c
  {
    JoinAppend(cs, [c]);
    JoinOne(c);
  }

  class Reader {
    const h: Digest

    var phase: Phase
    var remainingChunks: seq<Chunk>
    var curChunk: Chunk
    var hasMoreFragments: bool
    var csum: Running
    var pending: seq<Fragment>
    var err: Error

    ghost function View(): (v: State)
      reads this
    {
      State(phase, curChunk, remainingChunks, hasMoreFragments, csum, pending, err)
    }

    constructor (h: Digest, fragments: seq<Fragment>)
      ensures View() == Initial(fragments) && this.h == h
    {
      this.h := h;
      phase, remainingChunks, curChunk, hasMoreFragments := Start, [], [], true;
      csum, pending, err := NoChecksum, fragments, NoError;
    }

    method BeginArgument(last: bool)
      modifies this
      ensures View() == M.BeginArgument(h, old(View()), last)
    {
      hide Fetch;
      if err != NoError { return; }
      if phase == InArgument || phase == InLastArgument {
        err := AlreadyReading;
        return;
      }
      if phase == Complete {
        err := AlreadyComplete;
        return;
      }
      if phase == Start {
        RecvAndParseNextFragment();
        if err != NoError { return; }
      }
      phase := if last then InLastArgument else InArgument;
    }

    method Read(n: nat) returns (data: Bytes, eof: bool)
      modifies this
      ensures (View(), data, eof) == M.Read(h, old(View()), n)
    {
      hide Fetch;
      data, eof := [], false;
      if err != NoError { return; }
      if phase != InArgument && phase != InLastArgument {
        err := NotReading;
        return;
      }
      data, eof := ReadLoop(n);
    }

    method ReadLoop(n: nat) returns (data: Bytes, eof: bool)
      requires err == NoError && View().Reading()
      modifies this
      ensures (View(), data, eof) == M.Read(h, old(View()), n)
    {
      hide Fetch, M.Read;
      data, eof := [], false;
      var left: nat := n;
      ghost var goal := M.Read(h, View(), n);
      assert data + goal.1 == goal.1;
      while true
        invariant err == NoError && View().Reading()
        invariant goal.0 == M.Read(h, View(), left).0 && goal.2 == M.Read(h, View(), left).2
        invariant goal.1 == data + M.Read(h, View(), left).1
        decreases |pending|
      {
        var m := if left < |curChunk| then left else |curChunk|;
        ReadTurn(h, View(), left, m);
        data := data + curChunk[..m];
        curChunk := curChunk[m..];
        left := left - m;
        if left == 0 { return; }
        if |remainingChunks| > 0 || !hasMoreFragments {
          eof := true;
          return;
        }
        RecvAndParseNextFragment();
        if err != NoError { return; }
      }
    }

    method Close()
      modifies this
      ensures View() == M.Close(h, old(View()))
    {
      hide Fetch;
      var last := phase == InLastArgument;
      if err != NoError { return; }
      if phase != InArgument && phase != InLastArgument {
        err := NotReading;
        return;
      }
      if |curChunk| > 0 {
        err := MoreDataInArgument;
        return;
      }
      if last {
        if |remainingChunks| > 0 || hasMoreFragments {
          err := ExpectedMoreArguments;
          return;
        }
        curChunk, phase := [], Complete;
        return;
      }
      phase := Waiting;
      if |remainingChunks| > 0 {
        curChunk, remainingChunks := remainingChunks[0], remainingChunks[1..];
        return;
      }
      if !hasMoreFragments {
        err := NoMoreFragments;
        return;
      }
      RecvAndParseNextFragment();
    }

    method RecvAndParseNextFragment()
      modifies this
      ensures View() == Fetch(h, old(View()))
    {
      hide Parse, Join;
      if err != NoError { return; }
      if pending == [] {
        err := ReceiverFailed;
        return;
      }
      var f := pending[0];
      pending := pending[1..];
      if csum == NoChecksum {
        csum := Running(NewKind(f.csumType), []);
      } else if TypeCode(csum.kind) != f.csumType {
        err := MismatchedChecksumTypes;
        return;
      }
      hasMoreFragments := HasMore(f.flags);
      var status := SplitChunks(f.contents);
      assert [] + Join(remainingChunks) == Join(remainingChunks);
      if status == ChunkExceedsFragment {
        err := ChunkExceedsFragmentSize;
      } else if status == BufferTooSmall {
        err := FragmentTooShort;
      } else if f.csum != h(csum.kind, csum.summed) {
        err := MismatchedChecksums;
      } else if |remainingChunks| == 0 {
        err := EmptyFragment;
      } else {
        curChunk, remainingChunks := remainingChunks[0], remainingChunks[1..];
      }
    }

    method SplitChunks(contents: Bytes) returns (status: ParseStatus)
      requires csum.Running?
      modifies this`remainingChunks, this`csum
      ensures (remainingChunks, status) == Parse(RBuf(contents, false))
      ensures csum == old(csum).(summed := old(csum.summed) + Join(remainingChunks))
    {
      hide GetUint, RBuf.ReadUint, RBuf.ReadBytes, Join;
      assert old(csum.summed) + Join([]) == old(csum.summed) by { JoinNone(); }
      var buf := new ReadBuffer(contents);
      remainingChunks := [];
      ghost var goal := Parse(RBuf(contents, false));
      assert remainingChunks + goal.0 == goal.0;
      while |buf.remaining| > 0 && !buf.err
        invariant buf.Valid() && fresh(buf)
        invariant goal.0 == remainingChunks + Parse(buf.View()).0 && goal.1 == Parse(buf.View()).1
        invariant csum == old(csum).(summed := old(csum.summed) + Join(remainingChunks))
        decreases |buf.remaining|, !buf.err
      {
        ghost var before := buf.View();
        var size := buf.ReadUint(2);
        if size > |buf.remaining| % 0x1_0000 {
          assert remainingChunks + [] == remainingChunks;
          return ChunkExceedsFragment;
        }
        var chunk := buf.ReadBytes(size);
        assert Parse(before).0 == [chunk] + Parse(buf.View()).0;
        Snoc(remainingChunks, chunk, Parse(buf.View()).0);
        remainingChunks := remainingChunks + [chunk];
        csum := csum.(summed := csum.summed + chunk);
      }
      assert remainingChunks + [] == remainingChunks;
      status := if buf.err then BufferTooSmall else Parsed;
    }
  }
}
