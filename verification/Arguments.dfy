/** Whole messages: arguments written through a fragmenting writer and read back
    through a fragmenting reader the way ArgWriteHelper and ArgReadHelper drive
    them (arguments.go). */
module Arguments {
  import opened Buffers
  import opened Chunks
  import WM = WriterModel
  import RM = ReaderModel
  import RS = ReaderSound
  import opened FragmentingWriter
  import opened FragmentingReader

  // What a caller may do with one argument before closing it.
  datatype Op = Write(bytes: Bytes) | Flush

  function ArgOf(ops: seq<Op>): (r: Bytes) {
    if ops == [] then []
    else ArgOf(ops[..|ops| - 1]) + OpBytes(ops[|ops| - 1])
  }

  predicate Flushed(ops: seq<Op>) {
    exists i :: 0 <= i < |ops| && ops[i].Flush?
  }

  function ArgsOf(script: seq<seq<Op>>): (r: seq<Bytes>)
    ensures |r| == |script|
  {
    seq(|script|, i requires 0 <= i < |script| => ArgOf(script[i]))
  }

  /** An argument begun in the first fragment, with w0 the writer before it and w after:
      it is whole in that fragment, which stays open, exactly if it is not the last, was
      not flushed and leaves room for the next; otherwise the fragment ends with it. */
  ghost predicate Placed(p: WM.Sender, w0: WM.State, w: WM.State, last: bool, ops: seq<Op>) {
    if !last && !Flushed(ops) && |ArgOf(ops)| + 2 * WM.CHUNK_HEADER_SIZE < WM.Room(p, w0)
    then w.sent == [] && w.open && w.chunks == w0.chunks + [ArgOf(ops)]
    else w.sent != [] && |w.sent[0].chunks| == |w0.chunks| + 1
  }

  /** Writes one argument: whatever the splits, flushes and capacities, the writer
      ends up denoting one more argument, the concatenation of what was written. */
  method WriteArgument(w: Writer, last: bool, ops: seq<Op>, ghost args: seq<Chunk>)
    requires w.Valid() && w.sender.Reliable() && w.err == WM.NoError
    requires w.phase == WM.Start || w.phase == WM.Waiting
    requires WM.Writes(w.h, w.kind, w.sender, w.model, args)
    modifies w.Repr()
    ensures w.Valid() && fresh(w.Repr() - old(w.Repr())) && w.err == WM.NoError
    ensures w.phase == if last then WM.Complete else WM.Waiting
    ensures WM.Writes(w.h, w.kind, w.sender, w.model, args + [ArgOf(ops)])
    ensures forall c :: old(w.phase == WM.Waiting && WM.OpensWith(w.model, c)) ==> WM.FirstHas(w.model, c)
    ensures old(w.model.sent) <= w.model.sent
    ensures old(w.phase == WM.Waiting && w.model.sent == []) ==> Placed(w.sender, old(w.model), w.model, last, ops)
  {
    hide WM.Writes, WM.BeginArgument, WM.Close, WM.Flush, WM.Shape, Writer.Valid, WM.FirstHas, WM.OpensWith,
      WM.Follows, WM.Room, Placed, Flushed, ArgOf;
    WM.BeginWrites(w.h, w.kind, w.sender, w.model, last, args);
    BeginPhase(w.sender, w.model, last);
    BeginFirsts(w.h, w.kind, w.sender, w.model, last, args);
    WM.OthersKeepSent(w.h, w.kind, w.sender, w.model, last);
    ghost var w0 := w.model;
    BeginPlaces(w.h, w.kind, w.sender, w0, last, args);
    w.BeginArgument(last);
    ghost var w1 := w.model;
    WriteOps(w, ops, args);
    WM.CloseWrites(w.h, w.kind, w.sender, w.model, args + [ArgOf(ops)]);
    FlushFirsts(w.h, w.kind, w.sender, w.model);
    WM.OthersKeepSent(w.h, w.kind, w.sender, w.model, last);
    if w0.phase == WM.Waiting && w0.sent == [] {
      ClosePlaces(w.h, w.kind, w.sender, w0, w.model, last, ops);
    }
    w.Close();
  }

  lemma BeginPlaces(h: Digest, k: Kind, p: WM.Sender, w: WM.State, last: bool, args: seq<Chunk>)
    requires WM.Writes(h, k, p, w, args) && w.err == WM.NoError
    ensures var w1 := WM.BeginArgument(p, w, last);
      w.phase == WM.Waiting && w.sent == [] ==>
        && w1.sent == [] && w1.open && w1.chunks == w.chunks + [[]]
          && WM.Room(p, w1) == WM.Room(p, w) - WM.CHUNK_HEADER_SIZE
        && WM.Follows(p, w1, w1, [], false)
  {
    if w.phase == WM.Waiting && w.sent == [] {
      var w1 := WM.BeginArgument(p, w, last);
      EncodeAppend(w.chunks, [[]]);
      EncodeOne([]);
      WM.FollowsBegin(p, w1);
    }
  }

  lemma ClosePlaces(h: Digest, k: Kind, p: WM.Sender, w0: WM.State, w: WM.State, last: bool, ops: seq<Op>)
    requires p.Reliable() && w.err == WM.NoError && w.phase == if last then WM.InLastArgument else WM.InArgument
    requires var w1 := WM.BeginArgument(p, w0, last);
      && w1.sent == [] && w1.chunks == w0.chunks + [[]] && WM.Room(p, w1) == WM.Room(p, w0) - WM.CHUNK_HEADER_SIZE
      && WM.Follows(p, w1, w, ArgOf(ops), Flushed(ops))
    ensures Placed(p, w0, WM.Close(h, k, p, w), last, ops)
  {
    hide WM.Follows, WM.Close, WM.Room, WM.BeginArgument, ArgOf, Flushed;
    var w1 := WM.BeginArgument(p, w0, last);
    WM.FollowsClose(h, k, p, w1, w, ArgOf(ops), Flushed(ops));
    assert [] + ArgOf(ops) == ArgOf(ops);
    assert Extend(w1.chunks, ArgOf(ops)) == w0.chunks + [ArgOf(ops)];
  }

  // What the first fragment starts with is settled once a second chunk follows it.
  lemma BeginFirsts(h: Digest, k: Kind, p: WM.Sender, w: WM.State, last: bool, args: seq<Chunk>)
    requires WM.Writes(h, k, p, w, args) && w.err == WM.NoError
    ensures forall c :: w.phase == WM.Waiting && WM.OpensWith(w, c) ==> WM.FirstHas(WM.BeginArgument(p, w, last), c)
  {
    forall c | w.phase == WM.Waiting && WM.OpensWith(w, c)
      ensures WM.FirstHas(WM.BeginArgument(p, w, last), c)
    {
      WM.BeginKeepsFirst(p, w, last, c);
    }
  }

  lemma FlushFirsts(h: Digest, k: Kind, p: WM.Sender, w: WM.State)
    requires p.Reliable() && w.err == WM.NoError
    ensures forall c :: WM.FirstHas(w, c) ==> WM.FirstHas(WM.Flush(h, k, p, w), c)
    ensures forall c :: WM.FirstHas(w, c) ==> WM.FirstHas(WM.Close(h, k, p, w), c)
  {
    forall c | WM.FirstHas(w, c)
      ensures WM.FirstHas(WM.Flush(h, k, p, w), c) && WM.FirstHas(WM.Close(h, k, p, w), c)
    {
      WM.FlushKeepsFirst(h, k, p, w, c);
    }
  }

  lemma WriteFirsts(h: Digest, k: Kind, p: WM.Sender, w: WM.State, b: Bytes)
    requires p.Valid() && p.Reliable() && WM.Shape(p, w)
    ensures forall c :: WM.FirstHas(w, c) ==> WM.FirstHas(WM.Write(h, k, p, w, b).0, c)
  {
    forall c | WM.FirstHas(w, c)
      ensures WM.FirstHas(WM.Write(h, k, p, w, b).0, c)
    {
      WM.WriteKeepsFirst(h, k, p, w, b, c);
    }
  }

  method WriteOps(w: Writer, ops: seq<Op>, ghost args: seq<Chunk>)
    requires w.Valid() && w.sender.Reliable() && w.err == WM.NoError && w.model.Writing()
    requires WM.Writes(w.h, w.kind, w.sender, w.model, args + [[]])
    modifies w.Repr()
    ensures w.Valid() && fresh(w.Repr() - old(w.Repr())) && w.err == WM.NoError
    ensures w.phase == old(w.phase)
    ensures WM.Writes(w.h, w.kind, w.sender, w.model, args + [ArgOf(ops)])
    ensures forall c :: old(WM.FirstHas(w.model, c)) ==> WM.FirstHas(w.model, c)
    ensures old(w.model.sent) <= w.model.sent
    ensures forall w0: WM.State ::
      w0.sent == [] && w0.chunks != [] && WM.Follows(w.sender, w0, old(w.model), [], false) ==>
        WM.Follows(w.sender, w0, w.model, ArgOf(ops), Flushed(ops))
  {
    hide WM.Writes, WM.Shape, Writer.Valid, WM.FirstHas, WM.Follows, Flushed;
    var i := 0;
    NoneFlushed();
    assert ops[..0] == [];
    while i < |ops|
      invariant 0 <= i <= |ops|
      invariant w.Valid() && fresh(w.Repr() - old(w.Repr())) && w.err == WM.NoError
      invariant w.phase == old(w.phase)
      invariant WM.Writes(w.h, w.kind, w.sender, w.model, args + [ArgOf(ops[..i])])
      invariant forall c :: old(WM.FirstHas(w.model, c)) ==> WM.FirstHas(w.model, c)
      invariant old(w.model.sent) <= w.model.sent
      invariant forall w0: WM.State ::
        w0.sent == [] && w0.chunks != [] && WM.Follows(w.sender, w0, old(w.model), [], false) ==>
          WM.Follows(w.sender, w0, w.model, ArgOf(ops[..i]), Flushed(ops[..i]))
    {
      FlushedSnoc(ops, i);
      WriteOp(w, ops[i], args, ArgOf(ops[..i]), Flushed(ops[..i]));
      assert ops[..i + 1][..i] == ops[..i];
      i := i + 1;
    }
    assert ops[..i] == ops;
  }

  function OpBytes(op: Op): (b: Bytes) {
    match op case Write(b) => b case Flush => []
  }

  lemma NoneFlushed()
    ensures !Flushed([])
  {
  }

  lemma FlushedSnoc(ops: seq<Op>, i: nat)
    requires i < |ops|
    ensures Flushed(ops[..i + 1]) == (Flushed(ops[..i]) || ops[i].Flush?)
  {
    var a, b := ops[..i], ops[..i + 1];
    assert b[i] == ops[i] && forall j :: 0 <= j < i ==> b[j] == a[j];
  }

  method WriteOp(w: Writer, op: Op, ghost args: seq<Chunk>, ghost sofar: Bytes, ghost flushed: bool)
    requires w.Valid() && w.sender.Reliable() && w.err == WM.NoError && w.model.Writing()
    requires WM.Writes(w.h, w.kind, w.sender, w.model, args + [sofar])
    modifies w.Repr()
    ensures w.Valid() && fresh(w.Repr() - old(w.Repr())) && w.err == WM.NoError
    ensures w.phase == old(w.phase)
    ensures WM.Writes(w.h, w.kind, w.sender, w.model, args + [sofar + OpBytes(op)])
    ensures forall c :: old(WM.FirstHas(w.model, c)) ==> WM.FirstHas(w.model, c)
    ensures old(w.model.sent) <= w.model.sent
    ensures forall w0: WM.State ::
      w0.sent == [] && w0.chunks != [] && WM.Follows(w.sender, w0, old(w.model), sofar, flushed) ==>
        WM.Follows(w.sender, w0, w.model, sofar + OpBytes(op), flushed || op.Flush?)
  {
    hide WM.Writes, WM.Write, WM.Flush, WM.Shape, WM.FirstHas, WM.Follows;
    assert sofar + [] == sofar;
    WM.OthersKeepSent(w.h, w.kind, w.sender, w.model, false);
    OpFollows(w.h, w.kind, w.sender, w.model, op, sofar, flushed);
    match op {
      case Write(b) =>
        WM.WriteWrites(w.h, w.kind, w.sender, w.model, b, args + [sofar]);
        assert Extend(args + [sofar], b) == args + [sofar + b];
        WriteFirsts(w.h, w.kind, w.sender, w.model, b);
        WM.WriteKeepsSent(w.h, w.kind, w.sender, w.model, b);
        var n := w.Write(b);
      case Flush =>
        WM.FlushWrites(w.h, w.kind, w.sender, w.model, args + [sofar]);
        FlushFirsts(w.h, w.kind, w.sender, w.model);
        w.Flush();
    }
  }

  // Whatever the argument's start w0, each operation keeps track of it.
  lemma OpFollows(h: Digest, k: Kind, p: WM.Sender, w: WM.State, op: Op, sofar: Bytes, flushed: bool)
    requires p.Valid() && p.Reliable() && WM.Shape(p, w) && w.err == WM.NoError && w.Writing()
    ensures forall w0: WM.State :: w0.sent == [] && w0.chunks != [] && WM.Follows(p, w0, w, sofar, flushed) ==>
      WM.Follows(p, w0, if op.Flush? then WM.Flush(h, k, p, w) else WM.Write(h, k, p, w, op.bytes).0,
                 sofar + OpBytes(op), flushed || op.Flush?)
  {
    hide WM.Follows, WM.Flush, WM.Write, WM.Shape;
    forall w0: WM.State | w0.sent == [] && w0.chunks != [] && WM.Follows(p, w0, w, sofar, flushed)
      ensures WM.Follows(p, w0, if op.Flush? then WM.Flush(h, k, p, w) else WM.Write(h, k, p, w, op.bytes).0,
                         sofar + OpBytes(op), flushed || op.Flush?)
    {
      if op.Flush? {
        assert sofar + [] == sofar;
        WM.FollowsFlush(h, k, p, w0, w, sofar, flushed);
      } else {
        WM.FollowsWrite(h, k, p, w0, w, sofar, flushed, op.bytes);
      }
    }
  }

  lemma BeginPhase(p: WM.Sender, w: WM.State, last: bool)
    requires p.Reliable() && w.err == WM.NoError && (w.phase == WM.Start || w.phase == WM.Waiting)
    ensures WM.BeginArgument(p, w, last).phase == if last then WM.InLastArgument else WM.InArgument
  {
  }

  /** Reads one argument to EOF in pieces of any size, checks it is empty and closes it. */
  method ReadArgument(r: Reader, last: bool) returns (arg: Bytes, ok: bool)
    modifies r
    ensures (r.View(), arg, ok) == RM.ReadArg(r.h, old(r.View()), last)
  {
    hide RM.BeginArgument, RM.Read, RM.Close, RM.ReadToEnd;
    r.BeginArgument(last);
    ghost var goal := RM.ReadToEnd(r.h, r.View());
    var eof := false;
    arg := [];
    RS.EndFails(r.h, r.View());
    RS.FailedAlready(r.h, r.View());
    assert arg + goal.1 == goal.1;
    while !eof && r.err == RM.NoError
      invariant eof || r.err != RM.NoError ==> goal == (r.View(), arg, eof)
      invariant !eof && r.err == RM.NoError ==>
        var (r1, rest, end) := RM.ReadToEnd(r.h, r.View()); goal == (r1, arg + rest, end)
      decreases !eof && r.err == RM.NoError, |r.pending|, |r.curChunk|
    {
      var n: nat :| n >= 1;
      RM.ReadThenEnd(r.h, r.View(), n);
      ghost var rest := RM.ReadToEnd(r.h, RM.Read(r.h, r.View(), n).0).1;
      var data;
      data, eof := r.Read(n);
      assert arg + (data + rest) == arg + data + rest;
      arg := arg + data;
    }
    ok := false;
    if eof {
      RM.AtEnd(r.h, RM.BeginArgument(r.h, old(r.View()), last), 128);
      // EnsureEmpty
      var data, end := r.Read(128);
      r.Close();
      ok := |data| == 0 && end && r.err == RM.NoError;
    }
  }

  lemma SentMessage(h: Digest, k: Kind, p: WM.Sender, w: WM.State, args: seq<Chunk>)
    requires WM.Writes(h, k, p, w, args) && w.err == WM.NoError && w.phase == WM.Complete
    ensures IsMessage(h, k, SealAll(k, w.sent), args, HasMore(p.flags)) && SplitAll(SealAll(k, w.sent)) == w.sent
    ensures WithinCapacity(p, SealAll(k, w.sent))
  {
    assert ChunkLists(w.sent) + [] == ChunkLists(w.sent);
    MessageOf(h, k, w.sent, HasMore(p.flags));
  }

  ghost predicate WithinCapacity(p: WM.Sender, fragments: seq<Fragment>) {
    forall i :: 0 <= i < |fragments| ==> |fragments[i].contents| <= p.capacity(i)
  }

  /** Sending: the fragments form one checksummed message of the arguments, however each
      argument is split into writes and flushes, and each is within its capacity. */
  method Send(h: Digest, kind: Kind, sender: WM.Sender, script: seq<seq<Op>>) returns (fragments: seq<Fragment>)
    requires sender.Valid() && sender.Reliable() && script != []
    ensures IsMessage(h, kind, fragments, sender.preamble + ArgsOf(script), HasMore(sender.flags))
    ensures WithinCapacity(sender, fragments)
  {
    hide WM.Writes, WM.Shape, Writer.Valid, IsMessage, WithinCapacity, Placed, WM.FirstHas, WM.OpensWith;
    var w := new Writer(h, kind, sender);
    WM.InitialWrites(h, kind, sender);
    var i := 0;
    assert sender.preamble + ArgsOf(script[..0]) == sender.preamble;
    while i < |script|
      invariant 0 <= i <= |script|
      invariant w.Valid() && fresh(w.Repr()) && w.err == WM.NoError
      invariant w.h == h && w.kind == kind && w.sender == sender
      invariant w.phase == if i == 0 then WM.Start else if i == |script| then WM.Complete else WM.Waiting
      invariant WM.Writes(h, kind, sender, w.model, sender.preamble + ArgsOf(script[..i]))
    {
      WriteArgument(w, i == |script| - 1, script[i], sender.preamble + ArgsOf(script[..i]));
      i := i + 1;
      assert sender.preamble + ArgsOf(script[..i]) ==
        sender.preamble + ArgsOf(script[..i - 1]) + [ArgOf(script[i - 1])];
    }
    assert script[..i] == script;
    SentMessage(h, kind, sender, w.model, sender.preamble + ArgsOf(script));
    fragments := w.sent;
  }

  /** Reads a number of arguments from any fragments. A well-formed message of that many reads
      back, and what is read to completion was one. */
  method Receive(h: Digest, fragments: seq<Fragment>, count: nat) returns (received: seq<Bytes>, complete: bool)
    ensures forall args :: |args| == count && RS.StartsWith(h, fragments, args) ==> complete && received == args
    ensures complete && SumsSized(h) && RS.AllFromWire(fragments) ==>
      |received| == count && RS.StartsWith(h, fragments, received)
  {
    hide RM.ReadArg, RM.ReadArgs, RS.StartsWith, SumsSized, RS.AllFromWire;
    var r := new Reader(h, fragments);
    received, complete := ReadAll(r, count);
    forall args | |args| == count && RS.StartsWith(h, fragments, args)
      ensures complete && received == args
    {
      RS.MessageReads(h, fragments, args);
    }
    if complete && SumsSized(h) && RS.AllFromWire(fragments) {
      RS.MessageRead(h, fragments, count);
      RS.ReadAll(h, RM.Initial(fragments), count);
    }
  }

  method ReadAll(r: Reader, count: nat) returns (received: seq<Bytes>, complete: bool)
    modifies r
    ensures var (r1, args, all) := RM.ReadArgs(r.h, old(r.View()), count);
      r.View() == r1 && received == args && complete == (count > 0 && all)
  {
    hide RM.ReadArg, RM.ReadArgs;
    ghost var goal := RM.ReadArgs(r.h, r.View(), count);
    received := [];
    var ok, left := true, count;
    assert received + goal.1 == goal.1;
    while left > 0 && ok
      invariant 0 <= left <= count
      invariant ok ==> var (r1, rest, all) := RM.ReadArgs(r.h, r.View(), left); goal == (r1, received + rest, all)
      invariant !ok ==> goal == (r.View(), received, false)
      decreases left, ok
    {
      RM.ReadArgsTurn(r.h, r.View(), left);
      var arg;
      arg, ok := ReadArgument(r, left == 1);
      if ok {
        left := left - 1;
        ghost var rest := RM.ReadArgs(r.h, r.View(), left).1;
        assert received + ([arg] + rest) == received + [arg] + rest;
        received := received + [arg];
      } else {
        assert received + [] == received;
      }
    }
    if ok {
      RM.ReadArgsTurn(r.h, r.View(), left);
      assert received + [] == received;
    }
    complete := count > 0 && r.phase == RM.Complete && r.err == RM.NoError;
    if count > 0 {
      RS.EndsComplete(r.h, old(r.View()), count);
    }
  }

  /** The round trip: every list of arguments, however each is split into writes
      and flushes and whatever the fragment capacities, is read back exactly. */
  method SendAndReceive(h: Digest, kind: Kind, sender: WM.Sender, script: seq<seq<Op>>)
      returns (received: seq<Bytes>, complete: bool)
    requires sender.Valid() && sender.Reliable() && !HasMore(sender.flags)
    requires script != []
    ensures received == sender.preamble + ArgsOf(script) && complete
  {
    hide WM.Sender.Valid, WM.Sender.Reliable, IsMessage;
    var fragments := Send(h, kind, sender, script);
    received, complete := Receive(h, fragments, |sender.preamble| + |script|);
    RS.WholeStarts(h, kind, fragments, sender.preamble + ArgsOf(script));
  }
}
