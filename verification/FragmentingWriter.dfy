/** The fragmenting writer (fragmenting_writer.go). It works on a byte buffer in
    which the length of the open chunk is filled in late, and refines WriterModel. */
module FragmentingWriter {
  import opened Buffers
  import opened Chunks
  import M = WriterModel
  import opened WriterModel

  // The bytes of the open fragment while its last chunk still lacks its length.
  function Unfinished(chunks: seq<Chunk>): (r: Bytes)
    requires chunks != []
  {
    Encode(chunks[..|chunks| - 1]) + [0, 0] + chunks[|chunks| - 1]
  }

  /** The buffer holds the chunks with the last one open: its length goes at `ref`
      and is `size` so far. */
  ghost predicate OpenChunk(v: WBuf, capacity: nat, chunks: seq<Chunk>, ref: nat, size: nat) {
    && chunks != [] && v == WBuf(Unfinished(chunks), capacity, false)
    && ref == |Encode(chunks[..|chunks| - 1])|
    && size == |chunks[|chunks| - 1]|
  }

  lemma OpenFinish(v: WBuf, capacity: nat, chunks: seq<Chunk>, ref: nat, size: nat)
    requires OpenChunk(v, capacity, chunks, ref, size)
    ensures v.capacity == capacity && !v.failed
    ensures |v.written| == |Encode(chunks)| == ref + 2 + size
    ensures v.(written := Patch(v.written, ref, U16(size))) == WBuf(Encode(chunks), capacity, false)
  {
    hide PutUint, U16;
    var init, last := chunks[..|chunks| - 1], chunks[|chunks| - 1];
    assert chunks == init + [last];
    EncodeAppend(init, [last]);
    EncodeOne(last);
  }

  lemma OpenPut(v: WBuf, capacity: nat, chunks: seq<Chunk>, ref: nat, size: nat, b: Bytes)
    requires OpenChunk(v, capacity, chunks, ref, size) && |v.written| + |b| <= capacity
    ensures chunks != [] && OpenChunk(v.Put(b), capacity, Extend(chunks, b), ref, size + |b|)
  {
    hide Encode;
    assert Extend(chunks, b)[..|chunks| - 1] == chunks[..|chunks| - 1];
  }

  lemma OpenBegin(capacity: nat, chunks: seq<Chunk>)
    requires |Encode(chunks)| + 2 <= capacity
    ensures OpenChunk(WBuf(Encode(chunks), capacity, false).Put(seq(2, _ => 0)), capacity, chunks + [[]],
      |Encode(chunks)|, 0)
  {
    hide Encode;
    assert (chunks + [[]])[..|chunks|] == chunks;
    assert seq(2, _ => 0) == [0, 0];
  }

  lemma EncodeNone()
    ensures Encode([]) == [] && Join([]) == []
  {
  }

  lemma PrefixFits(cs: seq<Chunk>, i: nat)
    requires i < |cs|
    ensures Encode(cs[..i + 1]) == Encode(cs[..i]) + U16(|cs[i]|) + cs[i]
    ensures |Encode(cs[..i + 1])| <= |Encode(cs)|
    ensures forall capacity: nat :: |Encode(cs)| <= capacity ==>
              WBuf(Encode(cs[..i]), capacity, false).Put(U16(|cs[i]|)).Put(cs[i]) ==
                WBuf(Encode(cs[..i + 1]), capacity, false)
    ensures Join(cs[..i + 1]) == Join(cs[..i]) + cs[i]
  {
    assert cs[..i + 1] == cs[..i] + [cs[i]];
    EncodeAppend(cs[..i], [cs[i]]);
    EncodeOne(cs[i]);
    JoinAppend(cs[..i], [cs[i]]);
    JoinOne(cs[i]);
    assert cs == cs[..i + 1] + cs[i + 1..];
    EncodeAppend(cs[..i + 1], cs[i + 1..]);
  }

  class Writer {
    const h: Digest
    const kind: Kind
    const sender: Sender

    var phase: Phase
    var err: Error
    var sent: seq<Fragment>
    // the open fragment: its buffer after the checksum, and its flags byte
    var contents: WriteBuffer?
    var flags: Byte
    // the open chunk: where its length goes, and its length so far (a uint16)
    var chunkRef: nat
    var chunkSize: nat
    var summed: Bytes

    ghost var model: State

    ghost function Repr(): (r: set<object>)
      reads this
    {
      {this} + if contents != null then {contents, contents.buffer} else {}
    }

    ghost predicate Linked()
      reads this
    {
      && phase == model.phase && err == model.err && summed == model.summed
      && sent == SealAll(kind, model.sent)
      && sender.Valid()
    }

    ghost predicate Holds(bytes: Bytes)
      reads Repr()
    {
      && contents != null && contents.Valid()
      && contents.View() == WBuf(bytes, sender.capacity(|sent|), false)
      && flags == sender.flags
    }

    ghost predicate InChunk()
      reads Repr()
    {
      && contents != null && contents.Valid()
      && OpenChunk(contents.View(), sender.capacity(|sent|), model.chunks, chunkRef, chunkSize)
      && flags == sender.flags
    }

    ghost predicate Valid()
      reads Repr()
      ensures Valid() ==> Linked() && Shape(sender, model)
    {
      && Linked() && Shape(sender, model)
      && (err == NoError && phase == Start ==> contents == null)
      && (err == NoError && model.Writing() ==> InChunk())
      && (err == NoError && phase == Waiting ==> Holds(Encode(model.chunks)))
    }

    // What Flush needs: an argument is being written.
    ghost predicate FlushReady()
      reads Repr()
    {
      Linked() && err == NoError && InChunk() && model.Writing()
    }

    constructor (h: Digest, kind: Kind, sender: Sender)
      requires sender.Valid()
      ensures Valid() && fresh(Repr()) && model == INITIAL
      ensures this.h == h && this.kind == kind && this.sender == sender
    {
      this.h, this.kind, this.sender := h, kind, sender;
      phase, err, sent, contents, summed := Start, NoError, [], null, [];
      flags, chunkRef, chunkSize := 0, 0, 0;
      model := INITIAL;
    }

    // sender.newFragment
    method NewFragment(initial: bool)
      requires Linked() && err == NoError
      requires initial ==> model == INITIAL
      requires !initial ==> |sent| >= 1
      modifies this`contents, this`flags, this`err, this`summed, this`model
      ensures Linked() && model == M.NewFragment(sender, old(model), initial)
      ensures fresh(Repr() - old(Repr()))
      ensures err == NoError ==> Holds(Encode(model.chunks)) && fresh(contents) && fresh(contents.buffer)
    {
      hide Encode, Join;
      model := M.NewFragment(sender, model, initial);
      if sender.newFails(|sent|) {
        contents, err := null, SenderFailed;
        return;
      }
      contents := new WriteBuffer(sender.capacity(|sent|));
      flags := sender.flags;
      if initial {
        WritePreamble();
      } else {
        EncodeNone();
      }
    }

    method WritePreamble()
      requires sender.Valid() && |sent| == 0
      requires Holds([])
      modifies this`summed, contents, contents.buffer
      ensures Holds(Encode(sender.preamble)) && summed == old(summed) + Join(sender.preamble)
    {
      hide Encode, Join, WBuf.Put, U16;
      EncodeNone();
      assert sender.preamble[..0] == [];
      var i := 0;
      while i < |sender.preamble|
        invariant 0 <= i <= |sender.preamble|
        invariant Holds(Encode(sender.preamble[..i]))
        invariant summed == old(summed) + Join(sender.preamble[..i])
      {
        var c := sender.preamble[i];
        PrefixFits(sender.preamble, i);
        contents.WriteBytes(U16(|c|));
        contents.WriteBytes(c);
        summed := summed + c;
        i := i + 1;
      }
      assert sender.preamble[..i] == sender.preamble;
    }

    // writableFragment.finish and sender.flushFragment
    method FlushFragment(more: bool)
      requires Linked() && err == NoError && Holds(Encode(model.chunks))
      modifies this`flags, this`err, this`sent, this`model
      ensures Linked() && model == M.FlushFragment(h, kind, sender, old(model), more)
      ensures err == NoError ==> |sent| >= 1
    {
      hide Encode;
      model := M.FlushFragment(h, kind, sender, model, more);
      var csum := h(kind, summed);
      if more {
        flags := MORE_FRAGMENTS;
      }
      if sender.flushFails(|sent|) {
        err := SenderFailed;
        return;
      }
      sent := sent + [Fragment(flags, TypeCode(kind), csum, contents.buffer[..contents.pos])];
    }

    // newWritableChunk
    method BeginChunk()
      requires Holds(Encode(model.chunks))
      requires contents.BytesRemaining() >= CHUNK_HEADER_SIZE
      modifies this`chunkRef, this`chunkSize, this`model, contents, contents.buffer
      ensures model == old(model).(chunks := old(model).chunks + [[]])
      ensures InChunk()
    {
      hide Encode, OpenChunk, WBuf.Put;
      OpenBegin(sender.capacity(|sent|), model.chunks);
      chunkRef := contents.Defer(2);
      chunkSize := 0;
      model := model.(chunks := model.chunks + [[]]);
    }

    // writableChunk.finish
    method FinishChunk()
      requires InChunk()
      modifies contents.buffer
      ensures Holds(Encode(model.chunks))
    {
      hide Encode, OpenChunk, U16, Patch;
      OpenFinish(contents.View(), sender.capacity(|sent|), model.chunks, chunkRef, chunkSize);
      contents.Update(chunkRef, U16(chunkSize));
    }

    // The uint16 chunk length cannot wrap: a chunk fits in its fragment.
    method WriteAsFits(b: Bytes) returns (n: nat)
      requires Linked() && InChunk() && 0 <= Room(sender, model)
      modifies this`chunkSize, this`summed, this`model, contents, contents.buffer
      ensures var room := Room(sender, old(model)); n == if |b| > room then room else |b|
      ensures n <= |b| && old(model).chunks != [] && Linked() && model == Put(old(model), b[..n])
      ensures InChunk()
    {
      hide Encode, OpenChunk, U16, Patch, WBuf.Put;
      OpenFinish(contents.View(), sender.capacity(|sent|), model.chunks, chunkRef, chunkSize);
      n := |b|;
      if n > contents.BytesRemaining() {
        n := contents.BytesRemaining();
      }
      OpenPut(contents.View(), sender.capacity(|sent|), model.chunks, chunkRef, chunkSize, b[..n]);
      summed := summed + b[..n];
      contents.WriteBytes(b[..n]);
      chunkSize := (chunkSize + n) % 0x1_0000;
      model := Put(model, b[..n]);
    }

    method BeginArgument(last: bool)
      requires Valid()
      modifies Repr()
      ensures Valid() && fresh(Repr() - old(Repr()))
      ensures model == M.BeginArgument(sender, old(model), last)
    {
      hide Encode, Join, OpenChunk, WBuf.Put;
      BeginShape(sender, model, last);
      if err != NoError { return; }
      if phase == Complete || phase == InArgument || phase == InLastArgument {
        err := if phase == Complete then AlreadyComplete else AlreadyWriting;
        model := model.(err := err);
        return;
      }
      if contents == null {
        NewFragment(phase == Start);
        if err != NoError { return; }
      }
      assert contents.BytesRemaining() > CHUNK_HEADER_SIZE;  // the source panics otherwise
      BeginChunk();
      phase := if last then InLastArgument else InArgument;
      model := model.(phase := phase);
    }

    method Write(b: Bytes) returns (total: nat)
      requires Valid()
      modifies Repr()
      ensures Valid() && fresh(Repr() - old(Repr()))
      ensures (model, total) == M.Write(h, kind, sender, old(model), b)
    {
      hide Encode, OpenChunk;
      if err != NoError { return 0; }
      if phase != InArgument && phase != InLastArgument {
        err := NotWriting;
        model := model.(err := NotWriting);
        return 0;
      }
      total := WriteLoop(b);
    }

    method WriteLoop(b: Bytes) returns (total: nat)
      requires Valid() && err == NoError && model.Writing()
      modifies Repr()
      ensures Valid() && fresh(Repr() - old(Repr()))
      ensures (model, total) == M.Write(h, kind, sender, old(model), b)
    {
      hide Encode, OpenChunk, M.Write, M.Flush, Put, Shape, Room;
      total := 0;
      var rest := b;
      while true
        invariant Valid() && fresh(Repr() - old(Repr()))
        invariant model.Writing() && err == NoError
        invariant M.Write(h, kind, sender, old(model), b) ==
                  (M.Write(h, kind, sender, model, rest).0, total + M.Write(h, kind, sender, model, rest).1)
        decreases |rest|, Room(sender, model) <= 0
      {
        WritingRoom(sender, model);
        ghost var room := Room(sender, model);
        WriteTurn(h, kind, sender, model, rest, if |rest| > room then room else |rest|);
        var n := WriteAsFits(rest);
        total := total + n;
        if n == |rest| {
          return;
        }
        Flush();
        if err != NoError { return; }
        rest := rest[n..];
      }
    }

    method Flush()
      requires FlushReady()
      modifies Repr()
      ensures Valid() && fresh(Repr() - old(Repr()))
      ensures model == M.Flush(h, kind, sender, old(model))
    {
      hide Encode, Unfinished;
      FlushShape(h, kind, sender, model);
      FinishChunk();
      FlushFragment(true);
      if err != NoError { return; }
      NewFragment(false);
      if err != NoError { return; }
      EncodeNone();
      BeginChunk();
    }

    method Close()
      requires Valid()
      modifies Repr()
      ensures Valid() && fresh(Repr() - old(Repr()))
      ensures model == M.Close(h, kind, sender, old(model))
    {
      hide Encode, OpenChunk;
      CloseShape(h, kind, sender, model);
      if err != NoError { return; }
      if phase != InArgument && phase != InLastArgument {
        err := NotWriting;
        model := model.(err := NotWriting);
        return;
      }
      var last := phase == InLastArgument;
      FinishChunk();
      phase := if last then Complete else Waiting;
      model := model.(phase := phase);
      if last {
        FlushFragment(false);
      } else if contents.BytesRemaining() <= CHUNK_HEADER_SIZE {
        Spill();
      }
    }

    // The fragment is full: the end of the argument is marked in the next one.
    method Spill()
      requires Linked() && err == NoError && Holds(Encode(model.chunks))
      modifies Repr()
      ensures Linked() && fresh(Repr() - old(Repr()))
      ensures model == var w := M.NextFragment(h, kind, sender, old(model));
                       if w.err != NoError then w else w.(chunks := w.chunks + [[]])
      ensures err == NoError ==> Holds(Encode(model.chunks))
    {
      hide Encode;
      FlushFragment(true);
      if err != NoError { return; }
      NewFragment(false);
      if err != NoError { return; }
      EncodeNone();
      EndEmptyChunk();
    }

    // An empty chunk that marks the end of the argument spilled from the last fragment.
    method EndEmptyChunk()
      requires Holds(Encode(model.chunks)) && model.chunks == []
      requires contents.BytesRemaining() >= CHUNK_HEADER_SIZE
      modifies this`model, contents, contents.buffer
      ensures model == old(model).(chunks := old(model).chunks + [[]])
      ensures Holds(Encode(model.chunks))
    {
      EncodeOne([]);
      assert model.chunks + [[]] == [[]];
      contents.WriteUint(0, 2);
      model := model.(chunks := model.chunks + [[]]);
    }
  }
}
