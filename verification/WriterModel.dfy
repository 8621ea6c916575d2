/** What the fragmenting writer (fragmenting_writer.go) does, told by chunk lists:
    a stream of arguments is cut into bounded fragments of length-prefixed chunks
    under one running checksum. */
module WriterModel {
  import opened Buffers
  import opened Chunks

  datatype Phase = Start | InArgument | InLastArgument | Waiting | Complete

  datatype Error = NoError | AlreadyWriting | NotWriting | AlreadyComplete | SenderFailed

  /** What the fragment sender does: the capacity of each fragment after its
      checksum, which calls fail, the flags a fragment starts with, and the chunks
      the sender itself puts in the first fragment (arg1, when a relay sends). */
  datatype Sender = Sender(capacity: nat -> nat, newFails: nat -> bool, flushFails: nat -> bool,
                           flags: Byte, preamble: seq<Chunk>) {
    // The room the writer needs to make progress without panicking or spinning.
    ghost predicate Valid() {
      && |Encode(preamble)| + 3 <= capacity(0)
      && (forall i: nat :: capacity(i) < 0x1_0000)
      && (forall i: nat :: i >= 1 ==> 5 <= capacity(i))
    }

    ghost predicate Reliable() {
      forall i: nat :: !newFails(i) && !flushFails(i)
    }
  }

  const CHUNK_HEADER_SIZE := 2

  /** `chunks` are the chunks of the open fragment, the last one still growing
      while an argument is being written; `summed` is what the checksum has seen. */
  datatype State = State(phase: Phase, sent: seq<Split>, open: bool, chunks: seq<Chunk>,
                         summed: Bytes, err: Error) {
    predicate Writing() {
      phase == InArgument || phase == InLastArgument
    }
  }

  const INITIAL := State(Start, [], false, [], [], NoError)

  function Room(p: Sender, w: State): (n: int) {
    p.capacity(|w.sent|) - |Encode(w.chunks)|
  }

  // Facts every run keeps, whether or not the sender fails.
  ghost predicate Shape(p: Sender, w: State) {
    w.err == NoError ==>
      match w.phase
      case Start => w == INITIAL
      case Complete => !w.open
      case Waiting => w.open && w.chunks != [] && Room(p, w) > CHUNK_HEADER_SIZE
      case _ => w.open && w.chunks != [] && Room(p, w) >= 0
  }

  // ---------- the operations ----------

  function NewFragment(p: Sender, w: State, initial: bool): (r: State) {
    if p.newFails(|w.sent|) then w.(open := false, chunks := [], err := SenderFailed)
    else if initial then w.(open := true, chunks := p.preamble, summed := w.summed + Join(p.preamble))
    else w.(open := true, chunks := [])
  }

  function FlushFragment(h: Digest, k: Kind, p: Sender, w: State, more: bool): (r: State) {
    if p.flushFails(|w.sent|) then w.(open := false, chunks := [], err := SenderFailed)
    else
      var flags := if more then MORE_FRAGMENTS else p.flags;
      w.(sent := w.sent + [Split(flags, h(k, w.summed), w.chunks)], open := false, chunks := [])
  }

  function NextFragment(h: Digest, k: Kind, p: Sender, w: State): (r: State) {
    var w1 := FlushFragment(h, k, p, w, true);
    if w1.err != NoError then w1 else NewFragment(p, w1, false)
  }

  function BeginArgument(p: Sender, w: State, last: bool): (r: State) {
    if w.err != NoError then w
    else if w.phase == Complete then w.(err := AlreadyComplete)
    else if w.Writing() then w.(err := AlreadyWriting)
    else
      var w1 := if w.open then w else NewFragment(p, w, w.phase == Start);
      if w1.err != NoError then w1
      else w1.(phase := if last then InLastArgument else InArgument, chunks := w1.chunks + [[]])
  }

  function Flush(h: Digest, k: Kind, p: Sender, w: State): (r: State) {
    var w1 := NextFragment(h, k, p, w);
    if w1.err != NoError then w1 else w1.(chunks := w1.chunks + [[]])
  }

  function Put(w: State, b: Bytes): (r: State)
    requires w.chunks != []
  {
    w.(chunks := Extend(w.chunks, b), summed := w.summed + b)
  }

  // Terminates because every fragment after the first has room for at least one byte.
  function Write(h: Digest, k: Kind, p: Sender, w: State, b: Bytes): (r: (State, nat))
    requires p.Valid() && Shape(p, w)
    decreases |b|, w.err == NoError && w.Writing() && Room(p, w) <= 0
  {
    if w.err != NoError then (w, 0)
    else if !w.Writing() then (w.(err := NotWriting), 0)
    else
      var n := if |b| > Room(p, w) then Room(p, w) else |b|;
      var w1 := Put(w, b[..n]);
      if n == |b| then (w1, n)
      else
        var w2 := Flush(h, k, p, w1);
        FlushShape(h, k, p, w1);
        var (w3, m) := Write(h, k, p, w2, b[n..]);
        (w3, n + m)
  }

  function Close(h: Digest, k: Kind, p: Sender, w: State): (r: State) {
    if w.err != NoError then w
    else if !w.Writing() then w.(err := NotWriting)
    else if w.phase == InLastArgument then
      FlushFragment(h, k, p, w.(phase := Complete), false)
    else
      var w1 := w.(phase := Waiting);
      if Room(p, w1) > CHUNK_HEADER_SIZE then w1
      else
        var w2 := NextFragment(h, k, p, w1);
        if w2.err != NoError then w2 else w2.(chunks := w2.chunks + [[]])
  }

  lemma FlushShape(h: Digest, k: Kind, p: Sender, w: State)
    requires p.Valid() && w.err == NoError && w.Writing()
    ensures var w1 := Flush(h, k, p, w);
            Shape(p, w1) && (w1.err == NoError ==> w1.phase == w.phase && Room(p, w1) >= 3)
  {
    var none: seq<Chunk> := [];
    assert none + [[]] == [[]];
    EncodeOne([]);
  }

  lemma PutShape(p: Sender, w: State, b: Bytes)
    requires Shape(p, w) && w.err == NoError && w.Writing() && |b| <= Room(p, w)
    ensures Shape(p, Put(w, b)) && Room(p, Put(w, b)) == Room(p, w) - |b|
    ensures Put(w, b).phase == w.phase && Put(w, b).err == NoError
  {
    hide Encode, Extend;
    EncodeExtend(w.chunks, b);
  }

  lemma BeginShape(p: Sender, w: State, last: bool)
    requires p.Valid() && Shape(p, w)
    ensures Shape(p, BeginArgument(p, w, last))
  {
    EncodeAppend(p.preamble, [[]]);
    EncodeAppend(w.chunks, [[]]);
    EncodeOne([]);
  }

  lemma WritingRoom(p: Sender, w: State)
    requires Shape(p, w) && w.err == NoError && w.Writing()
    ensures w.open && w.chunks != [] && Room(p, w) >= 0
  {
  }

  // One turn of the loop in Write.
  lemma WriteTurn(h: Digest, k: Kind, p: Sender, w: State, b: Bytes, n: nat)
    requires p.Valid() && Shape(p, w) && w.err == NoError && w.Writing() && w.chunks != []
    requires n == if |b| > Room(p, w) then Room(p, w) else |b|
    ensures var w1 := Put(w, b[..n]);
            && Shape(p, w1) && 0 <= Room(p, w1) && w1.Writing()
            && var w2 := Flush(h, k, p, w1);
            && Shape(p, w2)
            && (w2.err == NoError ==> w2.Writing() && Room(p, w2) > 0)
            && Write(h, k, p, w, b) ==
                 if n == |b| then (w1, n)
                 else if w2.err != NoError then (w2, n)
                 else var (w3, m) := Write(h, k, p, w2, b[n..]); (w3, n + m)
  {
    hide Put, Flush, Shape, Room, Sender.Valid;
    PutShape(p, w, b[..n]);
    FlushShape(h, k, p, Put(w, b[..n]));
    var w1 := Put(w, b[..n]);
    var w2 := Flush(h, k, p, w1);
    if n != |b| && w2.err != NoError {
      assert Write(h, k, p, w2, b[n..]) == (w2, 0);
    }
  }

  lemma {:induction false} WriteShape(h: Digest, k: Kind, p: Sender, w: State, b: Bytes)
    requires p.Valid() && Shape(p, w)
    ensures Shape(p, Write(h, k, p, w, b).0)
    decreases |b|, w.err == NoError && w.Writing() && Room(p, w) <= 0
  {
    if w.err != NoError || !w.Writing() {
    } else {
      var n := if |b| > Room(p, w) then Room(p, w) else |b|;
      PutShape(p, w, b[..n]);
      if n != |b| {
        var w1 := Put(w, b[..n]);
        FlushShape(h, k, p, w1);
        WriteShape(h, k, p, Flush(h, k, p, w1), b[n..]);
      }
    }
  }

  lemma CloseShape(h: Digest, k: Kind, p: Sender, w: State)
    requires p.Valid() && Shape(p, w)
    ensures Shape(p, Close(h, k, p, w))
  {
    var none: seq<Chunk> := [];
    assert none + [[]] == [[]];
    EncodeOne([]);
  }

  // ---------- what has been written ----------

  // The arguments denoted by everything sent and the fragment still open.
  function Args(w: State): (r: seq<Chunk>)
    requires forall i :: 0 <= i < |w.sent| ==> w.sent[i].chunks != []
    requires w.open ==> w.chunks != []
  {
    Glue(ChunkLists(w.sent) + if w.open then [w.chunks] else [])
  }

  /** What was sent is a checksummed chain, the running checksum has seen exactly
      the chunks written, and `args` is what sent and open chunks denote. */
  ghost predicate Denotes(h: Digest, k: Kind, w: State, lastMore: bool, args: seq<Chunk>) {
    && (forall i :: 0 <= i < |w.sent| ==> w.sent[i].chunks != [])
    && w.open == (w.chunks != [])
    && Chain(h, k, [], w.sent, lastMore)
    && w.summed == Data(w.sent) + Join(w.chunks)
    && Args(w) == args
  }

  // Every fragment sent is within its capacity.
  ghost predicate SentFits(p: Sender, w: State) {
    forall i :: 0 <= i < |w.sent| ==> |Encode(w.sent[i].chunks)| <= p.capacity(i)
  }

  /** The invariant of a run that has written `args` so far. */
  ghost predicate Writes(h: Digest, k: Kind, p: Sender, w: State, args: seq<Chunk>) {
    && p.Valid() && Shape(p, w)
    && (w.err == NoError ==>
          if w.phase == Start then args == p.preamble
          else
            && Denotes(h, k, w, w.phase != Complete || HasMore(p.flags), args)
            && SentFits(p, w)
            && (w.phase == Complete ==> w.sent != []))
  }

  lemma InitialWrites(h: Digest, k: Kind, p: Sender)
    requires p.Valid()
    ensures Writes(h, k, p, INITIAL, p.preamble)
  {
  }

  lemma SentSnoc(fs: seq<Split>, f: Split)
    ensures ChunkLists(fs + [f]) == ChunkLists(fs) + [f.chunks]
    ensures Data(fs + [f]) == Data(fs) + Join(f.chunks)
  {
    DataAppend(fs, [f]);
    assert [f][1..] == [];
    assert Join(f.chunks) + [] == Join(f.chunks);
  }

  lemma ChainOne(h: Digest, k: Kind, seen: Bytes, f: Split, more: bool)
    requires FragmentOk(h, k, seen, f, more)
    ensures Chain(h, k, seen, [f], more)
  {
  }

  /** Flushing the open fragment extends the chain and denotes the same arguments. */
  lemma FlushFragmentDenotes(h: Digest, k: Kind, p: Sender, w: State, more: bool, args: seq<Chunk>)
    requires p.Valid() && w.err == NoError && w.open && 0 <= Room(p, w)
    requires Denotes(h, k, w, true, args) && SentFits(p, w)
    ensures var w1 := FlushFragment(h, k, p, w, more);
            w1.err == NoError ==>
              Denotes(h, k, w1, more || HasMore(p.flags), args) && SentFits(p, w1) && w1.sent != []
  {
    hide Chain, Encode, Join, Data, Glue;
    var w1 := FlushFragment(h, k, p, w, more);
    if w1.err == NoError {
      var f := w1.sent[|w.sent|];
      SentSnoc(w.sent, f);
      assert [] + Data(w.sent) == Data(w.sent);
      ChainOne(h, k, Data(w.sent), f, more || HasMore(p.flags));
      ChainAppend(h, k, [], w.sent, [f], more || HasMore(p.flags));
      assert ChunkLists(w1.sent) + [] == ChunkLists(w.sent) + [w.chunks];
      assert Data(w1.sent) + Join([]) == Data(w1.sent) by { JoinNone(); }
    }
  }

  // Opening an empty chunk in a fresh fragment denotes nothing new.
  lemma EmptyChunkIsUnit(fs: seq<seq<Chunk>>)
    requires forall i :: 0 <= i < |fs| ==> fs[i] != []
    ensures Glue(fs + [[[]]]) == Glue(fs)
  {
    GlueSnoc(fs, [[]]);
    Glue2Unit(Glue(fs));
  }

  /** Moving to the next fragment and opening an empty chunk there changes nothing. */
  lemma FlushFragmentEnds(h: Digest, k: Kind, p: Sender, w: State, more: bool)
    ensures var w1 := FlushFragment(h, k, p, w, more);
      w1.err == w.err == NoError ==> !w1.open && w1.chunks == [] && w1.sent != [] && |w1.sent| == |w.sent| + 1
  {
  }

  lemma NextFragmentDenotes(h: Digest, k: Kind, p: Sender, w: State, args: seq<Chunk>)
    requires p.Valid() && w.err == NoError && w.open && 0 <= Room(p, w)
    requires Denotes(h, k, w, true, args) && SentFits(p, w)
    ensures var w1 := NextFragment(h, k, p, w);
            w1.err == NoError ==>
              var w2 := w1.(chunks := w1.chunks + [[]]);
              w2.open && Denotes(h, k, w2, true, args) && SentFits(p, w2) && Room(p, w2) >= 3
  {
    hide Chain, Encode, Join, Data, Glue, FlushFragment;
    var w0 := FlushFragment(h, k, p, w, true);
    FlushFragmentDenotes(h, k, p, w, true, args);
    FlushFragmentEnds(h, k, p, w, true);
    JoinNone();
    var w1 := NextFragment(h, k, p, w);
    if w1.err == NoError {
      var w2 := w1.(chunks := w1.chunks + [[]]);
      assert w2.chunks == [[]];
      EncodeOne([]);
      JoinOne([]);
      EmptyChunkIsUnit(ChunkLists(w0.sent));
      assert ChunkLists(w0.sent) + [] == ChunkLists(w0.sent);
    }
  }

  lemma ArgsBegin(w: State, chunks: seq<Chunk>)
    requires forall i :: 0 <= i < |w.sent| ==> w.sent[i].chunks != []
    requires w.open && chunks == w.chunks + [[]]
    ensures w.chunks != [] ==> Args(w.(chunks := chunks)) == Args(w) + [[]]
    ensures w.sent == [] ==> Args(w.(chunks := chunks)) == chunks
    ensures |Encode(chunks)| == |Encode(w.chunks)| + CHUNK_HEADER_SIZE && Join(chunks) == Join(w.chunks)
  {
    EncodeAppend(w.chunks, [[]]);
    EncodeOne([]);
    JoinAppend(w.chunks, [[]]);
    JoinOne([]);
    GlueSnoc(ChunkLists(w.sent), chunks);
    if w.chunks != [] {
      GlueSnoc(ChunkLists(w.sent), w.chunks);
      Glue2Grow(Glue(ChunkLists(w.sent)), w.chunks);
    }
    if w.sent == [] {
      Glue2Unit(chunks);
    }
  }

  lemma BeginFirst(h: Digest, k: Kind, p: Sender, last: bool)
    requires p.Valid() && !p.newFails(0)
    ensures Writes(h, k, p, BeginArgument(p, INITIAL, last), p.preamble + [[]])
  {
    var w1 := NewFragment(p, INITIAL, true);
    ArgsBegin(w1, p.preamble + [[]]);
    assert [] + Join(p.preamble) == Join(p.preamble);
  }

  /** Beginning an argument adds an empty argument. */
  lemma BeginWrites(h: Digest, k: Kind, p: Sender, w: State, last: bool, args: seq<Chunk>)
    requires Writes(h, k, p, w, args)
    ensures Writes(h, k, p, BeginArgument(p, w, last), args + [[]])
    ensures w.err == NoError && (w.phase == Start || w.phase == Waiting) && p.Reliable() ==>
              BeginArgument(p, w, last).err == NoError
  {
    if w.err == NoError {
      if w.phase == Start {
        if !p.newFails(0) {
          BeginFirst(h, k, p, last);
        }
      } else if w.phase == Waiting {
        ArgsBegin(w, w.chunks + [[]]);
      }
    }
  }

  lemma Glue2Grow(a: seq<Chunk>, b: seq<Chunk>)
    requires a != [] && b != []
    ensures Glue2(a, b + [[]]) == Glue2(a, b) + [[]]
  {
  }

  lemma Glue2Extend(a: seq<Chunk>, b: seq<Chunk>, x: Bytes)
    requires a != [] && b != []
    ensures Glue2(a, Extend(b, x)) == Extend(Glue2(a, b), x)
  {
    if |b| == 1 {
      assert a[|a| - 1] + (b[0] + x) == a[|a| - 1] + b[0] + x;
    }
  }

  lemma ArgsPut(w: State, b: Bytes)
    requires forall i :: 0 <= i < |w.sent| ==> w.sent[i].chunks != []
    requires w.open && w.chunks != []
    ensures Args(w) != [] && Args(Put(w, b)) == Extend(Args(w), b)
  {
    GlueSnoc(ChunkLists(w.sent), w.chunks);
    GlueSnoc(ChunkLists(w.sent), Extend(w.chunks, b));
    Glue2Extend(Glue(ChunkLists(w.sent)), w.chunks, b);
  }

  lemma PutWrites(h: Digest, k: Kind, p: Sender, w: State, b: Bytes, args: seq<Chunk>)
    requires Writes(h, k, p, w, args) && w.err == NoError && w.Writing()
    requires |b| <= Room(p, w)
    ensures args != [] && Writes(h, k, p, Put(w, b), Extend(args, b))
  {
    hide Encode, Join, Chain, Glue, Args, Extend, Data;
    EncodeExtend(w.chunks, b);
    JoinExtend(w.chunks, b);
    ArgsPut(w, b);
    assert Data(w.sent) + Join(w.chunks) + b == Data(w.sent) + (Join(w.chunks) + b);
  }

  /** Whatever the capacities, a Write adds its bytes to the current argument. */
  lemma {:induction false} WriteWrites(h: Digest, k: Kind, p: Sender, w: State, b: Bytes, args: seq<Chunk>)
    requires Writes(h, k, p, w, args) && w.err == NoError && w.Writing()
    ensures args != []
    ensures var (r, n) := Write(h, k, p, w, b);
            && n <= |b|
            && Writes(h, k, p, r, Extend(args, b))
            && (r.err == NoError ==> r.phase == w.phase && n == |b|)
            && (p.Reliable() ==> r.err == NoError)
    decreases |b|, Room(p, w) <= 0
  {
    var n := if |b| > Room(p, w) then Room(p, w) else |b|;
    PutWrites(h, k, p, w, b[..n], args);
    if n == |b| {
      assert b[..n] == b;
    } else {
      var w1 := Put(w, b[..n]);
      FlushWrites(h, k, p, w1, Extend(args, b[..n]));
      FlushShape(h, k, p, w1);
      var w2 := Flush(h, k, p, w1);
      if w2.err == NoError {
        WriteWrites(h, k, p, w2, b[n..], Extend(args, b[..n]));
        ExtendTwice(args, b, n);
      }
    }
  }

  lemma ExtendTwice(args: seq<Chunk>, b: Bytes, n: nat)
    requires args != [] && n <= |b|
    ensures Extend(Extend(args, b[..n]), b[n..]) == Extend(args, b)
  {
    assert b[..n] + b[n..] == b;
    assert args[|args| - 1] + b[..n] + b[n..] == args[|args| - 1] + (b[..n] + b[n..]);
  }

  lemma FlushWrites(h: Digest, k: Kind, p: Sender, w: State, args: seq<Chunk>)
    requires Writes(h, k, p, w, args) && w.err == NoError && w.Writing()
    ensures var r := Flush(h, k, p, w);
            && Writes(h, k, p, r, args)
            && (r.err == NoError ==> r.phase == w.phase)
            && (p.Reliable() ==> r.err == NoError)
  {
    NextFragmentDenotes(h, k, p, w, args);
  }

  /** Closing denotes the same arguments, even when it has to spill an empty
      chunk into a new fragment to mark the end of the argument. */
  lemma CloseWrites(h: Digest, k: Kind, p: Sender, w: State, args: seq<Chunk>)
    requires Writes(h, k, p, w, args) && w.err == NoError && w.Writing()
    ensures var r := Close(h, k, p, w);
            && Writes(h, k, p, r, args)
            && (r.err == NoError ==> r.phase == if w.phase == InLastArgument then Complete else Waiting)
            && (p.Reliable() ==> r.err == NoError)
  {
    hide Encode, Join, Chain, Glue;
    if w.phase == InLastArgument {
      FlushFragmentDenotes(h, k, p, w.(phase := Complete), false, args);
    } else if Room(p, w) <= CHUNK_HEADER_SIZE {
      NextFragmentDenotes(h, k, p, w.(phase := Waiting), args);
    }
  }

  // ---------- the first fragment ----------

  // The first fragment starts with chunk c and has another chunk after it.
  predicate FirstHas(w: State, c: Chunk) {
    if w.sent == [] then |w.chunks| >= 2 && w.chunks[0] == c
    else |w.sent[0].chunks| >= 2 && w.sent[0].chunks[0] == c
  }

  // Either that, or c is all there is and the next argument follows it.
  predicate OpensWith(w: State, c: Chunk) {
    FirstHas(w, c) || (w.phase == Waiting && w.open && w.sent == [] && w.chunks == [c])
  }

  lemma BeginKeepsFirst(p: Sender, w: State, last: bool, c: Chunk)
    requires w.err == NoError && w.phase == Waiting && w.open && OpensWith(w, c)
    ensures FirstHas(BeginArgument(p, w, last), c)
  {
  }

  lemma FlushKeepsFirst(h: Digest, k: Kind, p: Sender, w: State, c: Chunk)
    requires p.Reliable() && w.err == NoError && FirstHas(w, c)
    ensures FirstHas(Flush(h, k, p, w), c)
    ensures FirstHas(Close(h, k, p, w), c)
  {
  }

  lemma {:induction false} WriteKeepsFirst(h: Digest, k: Kind, p: Sender, w: State, b: Bytes, c: Chunk)
    requires p.Valid() && p.Reliable() && Shape(p, w) && FirstHas(w, c)
    ensures FirstHas(Write(h, k, p, w, b).0, c)
    decreases |b|, w.err == NoError && w.Writing() && Room(p, w) <= 0
  {
    if w.err != NoError || !w.Writing() {
    } else {
      var n := if |b| > Room(p, w) then Room(p, w) else |b|;
      PutShape(p, w, b[..n]);
      var w1 := Put(w, b[..n]);
      if n != |b| {
        FlushShape(h, k, p, w1);
        FlushKeepsFirst(h, k, p, w1, c);
        WriteKeepsFirst(h, k, p, Flush(h, k, p, w1), b[n..], c);
      }
    }
  }

  lemma FirstBegins(p: Sender)
    requires p.Valid() && p.Reliable() && p.preamble == []
    ensures var w1 := BeginArgument(p, INITIAL, false);
      && Shape(p, w1) && w1.err == NoError && w1.phase == InArgument
      && w1.sent == [] && w1.open && w1.chunks == [[]] && Room(p, w1) == p.capacity(0) - CHUNK_HEADER_SIZE
  {
    BeginShape(p, INITIAL, false);
    hide Shape, Encode;
    var none: seq<Chunk> := [];
    assert none + [[]] == [[]];
    EncodeOne([]);
  }

  /** A first argument that fits with room to spare is one chunk of the open fragment,
      and the next argument starts in that fragment too. */
  lemma FirstArgumentWhole(h: Digest, k: Kind, p: Sender, b: Bytes)
    requires p.Valid() && p.Reliable() && p.preamble == []
    requires |b| + 2 * CHUNK_HEADER_SIZE < p.capacity(0)
    ensures var w1 := BeginArgument(p, INITIAL, false);
      && Shape(p, w1) && w1.err == NoError && w1.Writing()
      && var w2 := Write(h, k, p, w1, b).0;
      && w2.err == NoError && w2.Writing()
      && var w3 := Close(h, k, p, w2);
      && w3.err == NoError && w3.phase == Waiting && w3.sent == [] && w3.open && w3.chunks == [b]
  {
    hide BeginArgument, Write, Shape, Encode, Sender.Valid;
    FirstBegins(p);
    var w1 := BeginArgument(p, INITIAL, false);
    WriteTurn(h, k, p, w1, b, |b|);
    PutShape(p, w1, b[..|b|]);
    assert b[..|b|] == b && [] + b == b;
  }

  // ---------- whether an argument stays in the first fragment ----------

  lemma OthersKeepSent(h: Digest, k: Kind, p: Sender, w: State, last: bool)
    ensures w.sent <= BeginArgument(p, w, last).sent && w.sent <= Flush(h, k, p, w).sent
      && w.sent <= Close(h, k, p, w).sent
  {
    hide Room, Join;
  }

  lemma {:induction false} WriteKeepsSent(h: Digest, k: Kind, p: Sender, w: State, b: Bytes)
    requires p.Valid() && Shape(p, w) && w.err == NoError && w.Writing()
    ensures w.sent <= Write(h, k, p, w, b).0.sent
    decreases |b|, Room(p, w) <= 0
  {
    hide Sender.Valid, Shape, Write, Flush, Room;
    WritingRoom(p, w);
    var n := if |b| > Room(p, w) then Room(p, w) else |b|;
    WriteTurn(h, k, p, w, b, n);
    var w1 := Put(w, b[..n]);
    if n == |b| {
    } else {
      OthersKeepSent(h, k, p, w1, false);
      var w2 := Flush(h, k, p, w1);
      if w2.err == NoError {
        WriteKeepsSent(h, k, p, w2, b[n..]);
      }
    }
  }

  /** An argument begun in the first fragment, where w0 left off, and b of it written: it is
      still there as long as it fits and nothing was flushed, and has moved on otherwise. */
  ghost predicate Follows(p: Sender, w0: State, w: State, b: Bytes, flushed: bool)
    requires w0.chunks != []
  {
    if !flushed && |b| <= Room(p, w0) then w.sent == [] && w.open && w.chunks == Extend(w0.chunks, b)
    else w.sent != [] && |w.sent[0].chunks| == |w0.chunks|
  }

  lemma FollowsBegin(p: Sender, w0: State)
    requires w0.sent == [] && w0.open && w0.chunks != [] && Room(p, w0) >= 0
    ensures Follows(p, w0, w0, [], false)
  {
    assert w0.chunks[|w0.chunks| - 1] + [] == w0.chunks[|w0.chunks| - 1];
  }

  lemma RoomLeft(p: Sender, w0: State, w: State, b: Bytes)
    requires w0.sent == [] && w0.chunks != [] && w.sent == [] && w.chunks == Extend(w0.chunks, b)
    ensures Room(p, w) == Room(p, w0) - |b|
  {
    EncodeExtend(w0.chunks, b);
  }

  lemma FollowsWrite(h: Digest, k: Kind, p: Sender, w0: State, w: State, b: Bytes, flushed: bool, x: Bytes)
    requires p.Valid() && p.Reliable() && Shape(p, w) && w.err == NoError && w.Writing()
    requires w0.sent == [] && w0.chunks != [] && Follows(p, w0, w, b, flushed)
    ensures Follows(p, w0, Write(h, k, p, w, x).0, b + x, flushed)
  {
    hide Shape, Sender.Valid, Write, Room, Extend, Flush;
    WriteKeepsSent(h, k, p, w, x);
    if w.sent == [] {
      WritingRoom(p, w);
      RoomLeft(p, w0, w, b);
      var n := if |x| > Room(p, w) then Room(p, w) else |x|;
      WriteTurn(h, k, p, w, x, n);
      ExtendMore(w0.chunks, b, x[..n]);
      if n == |x| {
        assert x[..n] == x;
      } else {
        FlushReliable(h, k, p, Put(w, x[..n]));
        WriteKeepsSent(h, k, p, Flush(h, k, p, Put(w, x[..n])), x[n..]);
      }
    }
  }

  lemma FlushReliable(h: Digest, k: Kind, p: Sender, w: State)
    requires p.Reliable() && w.err == NoError
    ensures var w1 := Flush(h, k, p, w);
      w1.err == NoError && w1.phase == w.phase && w1.sent != [] && (w.sent == [] ==> w1.sent[0].chunks == w.chunks)
  {
  }

  lemma ExtendMore(chunks: seq<Chunk>, b: Bytes, x: Bytes)
    requires chunks != []
    ensures Extend(chunks, b) != [] && Extend(Extend(chunks, b), x) == Extend(chunks, b + x)
    ensures |Extend(chunks, b)| == |chunks|
  {
    assert chunks[|chunks| - 1] + b + x == chunks[|chunks| - 1] + (b + x);
  }

  lemma FollowsFlush(h: Digest, k: Kind, p: Sender, w0: State, w: State, b: Bytes, flushed: bool)
    requires p.Reliable() && w0.chunks != [] && Follows(p, w0, w, b, flushed)
    ensures Follows(p, w0, Flush(h, k, p, w), b, true)
  {
  }

  /** Closing leaves an argument in the open first fragment if room is left there for the
      next one, and ends that fragment with it otherwise. */
  lemma FollowsClose(h: Digest, k: Kind, p: Sender, w0: State, w: State, b: Bytes, flushed: bool)
    requires p.Reliable() && w.err == NoError && w.Writing()
    requires w0.sent == [] && w0.chunks != [] && Follows(p, w0, w, b, flushed)
    ensures var w1 := Close(h, k, p, w);
      if w.phase == InArgument && !flushed && |b| + CHUNK_HEADER_SIZE < Room(p, w0)
      then w1.sent == [] && w1.open && w1.chunks == Extend(w0.chunks, b)
      else w1.sent != [] && |w1.sent[0].chunks| == |w0.chunks|
  {
    if w.sent == [] {
      RoomLeft(p, w0, w, b);
    }
  }
}
