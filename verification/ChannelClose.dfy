/** The channel's close machine over the connections it tracks (channel.go:693-888). */
module ChannelClose {
  import opened Bags
  import C = CloseMachine

  type ConnId = nat

  datatype ChannelState = Client | Listening | StartClose | InboundClosed | Closed {
    function Rank(): (n: nat) {
      match this case Client => 0 case Listening => 1 case StartClose => 2 case InboundClosed => 3 case Closed => 4
    }
  }

  datatype Task =
    // connectionCloseStateChange
    | StateChange(c: ConnId)
    | RemoveConn(c: ConnId)
    | ReadChannel
    | LockConns(seen: ChannelState)
    | Scan(seen: ChannelState, left: set<ConnId>, min: C.ConnState)
    | Update(seen: ChannelState, to: ChannelState)
    // the rest of Channel.Close, and onClosed
    | CloseConns(left: set<ConnId>)
    | CloseClosedChan

  /** `conn` holds the state of every connection there has been and `closes` counts how
      often ch.closed is closed. */
  datatype State = State(state: ChannelState, conns: set<ConnId>, conn: map<ConnId, C.ConnState>, closes: nat,
                         tasks: seq<Task>)

  function Init(): (s: State) {
    State(Client, {}, map[], 0, [])
  }

  function Conn(s: State, c: ConnId): (r: C.ConnState) {
    if c in s.conn then s.conn[c] else C.Active
  }

  datatype Outcome = Outcome(s: State, work: seq<Task>)

  // The state to move to once the lowest connection state is known.
  function AfterScan(seen: ChannelState, min: C.ConnState): (work: seq<Task>) {
    if min.Rank() >= C.ConnState.Closed.Rank() then [Update(seen, Closed)]
    else if min.Rank() >= C.ConnState.InboundClosed.Rank() && seen == StartClose then [Update(seen, InboundClosed)]
    else []
  }

  function Lower(a: C.ConnState, b: C.ConnState): (r: C.ConnState) {
    if a.Rank() < b.Rank() then a else b
  }

  // Loops over connections visit them in any order, one read or one close at a time.
  function Do(s: State, t: Task, c: ConnId): (o: Outcome) {
    match t
    case StateChange(x) => Outcome(s, [if Conn(s, x) == C.Closed then RemoveConn(x) else ReadChannel])
    case RemoveConn(x) => Outcome(s.(conns := s.conns - {x}), [ReadChannel])
    case ReadChannel =>
      Outcome(s, if s.state == StartClose || s.state == InboundClosed then [LockConns(s.state)] else [])
    case LockConns(seen) => Outcome(s, [Scan(seen, s.conns, C.Closed)])
    case Scan(seen, left, min) =>
      if left == {} then Outcome(s, AfterScan(seen, min))
      else if c in left then Outcome(s, [Scan(seen, left - {c}, Lower(Conn(s, c), min))])
      else Outcome(s, [t])
    case Update(seen, to) =>
      if s.state == seen then Outcome(s.(state := to), if to == Closed then [CloseClosedChan] else [])
      else Outcome(s, [])
    case CloseConns(left) =>
      if left == {} then Outcome(s, [])
      else if c in left then
        if Conn(s, c) == C.Active
        then Outcome(s.(conn := s.conn[c := C.StartClose]), [CloseConns(left - {c}), StateChange(c)])
        else Outcome(s, [CloseConns(left - {c})])
      else Outcome(s, [t])
    case CloseClosedChan => Outcome(s.(closes := s.closes + 1), [])
  }

  datatype Step =
    | Serve
    | AddConn(c: ConnId)
    | ConnMoves(c: ConnId, to: C.ConnState, tell: bool)
    | Close
    | Run(i: nat, choice: ConnId)

  // Connection states only move forward (GracefulClose.StopChClosedOnce). A checkExchanges
  // that goes on to a further state only calls back for that one, and a closed connection
  // always calls back.
  predicate Enabled(s: State, st: Step) {
    match st
    case ConnMoves(c, to, tell) => Conn(s, c).Rank() <= to.Rank() && (to == C.Closed ==> tell)
    case Run(i, _) => i < |s.tasks|
    case _ => true
  }

  function Perform(s: State, st: Step): (o: Outcome)
    requires Enabled(s, st)
  {
    match st
    case Serve => Outcome(if s.state == Client then s.(state := Listening) else s, [])
    case AddConn(c) =>
      if Conn(s, c) == C.Active && (s.state == Client || s.state == Listening)
      then Outcome(s.(conns := s.conns + {c}), []) else Outcome(s, [])
    case ConnMoves(c, to, tell) => Outcome(s.(conn := s.conn[c := to]), if tell then [StateChange(c)] else [])
    case Close =>
      if s.state == Closed then Outcome(s, [])
      else if s.conns == {} then Outcome(s.(state := Closed), [CloseClosedChan])
      else Outcome(s.(state := StartClose), [CloseConns(s.conns)])
    case Run(i, c) => Do(s, s.tasks[i], c)
  }

  function Others(s: State, st: Step): (ts: seq<Task>)
    requires Enabled(s, st)
  {
    if st.Run? then Without(s.tasks, st.i) else s.tasks
  }

  function Apply(s: State, st: Step): (s': State)
    requires Enabled(s, st)
  {
    var o := Perform(s, st);
    o.s.(tasks := Others(s, st) + o.work)
  }

  predicate Reaches(s: State, steps: seq<Step>, s': State)
    decreases |steps|
  {
    if steps == [] then s == s'
    else Enabled(s, steps[0]) && Reaches(Apply(s, steps[0]), steps[1..], s')
  }

  // ---------- the invariant ----------

  predicate Closing(st: ChannelState) {
    st == StartClose || st == InboundClosed || st == Closed
  }

  // Every tracked connection outside `left` has reached at least this state.
  predicate AllAtLeast(s: State, left: set<ConnId>, min: C.ConnState) {
    forall c :: c in s.conns && c !in left ==> min.Rank() <= Conn(s, c).Rank()
  }

  // What a channel in this state promises about its connections.
  predicate Promises(s: State, st: ChannelState) {
    && (st == Closed ==> AllAtLeast(s, {}, C.Closed))
    && (st == InboundClosed ==> AllAtLeast(s, {}, C.InboundClosed))
  }

  predicate TaskSound(s: State, t: Task) {
    match t
    case LockConns(seen) => Closing(s.state) && seen != Closed && Closing(seen)
    case Scan(seen, left, min) => Closing(s.state) && seen != Closed && Closing(seen) && AllAtLeast(s, left, min)
    case Update(seen, to) =>
      Closing(s.state) && Closing(seen) && Closing(to) && seen.Rank() < to.Rank() && Promises(s, to)
    case _ => true
  }

  predicate TasksSound(s: State, tasks: seq<Task>) {
    forall i :: 0 <= i < |tasks| ==> TaskSound(s, tasks[i])
  }

  function ClosesChan(): (w: Task -> nat) {
    (t: Task) => One(t.CloseClosedChan?)
  }

  predicate ClosedExact(s: State) {
    s.closes + Sum(s.tasks, ClosesChan()) == One(s.state == Closed)
  }

  predicate Sound(s: State) {
    Promises(s, s.state) && TasksSound(s, s.tasks) && ClosedExact(s)
  }

  // ---------- one outcome ----------

  /** Closing does not stop, closed is final, no connection joins a closing channel and
      connections move forward. */
  predicate Advances(s: State, s': State) {
    && (Closing(s.state) ==> Closing(s'.state) && s'.conns <= s.conns)
    && (s.state == Closed ==> s'.state == Closed)
    && (forall c :: c in s.conns ==> Conn(s, c).Rank() <= Conn(s', c).Rank())
  }

  predicate OutcomeSound(s: State, taken: nat, o: Outcome) {
    && Advances(s, o.s)
    && Promises(o.s, o.s.state)
    && TasksSound(o.s, o.work)
    && o.s.closes + Sum(o.work, ClosesChan()) + One(s.state == Closed) == s.closes + taken + One(o.s.state == Closed)
  }

  lemma DoSound(s: State, t: Task, c: ConnId)
    requires Promises(s, s.state) && TaskSound(s, t)
    ensures OutcomeSound(s, ClosesChan()(t), Do(s, t, c))
  {
    hide Sum;
    SumWork(Do(s, t, c).work, ClosesChan());
  }

  lemma EventSound(s: State, st: Step)
    requires Promises(s, s.state) && Enabled(s, st) && !st.Run?
    ensures OutcomeSound(s, 0, Perform(s, st))
  {
    hide Sum;
    SumWork(Perform(s, st).work, ClosesChan());
  }

  lemma AdvanceKeeps(s: State, s': State, t: Task)
    requires TaskSound(s, t) && Advances(s, s')
    ensures TaskSound(s', t)
  {
  }

  // ---------- every step, every run ----------

  function Taken(s: State, st: Step): (n: nat)
    requires Enabled(s, st)
  {
    if st.Run? then ClosesChan()(s.tasks[st.i]) else 0
  }

  lemma SumStep(s: State, st: Step)
    requires Enabled(s, st)
    ensures Sum(Apply(s, st).tasks, ClosesChan()) ==
      Sum(s.tasks, ClosesChan()) - Taken(s, st) + Sum(Perform(s, st).work, ClosesChan())
  {
    if st.Run? {
      SumWithout(s.tasks, st.i, ClosesChan());
    }
    SumConcat(Others(s, st), Perform(s, st).work, ClosesChan());
  }

  lemma StepSound(s: State, st: Step)
    requires Sound(s) && Enabled(s, st)
    ensures OutcomeSound(s, Taken(s, st), Perform(s, st))
  {
    if st.Run? {
      assert TaskSound(s, s.tasks[st.i]);
    }
    hide Do, Sum, OutcomeSound, TaskSound;
    if st.Run? {
      DoSound(s, s.tasks[st.i], st.choice);
    } else {
      EventSound(s, st);
    }
  }

  // None of this depends on what is left to do.
  lemma SameTables(s: State, o: State, s': State, t: Task)
    requires s' == o.(tasks := s'.tasks)
    ensures Advances(s, o) == Advances(s, s') && TaskSound(o, t) == TaskSound(s', t)
    ensures Promises(o, o.state) == Promises(s', s'.state)
  {
    assert forall c :: Conn(o, c) == Conn(s', c);
    assert forall left, min :: AllAtLeast(o, left, min) == AllAtLeast(s', left, min);
  }

  lemma SoundStep(s: State, st: Step)
    requires Sound(s) && Enabled(s, st)
    ensures Sound(Apply(s, st)) && Advances(s, Apply(s, st))
  {
    hide Perform, Advances, TaskSound, Promises, Sum;
    var s', o := Apply(s, st), Perform(s, st);
    StepSound(s, st);
    SumStep(s, st);
    SameTables(s, o.s, s', ReadChannel);
    forall i | 0 <= i < |s'.tasks|
      ensures TaskSound(s', s'.tasks[i])
    {
      if i < |Others(s, st)| {
        var j := if st.Run? && i >= st.i then i + 1 else i;
        assert s'.tasks[i] == s.tasks[j];
        AdvanceKeeps(s, s', s.tasks[j]);
      } else {
        assert s'.tasks[i] == o.work[i - |Others(s, st)|];
        SameTables(s, o.s, s', s'.tasks[i]);
      }
    }
  }

  lemma {:induction false} SoundRun(s: State, steps: seq<Step>, s': State)
    requires Sound(s) && Reaches(s, steps, s')
    ensures Sound(s') && (s.state == Closed ==> s'.state == Closed)
    decreases |steps|
  {
    hide Sound, Apply;
    if steps == [] {
    } else {
      SoundStep(s, steps[0]);
      SoundRun(Apply(s, steps[0]), steps[1..], s');
    }
  }

  /** In every run: a closed channel tracks only closed connections and an inbound-closed
      one only connections that are at least inbound-closed; closed is final; and
      ch.closed is closed at most once, and only for a closed channel. */
  lemma ChannelCloses(before: seq<Step>, s: State, after: seq<Step>, s': State, c: ConnId)
    requires Reaches(Init(), before, s) && Reaches(s, after, s')
    ensures s'.state == Closed && c in s'.conns ==> Conn(s', c) == C.Closed
    ensures s'.state == InboundClosed && c in s'.conns ==> Conn(s', c).Rank() >= C.ConnState.InboundClosed.Rank()
    ensures s.state == Closed ==> s'.state == Closed
    ensures s'.closes <= 1 && (s'.closes == 1 ==> s'.state == Closed)
  {
    hide Reaches;
    SoundRun(Init(), before, s);
    SoundRun(s, after, s');
  }

  // ---------- the channel's state does go back ----------

  lemma DoForward(s: State, t: Task, c: ConnId)
    requires TaskSound(s, t)
    ensures s.state.Rank() <= Do(s, t, c).s.state.Rank()
  {
    hide Promises, AllAtLeast;
  }

  /** The channel's state is not monotone, and this is exactly when it goes back: a step
      of a run lowers it if and only if the step is a Close of an inbound-closed channel
      that still tracks a connection. */
  lemma GoesBackOnlyByClose(steps: seq<Step>, s: State, st: Step)
    requires Reaches(Init(), steps, s) && Enabled(s, st)
    ensures Apply(s, st).state.Rank() < s.state.Rank() <==> st.Close? && s.state == InboundClosed && s.conns != {}
  {
    SoundRun(Init(), steps, s);
    if st.Run? {
      assert TaskSound(s, s.tasks[st.i]);
      hide Reaches, TaskSound, Do, Sum, Promises;
      DoForward(s, s.tasks[st.i], st.choice);
    }
  }
}
