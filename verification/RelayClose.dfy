/** Closing a connection that relays: it is inbound-closed only once nothing is
    pending, and nothing is pending ever after. */
module RelayClose {
  import opened Bags
  import opened CloseMachine
  import opened RelayTimers
  import opened RelayModel
  import opened RelayCounting
  import opened RelayLinks
  import opened RelayPending

  // What a thread in checkExchanges may rely on.
  predicate PcIdle(pc: Pc, conn: ConnState, pending: int) {
    match pc
    case ReadState => true
    case LoadStopped(orig) => Knows(orig, conn, pending)
    case MoveStopped(orig) => Knows(orig, conn, pending)
    case RelayCheck(_) => conn != Active
    case InboundCount(_) => conn != Active && pending == 0
    case MoveInbound(_) => conn != Active && pending == 0
    case RelayRecheck(_) => conn != Active && pending == 0
    case OutboundCount(_) => conn != Active && pending == 0
    case MoveClosed(_) => conn != Active && pending == 0
    case Finish(_, _) => true
    case ShouldNeverHappen => false
    case Exited => true
  }

  // Having read this state, the connection has not gone back since.
  predicate Knows(orig: ConnState, conn: ConnState, pending: int) {
    orig.Rank() <= conn.Rank() && (orig == InboundClosed ==> pending == 0)
  }

  predicate TaskIdle(s: State, t: Task) {
    t.Check? ==> PcIdle(t.pc, Conn(s, t.r), Pending(s, t.r))
  }

  predicate TasksIdle(s: State, tasks: seq<Task>) {
    forall i :: 0 <= i < |tasks| ==> TaskIdle(s, tasks[i])
  }

  predicate ClosedIdle(s: State, r: RelayerId) {
    Conn(s, r) == InboundClosed ==> Pending(s, r) == 0
  }

  ghost predicate Idle(s: State) {
    && TasksIdle(s, s.tasks)
    && (forall r :: ClosedIdle(s, r))
    && !s.log.neverHappened
  }

  // A connection never goes back, and once it is closing an idle relayer stays idle.
  predicate Calms(s: State, s': State, r: RelayerId) {
    && Conn(s, r).Rank() <= Conn(s', r).Rank()
    && (Conn(s, r) != Active && Pending(s, r) == 0 ==> Pending(s', r) == 0)
  }

  lemma CalmKeepsTask(s: State, s': State, t: Task)
    requires TaskIdle(s, t)
    requires t.Check? ==> Calms(s, s', t.r)
    ensures TaskIdle(s', t)
  {
  }

  /** One step of checkExchanges keeps what its thread relies on, and never takes the
      branch that should never happen. */
  lemma AdvanceIdle(pc: Pc, sh: Shared, pending: int)
    requires PcIdle(pc, sh.state, pending) && sh.relayIdle == (pending == 0)
    requires sh.state == InboundClosed ==> pending == 0
    ensures var (pc', state) := Advance(pc, sh);
      PcIdle(pc', state, pending) && sh.state.Rank() <= state.Rank() && (state == InboundClosed ==> pending == 0)
  {
  }

  // What an outcome owes: it calms every relayer and leaves work and states that are idle.
  predicate OutcomeCalms(s: State, o: Outcome, r: RelayerId) {
    Calms(s, o.s, r) && ClosedIdle(o.s, r)
  }

  lemma CheckCalms(s: State, t: Task, ch: Choice, r: RelayerId)
    requires t.Check? && TaskIdle(s, t) && ClosedIdle(s, t.r) && ClosedIdle(s, r)
    ensures OutcomeCalms(s, Do(s, t, ch), r)
    ensures TasksIdle(Do(s, t, ch).s, Do(s, t, ch).work)
    ensures !s.log.neverHappened ==> !Do(s, t, ch).s.log.neverHappened
  {
    hide Advance;
    var sh := Shared(Conn(s, t.r), t.r in s.stopped, Pending(s, t.r) == 0, ch.inboundEmpty, ch.outboundEmpty);
    AdvanceIdle(t.pc, sh, Pending(s, t.r));
  }

  lemma DecCalms(s: State, i: nat, ch: Choice, r: RelayerId)
    requires i < |s.tasks| && s.tasks[i].Dec?
    requires PendingExact(s, s.tasks[i].r) && ClosedIdle(s, r)
    ensures OutcomeCalms(s, Do(s, s.tasks[i], ch), r)
    ensures TasksIdle(Do(s, s.tasks[i], ch).s, Do(s, s.tasks[i], ch).work)
  {
    SumAtLeast(s.tasks, i, HeldAt(s.tasks[i].r));
  }

  lemma TaskCalms(s: State, t: Task, ch: Choice, r: RelayerId)
    requires !t.Check? && !t.Dec? && ClosedIdle(s, r)
    ensures OutcomeCalms(s, Do(s, t, ch), r)
  {
    hide Stop, Release, RunTrigger, GetAndStart, Abandon, Stops;
  }

  // Other tasks leave no thread inside checkExchanges.
  lemma TaskChecksNothing(s: State, t: Task, ch: Choice)
    requires !t.Check? && !t.Dec?
    ensures forall i :: 0 <= i < |Do(s, t, ch).work| ==> !Do(s, t, ch).work[i].Check?
    ensures Do(s, t, ch).s.log.neverHappened == s.log.neverHappened
  {
    hide Stop, Release, RunTrigger, GetAndStart, Abandon, Stops;
  }

  lemma EventCalms(s: State, st: Step, r: RelayerId)
    requires Enabled(s, st) && !st.Run? && ClosedIdle(s, r)
    ensures OutcomeCalms(s, Perform(s, st), r)
    ensures TasksIdle(Perform(s, st).s, Perform(s, st).work)
    ensures Perform(s, st).s.log.neverHappened == s.log.neverHappened
  {
    hide Stop, Fire, Stops;
  }

  // ---------- every step, every run ----------

  lemma StepCalms(s: State, st: Step, r: RelayerId)
    requires Counted(s) && Idle(s) && Enabled(s, st)
    ensures OutcomeCalms(s, Perform(s, st), r)
    ensures TasksIdle(Perform(s, st).s, Perform(s, st).work)
    ensures !Perform(s, st).s.log.neverHappened
  {
    hide Counted, Do, Perform, Calms, TaskIdle;
    assert ClosedIdle(s, r);
    if !st.Run? {
      EventCalms(s, st, r);
    } else {
      var t := s.tasks[st.i];
      PerformRun(s, st);
      if t.Check? {
        assert TaskIdle(s, t) && ClosedIdle(s, t.r);
        CheckCalms(s, t, st.choice, r);
      } else if t.Dec? {
        CountedParts(s, t.r, Inbound, 0);
        DecCalms(s, st.i, st.choice, r);
        DecKeepsHistory(s, t, st.choice);
      } else {
        TaskCalms(s, t, st.choice, r);
        TaskChecksNothing(s, t, st.choice);
        WorkIdle(Do(s, t, st.choice).s, Do(s, t, st.choice).work);
      }
    }
  }

  lemma DecKeepsHistory(s: State, t: Task, ch: Choice)
    requires t.Dec?
    ensures Do(s, t, ch).s.log == s.log
  {
  }

  lemma WorkIdle(s: State, work: seq<Task>)
    requires forall i :: 0 <= i < |work| ==> !work[i].Check?
    ensures TasksIdle(s, work)
  {
  }

  lemma IdleStep(s: State, st: Step)
    requires Counted(s) && Idle(s) && Enabled(s, st)
    ensures Idle(Apply(s, st))
    ensures forall r :: Calms(s, Apply(s, st), r)
  {
    hide Counted, Perform, Calms, TaskIdle, Others, ClosedIdle;
    var s', o := Apply(s, st), Perform(s, st);
    forall r
      ensures Calms(s, s', r) && ClosedIdle(s', r)
    {
      StepCalms(s, st, r);
      SameConn(s, o.s, s', r);
    }
    StepCalms(s, st, 0);
    forall i | 0 <= i < |s'.tasks|
      ensures TaskIdle(s', s'.tasks[i])
    {
      var t := s'.tasks[i];
      if i < |Others(s, st)| {
        OthersFrom(s, st, i);
        assert TaskIdle(s, t);
        assert t.Check? ==> Calms(s, s', t.r);
        CalmKeepsTask(s, s', t);
      } else {
        assert t == o.work[i - |Others(s, st)|];
        assert TaskIdle(o.s, t);
        SameTask(o.s, s', t);
      }
    }
  }

  lemma OthersFrom(s: State, st: Step, i: nat)
    requires Enabled(s, st) && i < |Others(s, st)|
    ensures Others(s, st)[i] in s.tasks
  {
  }

  // Being idle does not depend on what is left to do.
  lemma SameConn(s: State, o: State, s': State, r: RelayerId)
    requires o.conn == s'.conn && o.pending == s'.pending
    ensures Calms(s, o, r) == Calms(s, s', r) && ClosedIdle(o, r) == ClosedIdle(s', r)
  {
  }

  lemma SameTask(o: State, s': State, t: Task)
    requires o.conn == s'.conn && o.pending == s'.pending
    ensures TaskIdle(o, t) == TaskIdle(s', t)
  {
  }

  lemma {:induction false} IdleRun(s: State, steps: seq<Step>, s': State, r: RelayerId)
    requires Linked(s) && Counted(s) && Idle(s) && Reaches(s, steps, s')
    ensures Idle(s') && Calms(s, s', r)
    decreases |steps|
  {
    if steps == [] {
    } else {
      hide Linked, Counted, Idle, Apply, Conn, Pending;
      var s1 := Apply(s, steps[0]);
      LinkedStep(s, steps[0]);
      CountedStep(s, steps[0]);
      IdleStep(s, steps[0]);
      IdleRun(s1, steps[1..], s', r);
      assert Calms(s, s1, r);
    }
  }

  lemma ReachableIdle(maxTombs: nat, steps: seq<Step>, s: State)
    requires Reaches(Init(maxTombs), steps, s)
    ensures Linked(s) && Counted(s) && Idle(s)
  {
    Reachable(maxTombs, steps, s);
    LinkedInit(maxTombs);
    CountedInit(maxTombs);
    hide Linked, Counted;
    IdleRun(Init(maxTombs), steps, s, 0);
  }

  /** In every run, an inbound-closed connection has no live relay item, no call that
      has reserved a slot, and nothing left to decrement, and the branch of
      checkExchanges that reports otherwise is never taken. */
  lemma InboundClosedIsIdle(maxTombs: nat, steps: seq<Step>, s: State, r: RelayerId)
    requires Reaches(Init(maxTombs), steps, s)
    ensures !s.log.neverHappened
    ensures Conn(s, r) == InboundClosed ==>
      Count(s.items, LiveAt(r, Inbound)) == 0 && Count(s.items, LiveAt(r, Outbound)) == 0 &&
      Sum(s.tasks, ReservedAt(r)) == 0 && Sum(s.tasks, RemovedAt(r)) == 0
  {
    hide Linked, Counted, Reaches, Init;
    ReachableIdle(maxTombs, steps, s);
    assert ClosedIdle(s, r);
    PendingConserved(maxTombs, steps, s, r);
  }

  /** Once a relaying connection is inbound-closed it never relays another call: it
      stays idle, and its state only moves forward, for the rest of the run. */
  lemma InboundClosedForever(maxTombs: nat, before: seq<Step>, s: State, after: seq<Step>, s': State, r: RelayerId)
    requires Reaches(Init(maxTombs), before, s) && Reaches(s, after, s')
    requires Conn(s, r) == InboundClosed
    ensures Pending(s', r) == 0 && Conn(s', r) in {InboundClosed, Closed}
  {
    hide Linked, Counted, Reaches, Init;
    ReachableIdle(maxTombs, before, s);
    assert ClosedIdle(s, r);
    IdleRun(s, after, s', r);
  }
}
