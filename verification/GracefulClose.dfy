/** Graceful close waits for calls, never goes back, and stops the writer once. */
module GracefulClose {
  import opened Bags
  import opened CloseMachine
  import opened ConnectionModel
  import opened ExchangeSafety

  // Calls that are still in their exchange set.
  predicate NoneDispatched(s: State) {
    forall m :: m in s.dispatched ==> m !in s.active
  }

  predicate NoneBegun(s: State) {
    forall m :: m in s.begun ==> m !in s.active
  }

  predicate Sided(s: State) {
    && (forall m :: m in s.dispatched ==> m.side == Inbound)
    && (forall m :: m in s.begun ==> m.side == Outbound)
  }

  /** What a thread in checkExchanges may rely on; noneIn and noneOut say that no
      dispatched, or begun, call is in its set. */
  predicate PcHolds(pc: Pc, state: ConnState, stopped: bool, noneIn: bool, noneOut: bool) {
    match pc
    case ReadState => true
    case LoadStopped(orig) => orig.Rank() <= state.Rank()
    case MoveStopped(orig) => orig.Rank() <= state.Rank() && orig != Closed && stopped
    case RelayCheck(orig) => state != Active && orig == StartClose
    case InboundCount(orig) => state != Active && orig == StartClose
    case MoveInbound(orig) => state != Active && orig == StartClose && noneIn
    case RelayRecheck(orig) => state != Active && (orig == StartClose || orig == InboundClosed)
    case OutboundCount(orig) => state != Active && (orig == StartClose || orig == InboundClosed)
    case MoveClosed(orig) => state != Active && (orig == StartClose || orig == InboundClosed) && noneOut
    case _ => true
  }

  predicate PcSafe(s: State, pc: Pc) {
    PcHolds(pc, s.state, s.stopped, NoneDispatched(s), NoneBegun(s))
  }

  predicate TasksSafe(s: State, tasks: seq<Task>) {
    forall i :: 0 <= i < |tasks| && tasks[i].Check? ==> PcSafe(s, tasks[i].pc)
  }

  // Threads on their way to close stopCh.
  function Closing(): (w: Task -> nat) {
    (t: Task) => One(t.Check? && ClosesStopCh(t.pc))
  }

  predicate StopChExact(s: State) {
    s.stopChCloses + Sum(s.tasks, Closing()) == One(s.state == Closed)
  }

  predicate Graceful(s: State) {
    && Sided(s)
    && TasksSafe(s, s.tasks)
    && (s.state == InboundClosed ==> NoneDispatched(s))
    && StopChExact(s)
  }

  // ---------- one outcome ----------

  /** The state does not go back, and once closing no call is dispatched or begun and no
      call comes back into its set. */
  predicate Calms(s: State, s': State) {
    && s.state.Rank() <= s'.state.Rank()
    && (s.stopped ==> s'.stopped)
    && (s.state != Active && NoneDispatched(s) ==> NoneDispatched(s'))
    && (s.state != Active && NoneBegun(s) ==> NoneBegun(s'))
  }

  lemma CalmKeepsPc(s: State, s': State, pc: Pc)
    requires PcSafe(s, pc) && Calms(s, s')
    ensures PcSafe(s', pc)
  {
  }

  predicate NoNewCalls(s: State, o: Outcome) {
    && s.state.Rank() <= o.s.state.Rank()
    && (s.stopped ==> o.s.stopped)
    && (s.state != Active ==> o.s.dispatched == s.dispatched && o.s.begun == s.begun)
    && (Sided(s) ==> Sided(o.s))
  }

  lemma TaskNoNewCalls(s: State, t: Task, ch: Choice)
    requires !t.Check?
    ensures NoNewCalls(s, Do(s, t, ch)) && Do(s, t, ch).s.state == s.state
      && Do(s, t, ch).s.stopChCloses == s.stopChCloses
  {
    hide Sided;
    SidedRecheck(s, t, ch);
  }

  lemma SidedRecheck(s: State, t: Task, ch: Choice)
    requires !t.Check?
    ensures Sided(s) ==> Sided(Do(s, t, ch).s)
  {
  }

  // Other tasks only ever start a fresh checkExchanges.
  predicate StartsChecks(work: seq<Task>) {
    forall i :: 0 <= i < |work| && work[i].Check? ==> work[i].pc == ReadState
  }

  lemma TaskStartsChecks(s: State, t: Task, ch: Choice)
    requires !t.Check?
    ensures StartsChecks(Do(s, t, ch).work)
  {
  }

  lemma StartsChecksSafe(s: State, work: seq<Task>)
    requires StartsChecks(work)
    ensures TasksSafe(s, work) && Sum(work, Closing()) == 0
  {
    SumZero(work, Closing());
  }

  predicate BalancesStopCh(s: State, taken: nat, o: Outcome) {
    o.s.stopChCloses + Sum(o.work, Closing()) + One(s.state == Closed) ==
      s.stopChCloses + taken + One(o.s.state == Closed)
  }

  /** One step of checkExchanges: what the thread relies on still holds, the connection
      becomes inbound-closed only with no dispatched call left, and a move to closed puts
      exactly one thread on its way to close stopCh. */
  lemma AdvanceHolds(pc: Pc, sh: Shared, noneIn: bool, noneOut: bool)
    requires PcHolds(pc, sh.state, sh.stopped, noneIn, noneOut)
    requires (sh.inboundEmpty ==> noneIn) && (sh.outboundEmpty ==> noneOut)
    requires sh.state == InboundClosed ==> noneIn
    ensures var (pc', state) := Advance(pc, sh);
      && PcHolds(pc', state, sh.stopped, noneIn, noneOut)
      && sh.state.Rank() <= state.Rank()
      && (state == InboundClosed ==> noneIn)
      && One(ClosesStopCh(pc')) + One(sh.state == Closed) == One(state == Closed)
      && (sh.state == InboundClosed && state == Closed && !sh.stopped ==> noneOut)
  {
  }

  lemma CheckSafe(s: State, t: Task, ch: Choice)
    requires t.Check? && PcSafe(s, t.pc) && Sided(s)
    requires s.state == InboundClosed ==> NoneDispatched(s)
    ensures var o := Do(s, t, ch);
      && NoNewCalls(s, o) && o.s.active == s.active && o.s.dispatched == s.dispatched && o.s.begun == s.begun
      && TasksSafe(o.s, o.work) && (o.s.state == InboundClosed ==> NoneDispatched(o.s))
      && BalancesStopCh(s, Closing()(t), o)
      && (s.state == InboundClosed && o.s.state == Closed && !s.stopped ==> NoneBegun(s))
  {
    hide Sum, On, Sided, NoneDispatched, NoneBegun, Advance, PcHolds, ClosesStopCh;
    var o := Do(s, t, ch);
    EmptyMeansNone(s);
    SameCalls(s, o.s);
    var sh := Shared(s.state, s.stopped, ch.relayIdle, On(Inbound, s.active) == {}, On(Outbound, s.active) == {});
    AdvanceHolds(t.pc, sh, NoneDispatched(s), NoneBegun(s));
    ExitedClosesNothing();
    SumWork(o.work, Closing());
  }

  lemma ExitedClosesNothing()
    ensures !ClosesStopCh(Exited)
  {
  }

  lemma SameCalls(s: State, s': State)
    requires s'.active == s.active && s'.dispatched == s.dispatched && s'.begun == s.begun
    ensures NoneDispatched(s) == NoneDispatched(s') && NoneBegun(s) == NoneBegun(s') && Sided(s) == Sided(s')
  {
  }

  lemma EmptyMeansNone(s: State)
    requires Sided(s)
    ensures On(Inbound, s.active) == {} ==> NoneDispatched(s)
    ensures On(Outbound, s.active) == {} ==> NoneBegun(s)
  {
    forall m | m in s.active
      ensures m in On(m.side, s.active)
    {
    }
  }

  lemma EventSafe(s: State, st: Step)
    requires Enabled(s, st) && !st.Run?
    ensures NoNewCalls(s, Perform(s, st)) && StartsChecks(Perform(s, st).work)
    ensures Perform(s, st).s.state != InboundClosed || s.state == InboundClosed
    ensures Perform(s, st).s.stopChCloses == s.stopChCloses && (Perform(s, st).s.state == Closed) == (s.state == Closed)
  {
  }

  // ---------- every step, every run ----------

  /** What a step's outcome guarantees, whatever the step. */
  predicate StepSafe(s: State, st: Step, o: Outcome)
    requires Enabled(s, st)
  {
    && NoNewCalls(s, o)
    && TasksSafe(o.s, o.work)
    && BalancesStopCh(s, Taken(s, st, Closing()), o)
    && (o.s.state == InboundClosed && s.state != InboundClosed ==> NoneDispatched(o.s))
    && (s.state == InboundClosed && o.s.state == Closed && !s.stopped ==> NoneBegun(s))
  }

  lemma StepIsSafe(s: State, st: Step)
    requires Graceful(s) && Enabled(s, st)
    ensures StepSafe(s, st, Perform(s, st))
  {
    if st.Run? {
      var t := s.tasks[st.i];
      assert t.Check? ==> PcSafe(s, t.pc);
    }
    hide Do, NoneDispatched, NoneBegun, Sided, PcSafe, NoNewCalls, Sum;
    if !st.Run? {
      EventSafe(s, st);
      StartsChecksSafe(Perform(s, st).s, Perform(s, st).work);
    } else if s.tasks[st.i].Check? {
      CheckSafe(s, s.tasks[st.i], st.choice);
    } else {
      TaskNoNewCalls(s, s.tasks[st.i], st.choice);
      TaskStartsChecks(s, s.tasks[st.i], st.choice);
      StartsChecksSafe(Perform(s, st).s, Perform(s, st).work);
    }
  }

  lemma StepCalms(s: State, st: Step)
    requires Living(s) && Enabled(s, st) && NoNewCalls(s, Perform(s, st))
    ensures Calms(s, Apply(s, st))
  {
    var s' := Apply(s, st);
    forall m | m in s'.active && m in s.mexes
      ensures m in s.active
    {
      hide Living;
      StageStep(s, st, m);
    }
    assert forall m :: m in s.dispatched || m in s.begun ==> Lives(s, m);
    hide Living, Perform, Others, AddedOnce, RemovedOnce, NotedOnce, StopReaches;
  }

  lemma TasksSafeStep(s: State, st: Step)
    requires Enabled(s, st) && TasksSafe(s, s.tasks) && TasksSafe(Perform(s, st).s, Perform(s, st).work)
    requires Calms(s, Apply(s, st))
    ensures TasksSafe(Apply(s, st), Apply(s, st).tasks)
  {
    hide Perform, PcSafe, Calms;
    var s', o := Apply(s, st), Perform(s, st);
    forall i | 0 <= i < |s'.tasks| && s'.tasks[i].Check?
      ensures PcSafe(s', s'.tasks[i].pc)
    {
      if i < |Others(s, st)| {
        var j := if st.Run? && i >= st.i then i + 1 else i;
        assert s'.tasks[i] == s.tasks[j];
        CalmKeepsPc(s, s', s.tasks[j].pc);
      } else {
        assert PcSafe(o.s, o.work[i - |Others(s, st)|].pc);
        SamePc(o.s, s', s'.tasks[i].pc);
      }
    }
  }

  lemma SamePc(s: State, s': State, pc: Pc)
    requires s'.active == s.active && s'.dispatched == s.dispatched && s'.begun == s.begun
    requires s'.state == s.state && s'.stopped == s.stopped
    ensures PcSafe(s, pc) == PcSafe(s', pc)
  {
    SameCalls(s, s');
  }

  lemma GracefulStep(s: State, st: Step)
    requires Living(s) && Graceful(s) && Enabled(s, st)
    ensures Graceful(Apply(s, st)) && Calms(s, Apply(s, st))
    ensures s.state == InboundClosed && Apply(s, st).state == Closed && !s.stopped ==> NoneBegun(s)
  {
    StepIsSafe(s, st);
    StepCalms(s, st);
    TasksSafeStep(s, st);
    SumStep(s, st, Closing());
    SameCalls(Perform(s, st).s, Apply(s, st));
    hide Living, Perform, Others, TasksSafe, Sided, NoneDispatched, NoneBegun, Sum;
  }

  lemma GracefulInit()
    ensures Graceful(Init())
  {
  }

  lemma {:induction false} GracefulRun(s: State, steps: seq<Step>, s': State)
    requires Living(s) && Graceful(s) && Reaches(s, steps, s')
    ensures Graceful(s') && s.state.Rank() <= s'.state.Rank()
    decreases |steps|
  {
    if steps == [] {
    } else {
      GracefulStep(s, steps[0]);
      LivingStep(s, steps[0]);
      GracefulRun(Apply(s, steps[0]), steps[1..], s');
    }
  }

  lemma ReachableGraceful(steps: seq<Step>, s: State)
    requires Reaches(Init(), steps, s)
    ensures Living(s) && Graceful(s)
  {
    hide Living, Graceful, Reaches, Init;
    Reachable(steps, s);
    LivingInit();
    GracefulInit();
    GracefulRun(Init(), steps, s);
  }

  /** In every run, while the connection is inbound-closed no inbound call that was
      dispatched to a handler is still in the exchange set. */
  lemma CloseWaitsForInbound(steps: seq<Step>, s: State, m: MexId)
    requires Reaches(Init(), steps, s) && s.state == InboundClosed
    ensures !(m in s.dispatched && m in s.active)
  {
    hide Living, Reaches, Init;
    ReachableGraceful(steps, s);
  }

  /** One step of checkExchanges that closes the connection: its own move after finding
      no outbound exchange, or the move for stopped exchanges. */
  lemma AdvanceCloses(pc: Pc, sh: Shared)
    requires sh.state != Closed
    ensures Advance(pc, sh).1 == Closed <==>
      pc == MoveStopped(sh.state) || (pc.MoveClosed? && sh.state == InboundClosed)
  {
  }

  lemma CheckCloses(s: State, t: Task, ch: Choice)
    requires t.Check? && PcSafe(s, t.pc) && s.state != Closed && !NoneBegun(s)
    ensures Do(s, t, ch).s.state == Closed <==> t.pc == MoveStopped(s.state)
  {
    AdvanceCloses(t.pc, Shared(s.state, s.stopped, ch.relayIdle, On(Inbound, s.active) == {},
      On(Outbound, s.active) == {}));
    hide NoneBegun, NoneDispatched, Advance;
  }

  /** In every run, while a call returned by beginCall is in the outbound set, the steps
      that close the connection are exactly those of the branch for stopped exchanges: a
      checkExchanges that saw stoppedExchanges set and that moves from the state it read. */
  lemma CloseWaitsForOutbound(steps: seq<Step>, s: State, st: Step, m: MexId)
    requires Reaches(Init(), steps, s) && Enabled(s, st) && s.state != Closed
    requires m in s.begun && m in s.active
    ensures Apply(s, st).state == Closed <==> st.Run? && s.tasks[st.i] == Check(MoveStopped(s.state))
    ensures Apply(s, st).state == Closed ==> s.stopped
  {
    hide Living, Reaches, Init, Do, PcSafe;
    ReachableGraceful(steps, s);
    if !st.Run? {
      EventSafe(s, st);
    } else if s.tasks[st.i].Check? {
      CheckCloses(s, s.tasks[st.i], st.choice);
      if s.tasks[st.i].pc.MoveStopped? {
        MoveStoppedSafe(s, s.tasks[st.i].pc);
      }
    } else {
      TaskNoNewCalls(s, s.tasks[st.i], st.choice);
    }
  }

  lemma MoveStoppedSafe(s: State, pc: Pc)
    requires PcSafe(s, pc) && pc.MoveStopped?
    ensures s.stopped
  {
  }

  /** In every run the connection state only moves forward, and stopCh is closed at most
      once, and only when the connection is closed. */
  lemma StopChClosedOnce(before: seq<Step>, s: State, after: seq<Step>, s': State)
    requires Reaches(Init(), before, s) && Reaches(s, after, s')
    ensures s.state.Rank() <= s'.state.Rank()
    ensures s'.stopChCloses <= 1 && (s'.stopChCloses == 1 ==> s'.state == Closed)
  {
    hide Living, Reaches, Init;
    ReachableGraceful(before, s);
    GracefulRun(s, after, s');
  }

  // ---------- a connection error does not wait ----------

  lemma {:induction false} OneMore(s: State, steps: seq<Step>, s': State, st: Step)
    requires Reaches(s, steps, s') && Enabled(s', st)
    ensures Reaches(s, steps + [st], Apply(s', st))
    decreases |steps|
  {
    if steps == [] {
      assert [st][1..] == [];
    } else {
      OneMore(Apply(s, steps[0]), steps[1..], s', st);
      assert (steps + [st])[1..] == steps[1..] + [st];
    }
  }

  // One call begun and in the set.
  function OneCall(state: ConnState, stopped: bool, tasks: seq<Task>): (s: State) {
    var m := MexId(Outbound, 1);
    State(state, stopped, {m}, {}, {}, map[m := Mex(false, false, false, 0)], 1, {}, {m}, 0, false, tasks)
  }

  lemma BeginOne() returns (steps: seq<Step>)
    ensures Reaches(Init(), steps, OneCall(Active, false, []))
  {
    hide Reaches, Advance;
    var m := MexId(Outbound, 1);
    var go := Run(0, Choice(m, true));
    steps := [BeginCall, go, go, go, go];
    NoSteps(Init());
    var none: seq<Step> := [];
    var s0, m1 := Init(), map[m := Mex(false, false, false, 0)];
    OneMore(s0, none, s0, BeginCall);
    var s1 := s0.(tasks := [OutCheck]);
    assert Apply(s0, BeginCall) == s1;
    OneMore(s0, none + [BeginCall], s1, go);
    var s2 := s0.(tasks := [OutNext]);
    assert Apply(s1, go) == s2;
    OneMore(s0, none + [BeginCall] + [go], s2, go);
    var s3 := s0.(nextID := 1, tasks := [OutAdd(1)]);
    assert Apply(s2, go) == s3;
    OneMore(s0, none + [BeginCall] + [go] + [go], s3, go);
    var s4 := s0.(nextID := 1, active := {m}, mexes := m1, tasks := [OutRecheck(1)]);
    assert Apply(s3, go) == s4;
    OneMore(s0, none + [BeginCall] + [go] + [go] + [go], s4, go);
    assert Apply(s4, go) == OneCall(Active, false, []);
    assert steps == none + [BeginCall] + [go] + [go] + [go] + [go];
  }

  // checkExchanges takes one more step while the call is in the set.
  lemma CheckOnce(steps: seq<Step>, state: ConnState, stopped: bool, rest: seq<Task>, pc: Pc)
      returns (steps': seq<Step>)
    requires Reaches(Init(), steps, OneCall(state, stopped, rest + [Check(pc)]))
    requires !ClosesStopCh(pc)
    ensures var (pc', state') := Advance(pc, Shared(state, stopped, true, true, false));
      Reaches(Init(), steps', OneCall(state', stopped, rest + if pc' == Exited then [] else [Check(pc')]))
  {
    hide Reaches, Advance, ClosesStopCh;
    var m := MexId(Outbound, 1);
    var go, s := Run(|rest|, Choice(m, true)), OneCall(state, stopped, rest + [Check(pc)]);
    OneMore(Init(), steps, s, go);
    steps' := steps + [go];
    assert On(Inbound, s.active) == {} && m in On(Outbound, s.active);
    assert Others(s, go) == rest;
  }

  lemma CloseStarts(steps: seq<Step>)
    requires Reaches(Init(), steps, OneCall(Active, false, []))
    ensures Reaches(Init(), steps + [Close], OneCall(StartClose, false, [] + [Check(ReadState)]))
  {
    hide Reaches;
    var s := OneCall(Active, false, []);
    OneMore(Init(), steps, s, Close);
    assert Apply(s, Close) == OneCall(StartClose, false, [] + [Check(ReadState)]);
  }

  lemma CloseInbound(steps: seq<Step>) returns (steps': seq<Step>)
    requires Reaches(Init(), steps, OneCall(Active, false, []))
    ensures Reaches(Init(), steps', OneCall(InboundClosed, false, []))
  {
    hide Reaches, Init, OneCall;
    CloseStarts(steps);
    steps' := CheckOnce(steps + [Close], StartClose, false, [], ReadState);
    steps' := CheckOnce(steps', StartClose, false, [], LoadStopped(StartClose));
    steps' := CheckOnce(steps', StartClose, false, [], RelayCheck(StartClose));
    steps' := CheckOnce(steps', StartClose, false, [], InboundCount(StartClose));
    steps' := CheckOnce(steps', StartClose, false, [], MoveInbound(StartClose));
    steps' := CheckOnce(steps', InboundClosed, false, [], RelayRecheck(StartClose));
    steps' := CheckOnce(steps', InboundClosed, false, [], OutboundCount(StartClose));
    steps' := CheckOnce(steps', InboundClosed, false, [], Finish(StartClose, InboundClosed));
    var none: seq<Task> := [];
    assert none + none == none;
  }

  lemma StopAndPoke(steps: seq<Step>) returns (steps': seq<Step>, rest: seq<Task>)
    requires Reaches(Init(), steps, OneCall(InboundClosed, false, []))
    ensures |rest| == 2 && Reaches(Init(), steps', OneCall(InboundClosed, true, rest + [Check(ReadState)]))
  {
    hide Reaches, Init;
    var s := OneCall(InboundClosed, false, []);
    var go := Run(0, Choice(MexId(Outbound, 1), true));
    rest := [StopSet(Outbound), StopSet(Inbound)];
    OneMore(Init(), steps, s, Stop);
    assert Apply(s, Stop) == OneCall(InboundClosed, false, [StopOnce]);
    OneMore(Init(), steps + [Stop], OneCall(InboundClosed, false, [StopOnce]), go);
    assert Apply(OneCall(InboundClosed, false, [StopOnce]), go) == OneCall(InboundClosed, true, rest);
    OneMore(Init(), steps + [Stop] + [go], OneCall(InboundClosed, true, rest), Poke);
    steps' := steps + [Stop] + [go] + [Poke];
  }

  lemma StoppedCloses(rest: seq<Task>)
    requires |rest| == 2
    ensures var s := OneCall(InboundClosed, true, rest + [Check(MoveStopped(InboundClosed))]);
      Apply(s, Run(2, Choice(MexId(Outbound, 1), true))).state == Closed
  {
  }

  /** The condition on stopped exchanges is needed: a call is begun, the connection is
      closed and becomes inbound-closed, the exchanges are stopped, and the next
      checkExchanges closes the connection while the call is still in its set. */
  lemma ErrorsDoNotWait() returns (steps: seq<Step>, s: State, st: Step, m: MexId)
    ensures Reaches(Init(), steps, s) && Enabled(s, st)
    ensures s.state == InboundClosed && Apply(s, st).state == Closed
    ensures m in s.begun && m in s.active
  {
    hide Reaches, Init, Apply;
    m := MexId(Outbound, 1);
    steps := BeginOne();
    steps := CloseInbound(steps);
    var rest: seq<Task>;
    steps, rest := StopAndPoke(steps);
    steps := CheckOnce(steps, InboundClosed, true, rest, ReadState);
    steps := CheckOnce(steps, InboundClosed, true, rest, LoadStopped(InboundClosed));
    s, st := OneCall(InboundClosed, true, rest + [Check(MoveStopped(InboundClosed))]), Run(2, Choice(m, true));
    StoppedCloses(rest);
  }

  lemma NoSteps(s: State)
    ensures Reaches(s, [], s)
  {
  }
}
