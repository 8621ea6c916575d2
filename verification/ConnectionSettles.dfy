/** A closing connection ends up closed once its exchanges are gone, and what each of its
    operations does when nothing interferes (connection.go, mex.go, inbound.go, outbound.go). */
module ConnectionSettles {
  import opened Bags
  import opened CloseMachine
  import opened ConnectionModel
  import opened ExchangeSafety
  import opened GracefulClose

  // ---------- what is on its way ----------

  predicate MustClose(s: State) {
    s.state != Active && s.state != Closed && s.active == {}
  }

  predicate Drives(state: ConnState, t: Task) {
    t.Check? && PcDrives(state, t.pc)
  }

  predicate SomeDrives(state: ConnState, tasks: seq<Task>) {
    exists i :: 0 <= i < |tasks| && Drives(state, tasks[i])
  }

  predicate Driven(s: State) {
    MustClose(s) ==> SomeDrives(s.state, s.tasks)
  }

  lemma CheckDrives(s: State, t: Task, ch: Choice)
    requires t.Check? && ch.relayIdle && MustClose(Do(s, t, ch).s)
    ensures SomeDrives(Do(s, t, ch).s.state, Do(s, t, ch).work)
      || (MustClose(s) && Do(s, t, ch).s.state == s.state && !Drives(s.state, t))
  {
    hide Advance, PcDrives;
    var o := Do(s, t, ch);
    var sh := Shared(s.state, s.stopped, ch.relayIdle, On(Inbound, s.active) == {}, On(Outbound, s.active) == {});
    AdvanceStarts(t.pc, sh);
    assert s.active == {};
    AdvanceDrives(t.pc, sh);
    ExitedDrives(o.s.state);
    if |o.work| == 1 && Drives(o.s.state, o.work[0]) {
      assert SomeDrives(o.s.state, o.work);
    }
  }

  // Other tasks start a check whenever they take an exchange out of its set.
  lemma TaskDrives(s: State, t: Task, ch: Choice)
    requires !t.Check? && MustClose(Do(s, t, ch).s)
    ensures SomeDrives(Do(s, t, ch).s.state, Do(s, t, ch).work) || (MustClose(s) && Do(s, t, ch).s.state == s.state)
  {
    FirstDrives(Do(s, t, ch).s.state, Do(s, t, ch).work);
  }

  lemma EventDrives(s: State, st: Step)
    requires Enabled(s, st) && !st.Run? && MustClose(Perform(s, st).s)
    ensures SomeDrives(Perform(s, st).s.state, Perform(s, st).work)
      || (MustClose(s) && Perform(s, st).s.state == s.state)
  {
    FirstDrives(Perform(s, st).s.state, Perform(s, st).work);
  }

  lemma FirstDrives(state: ConnState, work: seq<Task>)
    ensures |work| > 0 && Drives(state, work[0]) ==> SomeDrives(state, work)
  {
  }

  // ---------- every step, every run ----------

  lemma StillThere(s: State, st: Step, i: nat)
    requires Enabled(s, st) && i < |s.tasks| && !(st.Run? && st.i == i)
    ensures s.tasks[i] in Apply(s, st).tasks
  {
    hide Perform;
    var j := if st.Run? && i > st.i then i - 1 else i;
    assert Apply(s, st).tasks[j] == s.tasks[i];
  }

  lemma LeftThere(s: State, st: Step, i: nat)
    requires Enabled(s, st) && i < |Perform(s, st).work|
    ensures Perform(s, st).work[i] in Apply(s, st).tasks
  {
    hide Perform;
    assert Apply(s, st).tasks[|Others(s, st)| + i] == Perform(s, st).work[i];
  }

  lemma DrivenStep(s: State, st: Step)
    requires Driven(s) && Enabled(s, st) && (st.Run? ==> st.choice.relayIdle)
    ensures Driven(Apply(s, st))
  {
    var o := Perform(s, st);
    hide Do, Drives;
    if MustClose(Apply(s, st)) {
      assert MustClose(o.s);
      if !st.Run? {
        EventDrives(s, st);
      } else if s.tasks[st.i].Check? {
        CheckDrives(s, s.tasks[st.i], st.choice);
      } else {
        TaskDrives(s, s.tasks[st.i], st.choice);
        OnlyChecksDrive(s.state, s.tasks[st.i]);
      }
      hide Perform;
      if i :| 0 <= i < |o.work| && Drives(o.s.state, o.work[i]) {
        LeftThere(s, st, i);
      } else {
        assert !SomeDrives(o.s.state, o.work);
        var i :| 0 <= i < |s.tasks| && Drives(s.state, s.tasks[i]);
        StillThere(s, st, i);
      }
    }
  }

  lemma OnlyChecksDrive(state: ConnState, t: Task)
    requires !t.Check?
    ensures !Drives(state, t)
  {
  }

  // The relay was idle whenever it was asked.
  predicate IdleAnswers(steps: seq<Step>) {
    forall i :: 0 <= i < |steps| && steps[i].Run? ==> steps[i].choice.relayIdle
  }

  lemma {:induction false} DrivenRun(s: State, steps: seq<Step>, s': State)
    requires Driven(s) && Reaches(s, steps, s') && IdleAnswers(steps)
    ensures Driven(s')
    decreases |steps|
  {
    hide Driven, Apply;
    if steps == [] {
    } else {
      DrivenStep(s, steps[0]);
      DrivenRun(Apply(s, steps[0]), steps[1..], s');
    }
  }

  // ---------- who is responsible for an exchange ----------

  // Threads that have added an exchange and not handed it over, or are about to end it.
  function Rechecks(m: MexId): (w: Task -> nat) {
    (t: Task) => One(RechecksMex(t, m))
  }

  predicate RechecksMex(t: Task, m: MexId) {
    match t
    case InRecheck(id) => m == MexId(Inbound, id)
    case OutRecheck(id) => m == MexId(Outbound, id)
    case Shutdown(x) => m == x
    case _ => false
  }

  /** An exchange in its set was handed to somebody, is on its way out, or belongs to a thread. */
  predicate Attended(s: State, m: MexId) {
    m in s.active ==> m in s.dispatched || m in s.begun || Leaving(s, m) || Sum(s.tasks, Rechecks(m)) > 0
  }

  lemma TaskAttends(s: State, t: Task, ch: Choice, m: MexId)
    requires Ready(s, t) && m in Do(s, t, ch).s.active
    ensures var o := Do(s, t, ch);
      || m in o.s.dispatched || m in o.s.begun || Leaving(o.s, m) || Sum(o.work, Rechecks(m)) > 0
      || (m in s.active && m !in s.dispatched && m !in s.begun && !Leaving(s, m) && Rechecks(m)(t) == 0)
  {
    if t.Check? {
      hide Sum, Advance;
    } else if OpensExchange(t) {
      OpenAttends(s, t, ch, m);
    } else {
      EndAttends(s, t, ch, m);
    }
  }

  lemma OpenAttends(s: State, t: Task, ch: Choice, m: MexId)
    requires OpensExchange(t) && Ready(s, t) && m in Do(s, t, ch).s.active
    ensures var o := Do(s, t, ch);
      || m in o.s.dispatched || m in o.s.begun || Leaving(o.s, m) || Sum(o.work, Rechecks(m)) > 0
      || (m in s.active && m !in s.dispatched && m !in s.begun && !Leaving(s, m) && Rechecks(m)(t) == 0)
  {
    hide Sum;
    SumWork(Do(s, t, ch).work, Rechecks(m));
  }

  lemma EndAttends(s: State, t: Task, ch: Choice, m: MexId)
    requires !OpensExchange(t) && !t.Check? && Ready(s, t) && m in Do(s, t, ch).s.active
    ensures var o := Do(s, t, ch);
      || m in o.s.dispatched || m in o.s.begun || Leaving(o.s, m) || Sum(o.work, Rechecks(m)) > 0
      || (m in s.active && m !in s.dispatched && m !in s.begun && !Leaving(s, m) && Rechecks(m)(t) == 0)
  {
    hide Sum;
    SumWork(Do(s, t, ch).work, Rechecks(m));
  }

  lemma EventAttends(s: State, st: Step, m: MexId)
    requires Enabled(s, st) && !st.Run? && m in Perform(s, st).s.active
    ensures var o := Perform(s, st);
      m in s.active && o.s.dispatched == s.dispatched && o.s.begun == s.begun && Leaving(o.s, m) == Leaving(s, m)
  {
  }

  lemma AttendedStep(s: State, st: Step, m: MexId)
    requires Living(s) && Enabled(s, st) && Attended(s, m)
    ensures Attended(Apply(s, st), m)
  {
    hide Living, Sum, Do, Ready;
    if m in Apply(s, st).active {
      SumStep(s, st, Rechecks(m));
      if st.Run? {
        ReadyAt(s, st.i);
        TaskAttends(s, s.tasks[st.i], st.choice, m);
      } else {
        EventAttends(s, st, m);
      }
    }
  }

  lemma {:induction false} AttendedRun(s: State, steps: seq<Step>, s': State, m: MexId)
    requires Living(s) && Attended(s, m) && Reaches(s, steps, s')
    ensures Attended(s', m)
    decreases |steps|
  {
    hide Living, Attended, Apply;
    if steps == [] {
    } else {
      AttendedStep(s, steps[0], m);
      LivingStep(s, steps[0]);
      AttendedRun(Apply(s, steps[0]), steps[1..], s', m);
    }
  }

  // ---------- closed without an error ----------

  predicate ClosedCalmly(s: State) {
    s.state == Closed && !s.stopped ==> NoneDispatched(s) && NoneBegun(s)
  }

  lemma CalmlyStep(s: State, st: Step)
    requires Living(s) && Graceful(s) && Enabled(s, st) && ClosedCalmly(s)
    ensures ClosedCalmly(Apply(s, st))
  {
    var s' := Apply(s, st);
    GracefulStep(s, st);
    hide Living, NoneDispatched, NoneBegun, Apply, Sided, TasksSafe, StopChExact;
    if s'.state == Closed && !s'.stopped && s.state != Closed {
      ClosesFrom(s, st);
    }
  }

  // Without an error a connection closes only from inbound-closed.
  lemma ClosesFrom(s: State, st: Step)
    requires Graceful(s) && Enabled(s, st) && s.state != Closed && Apply(s, st).state == Closed && !Apply(s, st).stopped
    ensures s.state == InboundClosed
  {
    hide Sided, NoneDispatched, NoneBegun, StopChExact;
    if !st.Run? {
      EventSafe(s, st);
    } else if s.tasks[st.i].Check? {
      var t := s.tasks[st.i];
      assert PcSafe(s, t.pc);
      hide PcSafe, TasksSafe;
      var sh := Shared(s.state, s.stopped, st.choice.relayIdle, On(Inbound, s.active) == {},
        On(Outbound, s.active) == {});
      AdvanceCloses(t.pc, sh);
      if t.pc.MoveStopped? {
        MoveStoppedSafe(s, t.pc);
      }
    } else {
      TaskNoNewCalls(s, s.tasks[st.i], st.choice);
    }
  }

  lemma {:induction false} CalmlyRun(s: State, steps: seq<Step>, s': State)
    requires Living(s) && Graceful(s) && ClosedCalmly(s) && Reaches(s, steps, s')
    ensures ClosedCalmly(s')
    decreases |steps|
  {
    hide Living, Graceful, ClosedCalmly, Apply;
    if steps == [] {
    } else {
      CalmlyStep(s, steps[0]);
      GracefulStep(s, steps[0]);
      LivingStep(s, steps[0]);
      CalmlyRun(Apply(s, steps[0]), steps[1..], s');
    }
  }

  // ---------- drained connections ----------

  // With nothing left to do, an exchange in its set belongs to a dispatched or begun call.
  lemma DrainedIsAttended(s: State, m: MexId)
    requires Living(s) && Attended(s, m) && s.tasks == [] && m in s.active
    ensures m in s.dispatched || m in s.begun
  {
    assert Lives(s, m);
  }

  /** In every run in which the relay was idle whenever it was asked, once nothing is left to
      do: a connection past active that has no exchange left is closed, with stopCh closed
      once; and unless its exchanges were stopped, it is closed only then. */
  lemma ClosesWhenDrained(steps: seq<Step>, s: State)
    requires Reaches(Init(), steps, s) && IdleAnswers(steps) && s.tasks == [] && s.state != Active
    ensures s.active == {} ==> s.state == Closed && s.stopChCloses == 1
    ensures !s.stopped ==> (s.state == Closed <==> s.active == {})
  {
    hide Reaches, Living, Graceful, Attended, NoneDispatched, NoneBegun;
    ReachableGraceful(steps, s);
    DrivenRun(Init(), steps, s);
    assert !SomeDrives(s.state, s.tasks);
    InitSettled();
    CalmlyRun(Init(), steps, s);
    StopChOnce(s);
    if s.state == Closed && !s.stopped {
      forall m | m in s.active
        ensures false
      {
        AttendedRun(Init(), steps, s, m);
        DrainedIsAttended(s, m);
        NoneLeft(s, m);
      }
      assert s.active == {};
    }
  }

  // With nothing left to do, a closed connection has closed stopCh once.
  lemma StopChOnce(s: State)
    requires Graceful(s) && s.tasks == []
    ensures s.state == Closed ==> s.stopChCloses == 1
  {
  }

  lemma NoneLeft(s: State, m: MexId)
    requires NoneDispatched(s) && NoneBegun(s)
    ensures m in s.active ==> m !in s.dispatched && m !in s.begun
  {
  }

  lemma InitSettled()
    ensures Living(Init()) && Graceful(Init()) && ClosedCalmly(Init())
    ensures forall m :: Attended(Init(), m)
  {
    hide Living, Graceful, Sum;
    LivingInit();
    GracefulInit();
  }

  // ---------- operations that run alone ----------

  lemma Then(s: State, st: Step, steps: seq<Step>, s': State)
    requires Enabled(s, st) && Reaches(Apply(s, st), steps, s')
    ensures Reaches(s, [st] + steps, s')
  {
    assert ([st] + steps)[1..] == steps;
  }

  function SharedOf(s: State, relayIdle: bool): (sh: Shared) {
    Shared(s.state, s.stopped, relayIdle, On(Inbound, s.active) == {}, On(Outbound, s.active) == {})
  }

  lemma CheckGoes(s: State, rest: seq<Task>, pc: Pc, relayIdle: bool)
    requires s.tasks == rest + [Check(pc)]
    ensures var (pc', state) := Advance(pc, SharedOf(s, relayIdle));
      Goes(s, Run(|rest|, Choice(MexId(Inbound, 0), relayIdle)),
           s.(state := state, stopChCloses := s.stopChCloses + One(ClosesStopCh(pc)),
              tasks := rest + if pc' == Exited then [] else [Check(pc')]))
  {
    hide Advance, ClosesStopCh, On;
    assert Without(s.tasks, |rest|) == rest;
  }

  /** checkExchanges, run alone as the last task, does to the connection what it does by
      itself: CheckAlone says what that is. */
  lemma {:induction false} CheckRuns(s: State, rest: seq<Task>, pc: Pc, relayIdle: bool) returns (steps: seq<Step>)
    requires s.tasks == rest + [Check(pc)] && pc != Exited
    ensures var (final, n) := RunCheck(pc, SharedOf(s, relayIdle));
      Reaches(s, steps, s.(state := final, stopChCloses := s.stopChCloses + n, tasks := rest))
    decreases Ahead(pc)
  {
    hide Reaches, Advance, Ahead, ClosesStopCh, Apply, Perform, Enabled, On;
    var st, sh := Run(|rest|, Choice(MexId(Inbound, 0), relayIdle)), SharedOf(s, relayIdle);
    var (pc', state) := Advance(pc, sh);
    AdvanceEnds(pc, sh);
    CheckGoes(s, rest, pc, relayIdle);
    var s1 := Apply(s, st);
    var none: seq<Step> := [];
    if pc' == Exited {
      assert rest + [] == rest;
      NoSteps(s1);
      Then(s, st, none, s1);
      steps := [st] + none;
    } else {
      steps := CheckRuns(s1, rest, pc', relayIdle);
      var (final, n) := RunCheck(pc', SharedOf(s1, relayIdle));
      assert SharedOf(s1, relayIdle) == sh.(state := state);
      Then(s, st, steps, s1.(state := final, stopChCloses := s1.stopChCloses + n, tasks := rest));
      steps := [st] + steps;
    }
  }

  /** A Close that nothing interferes with: the connection closes at once if it has no
      exchange and an idle relay, and otherwise gets as far as what is left allows. */
  lemma CloseAlone(s: State, relayIdle: bool) returns (steps: seq<Step>)
    requires s.state == Active && !s.stopped
    ensures var inbound, outbound := On(Inbound, s.active) != {}, On(Outbound, s.active) != {};
      var final := if !relayIdle || inbound then StartClose else if outbound then InboundClosed else Closed;
      Reaches(s, steps, s.(state := final, stopChCloses := s.stopChCloses + One(final == Closed)))
  {
    hide Reaches, Apply, Perform, Do, Enabled, On, RunCheck;
    var s1 := s.(state := StartClose, tasks := s.tasks + [Check(ReadState)]);
    CloseGoes(s);
    steps := CheckRuns(s1, s.tasks, ReadState, relayIdle);
    CheckAlone(SharedOf(s1, relayIdle));
    var (final, n) := RunCheck(ReadState, SharedOf(s1, relayIdle));
    Then(s, Close, steps, s1.(state := final, stopChCloses := s1.stopChCloses + n, tasks := s.tasks));
    steps := [Close] + steps;
  }

  lemma CloseGoes(s: State)
    requires s.state == Active
    ensures Goes(s, Close, s.(state := StartClose, tasks := s.tasks + [Check(ReadState)]))
  {
  }

  // One step by the last task.
  lemma LastRuns(s: State, rest: seq<Task>, t: Task, c: Choice)
    requires s.tasks == rest + [t] && CanDo(s, t)
    ensures Enabled(s, Run(|rest|, c))
    ensures Apply(s, Run(|rest|, c)) == Do(s, t, c).s.(tasks := rest + Do(s, t, c).work)
  {
    assert Without(s.tasks, |rest|) == rest;
  }

  function InMex(id: nat): (m: MexId) {
    MexId(Inbound, id)
  }

  /** A call request with a fresh ID, on an active connection whose inbound set is open, is
      dispatched and in its set. */
  lemma CallReqAlone(s: State, id: nat, c1: Choice, c2: Choice, c3: Choice)
    requires s.state == Active && Inbound !in s.shut && InMex(id) !in s.mexes && InMex(id) !in s.active
    ensures var m, n := InMex(id), |s.tasks|;
      Reaches(s, [CallReq(id)] + ([Run(n, c1)] + ([Run(n, c2)] + ([Run(n, c3)] + []))),
              s.(active := s.active + {m}, mexes := s.mexes[m := Mex(false, false, false, 0)],
                 dispatched := s.dispatched + {m}))
  {
    hide Reaches;
    var m, n, ts := InMex(id), |s.tasks|, s.tasks;
    var s1, s2 := s.(tasks := ts + [InCheck(id)]), s.(tasks := ts + [InAdd(id)]);
    var s3 := AddMex(s, m, false).(tasks := ts + [InRecheck(id)]);
    var s4 := AddMex(s, m, false).(dispatched := s.dispatched + {m});
    LastRuns(s1, ts, InCheck(id), c1);
    LastRuns(s2, ts, InAdd(id), c2);
    LastRuns(s3, ts, InRecheck(id), c3);
    assert ts + [] == ts;
    NoSteps(s4);
    Then(s3, Run(n, c3), [], s4);
    Then(s2, Run(n, c2), [Run(n, c3)] + [], s4);
    Then(s1, Run(n, c1), [Run(n, c2)] + ([Run(n, c3)] + []), s4);
    Then(s, CallReq(id), [Run(n, c1)] + ([Run(n, c2)] + ([Run(n, c3)] + [])), s4);
  }

  /** A connection that is not active ignores it, and a set that is shut or has the ID
      already refuses it, which stops the exchanges. */
  lemma CallReqTurnedAway(s: State, id: nat, c1: Choice, c2: Choice)
    ensures s.state != Active ==> Reaches(s, [CallReq(id)] + ([Run(|s.tasks|, c1)] + []), s)
    ensures s.state == Active && (Inbound in s.shut || InMex(id) in s.active) ==>
      Reaches(s, [CallReq(id)] + ([Run(|s.tasks|, c1)] + ([Run(|s.tasks|, c2)] + [])),
        s.(tasks := s.tasks + [StopOnce]))
  {
    hide Reaches;
    var n, ts := |s.tasks|, s.tasks;
    var s1, s2, s3 := s.(tasks := ts + [InCheck(id)]), s.(tasks := ts + [InAdd(id)]), s.(tasks := ts + [StopOnce]);
    LastRuns(s1, ts, InCheck(id), c1);
    assert ts + [] == ts;
    NoSteps(s);
    NoSteps(s3);
    if s.state != Active {
      Then(s1, Run(n, c1), [], s);
      Then(s, CallReq(id), [Run(n, c1)] + [], s);
    } else if Inbound in s.shut || InMex(id) in s.active {
      LastRuns(s2, ts, InAdd(id), c2);
      Then(s2, Run(n, c2), [], s3);
      Then(s1, Run(n, c1), [Run(n, c2)] + [], s3);
      Then(s, CallReq(id), [Run(n, c1)] + ([Run(n, c2)] + []), s3);
    }
  }

  // The steps of beginCall.
  lemma BeginGoes(s: State, ts: seq<Task>, c: Choice)
    ensures Goes(s, BeginCall, s.(tasks := s.tasks + [OutCheck]))
    ensures s.tasks == ts + [OutCheck] && s.state == Active ==> Goes(s, Run(|ts|, c), s.(tasks := ts + [OutNext]))
    ensures s.tasks == ts + [OutNext] ==>
      Goes(s, Run(|ts|, c), s.(nextID := s.nextID + 1, tasks := ts + [OutAdd(s.nextID + 1)]))
  {
    if s.tasks == ts + [OutCheck] {
      LastRuns(s, ts, OutCheck, c);
    } else if s.tasks == ts + [OutNext] {
      LastRuns(s, ts, OutNext, c);
    }
  }

  lemma AddGoes(s: State, ts: seq<Task>, id: nat, c: Choice)
    requires s.tasks == ts + [OutAdd(id)] && !Refused(s, MexId(Outbound, id))
    ensures Goes(s, Run(|ts|, c), AddMex(s, MexId(Outbound, id), false).(tasks := ts + [OutRecheck(id)]))
  {
    LastRuns(s, ts, OutAdd(id), c);
  }

  lemma RecheckGoes(s: State, ts: seq<Task>, id: nat, c: Choice)
    requires s.tasks == ts + [OutRecheck(id)] && s.state == Active
    ensures Goes(s, Run(|ts|, c), s.(begun := s.begun + {MexId(Outbound, id)}, tasks := ts))
  {
    LastRuns(s, ts, OutRecheck(id), c);
    assert ts + [] == ts;
  }

  predicate Goes(s: State, st: Step, s': State) {
    Enabled(s, st) && Apply(s, st) == s'
  }

  /** A call that is begun on an active connection gets a new ID and is in its set. */
  lemma BeginCallAlone(s: State, c1: Choice, c2: Choice, c3: Choice, c4: Choice)
    requires s.state == Active && Outbound !in s.shut && MexId(Outbound, s.nextID + 1) !in s.active
    ensures var m, n := MexId(Outbound, s.nextID + 1), |s.tasks|;
      Reaches(s, [BeginCall] + ([Run(n, c1)] + ([Run(n, c2)] + ([Run(n, c3)] + ([Run(n, c4)] + [])))),
              s.(nextID := s.nextID + 1, active := s.active + {m}, mexes := s.mexes[m := Mex(false, false, false, 0)],
                 begun := s.begun + {m}))
  {
    hide Reaches, Apply, Perform, Do, Enabled, CanDo;
    var id, n, ts := s.nextID + 1, |s.tasks|, s.tasks;
    var m := MexId(Outbound, id);
    var s1, s2 := s.(tasks := ts + [OutCheck]), s.(tasks := ts + [OutNext]);
    var s3 := s.(nextID := id, tasks := ts + [OutAdd(id)]);
    var s4 := AddMex(s3, m, false).(tasks := ts + [OutRecheck(id)]);
    var s5 := s4.(begun := s.begun + {m}, tasks := ts);
    BeginGoes(s, ts, c1);
    BeginGoes(s1, ts, c1);
    BeginGoes(s2, ts, c2);
    AddGoes(s3, ts, id, c3);
    RecheckGoes(s4, ts, id, c4);
    NoSteps(s5);
    Then(s4, Run(n, c4), [], s5);
    Then(s3, Run(n, c3), [Run(n, c4)] + [], s5);
    Then(s2, Run(n, c2), [Run(n, c3)] + ([Run(n, c4)] + []), s5);
    Then(s1, Run(n, c1), [Run(n, c2)] + ([Run(n, c3)] + ([Run(n, c4)] + [])), s5);
    Then(s, BeginCall, [Run(n, c1)] + ([Run(n, c2)] + ([Run(n, c3)] + ([Run(n, c4)] + []))), s5);
  }

  lemma BeginCallIgnored(s: State, c: Choice)
    requires s.state != Active
    ensures Reaches(s, [BeginCall] + ([Run(|s.tasks|, c)] + []), s)
  {
    hide Reaches;
    var s1 := s.(tasks := s.tasks + [OutCheck]);
    LastRuns(s1, s.tasks, OutCheck, c);
    assert s.tasks + [] == s.tasks;
    NoSteps(s);
    Then(s1, Run(|s.tasks|, c), [], s);
    Then(s, BeginCall, [Run(|s.tasks|, c)] + [], s);
  }

  // The steps of ping.
  lemma PingGoes(s: State, ts: seq<Task>, c: Choice)
    ensures Goes(s, Ping, s.(tasks := s.tasks + [PingNext]))
    ensures s.tasks == ts + [PingNext] ==>
      Goes(s, Run(|ts|, c), s.(nextID := s.nextID + 1, tasks := ts + [PingAdd(s.nextID + 1)]))
  {
    if s.tasks == ts + [PingNext] {
      LastRuns(s, ts, PingNext, c);
    }
  }

  lemma PingAdds(s: State, ts: seq<Task>, id: nat, c: Choice)
    requires s.tasks == ts + [PingAdd(id)]
    ensures var m := MexId(Outbound, id);
      Goes(s, Run(|ts|, c), if Refused(s, m) then s.(tasks := ts + [StopOnce])
        else AddMex(s, m, true).(tasks := ts + [PingWait(id)]))
  {
    LastRuns(s, ts, PingAdd(id), c);
  }

  lemma PingEnds(s: State, ts: seq<Task>, id: nat, c: Choice)
    requires s.tasks == ts + [PingWait(id)]
    ensures Goes(s, Run(|ts|, c), s.(tasks := ts + [Remove(MexId(Outbound, id))]))
  {
    LastRuns(s, ts, PingWait(id), c);
  }

  lemma RemoveActiveGoes(s: State, ts: seq<Task>, m: MexId, c: Choice)
    requires s.tasks == ts + [Remove(m)] && m in s.active
    ensures Goes(s, Run(|ts|, c), s.(active := s.active - {m}, tasks := ts + [Check(ReadState)]))
  {
    LastRuns(s, ts, Remove(m), c);
  }

  /** A ping takes the next ID in whatever state the connection is. If the set is open its
      exchange is there until the answer, is then gone, and checkExchanges starts; if the
      set refuses it the exchanges are stopped. */
  lemma PingAlone(s: State, c: Choice)
    ensures var id, n := s.nextID + 1, |s.tasks|;
      var m, go := MexId(Outbound, id), Run(n, c);
      var waits := AddMex(s.(nextID := id), m, true).(tasks := s.tasks + [PingWait(id)]);
      if Refused(s, m) then
        Reaches(s, [Ping] + ([go] + ([go] + [])), s.(nextID := id, tasks := s.tasks + [StopOnce]))
      else
        && Reaches(s, [Ping] + ([go] + ([go] + [])), waits)
        && Reaches(waits, [go] + ([go] + []),
                   s.(nextID := id, mexes := waits.mexes, tasks := s.tasks + [Check(ReadState)]))
  {
    hide Reaches, Apply, Perform, Do, Enabled, CanDo;
    var id, ts, go := s.nextID + 1, s.tasks, Run(|s.tasks|, c);
    var m := MexId(Outbound, id);
    var s1, s2 := s.(tasks := ts + [PingNext]), s.(nextID := id, tasks := ts + [PingAdd(id)]);
    PingGoes(s, ts, c);
    PingGoes(s1, ts, c);
    PingAdds(s2, ts, id, c);
    var s3 := if Refused(s, m) then s2.(tasks := ts + [StopOnce])
      else AddMex(s2, m, true).(tasks := ts + [PingWait(id)]);
    NoSteps(s3);
    Then(s2, go, [], s3);
    Then(s1, go, [go] + [], s3);
    Then(s, Ping, [go] + ([go] + []), s3);
    if !Refused(s, m) {
      PingEnds(s3, ts, id, c);
      var s4 := s3.(tasks := ts + [Remove(m)]);
      RemoveActiveGoes(s4, ts, m, c);
      var s5 := s4.(active := s4.active - {m}, tasks := ts + [Check(ReadState)]);
      assert s.active + {m} - {m} == s.active;
      NoSteps(s5);
      Then(s4, go, [], s5);
      Then(s3, go, [go] + [], s5);
    }
  }

  /** An exchange that expires leaves the active ones for the expired ones, and checkExchanges
      starts, also if it had gone already. */
  lemma ExpireAlone(s: State, m: MexId)
    requires m in s.mexes && m.side == Inbound
    ensures var s' := Apply(s, ExpireMex(m));
      && m !in s'.active && (m in s'.expired <==> m in s.active || m in s.expired)
      && s' == s.(active := s.active - {m}, expired := s'.expired, tasks := s.tasks + [Check(ReadState)])
      && s'.expired - {m} == s.expired - {m}
  {
    assert m !in s.active ==> s.active - {m} == s.active;
  }

  lemma EventGoes(s: State, m: MexId)
    ensures m in s.mexes && !s.mexes[m].ping ==> Goes(s, ShutdownMex(m), s.(tasks := s.tasks + [Shutdown(m)]))
    ensures Goes(s, Stop, s.(tasks := s.tasks + [StopOnce]))
  {
  }

  // The steps of shutdown.
  lemma ShutdownGoes(s: State, ts: seq<Task>, m: MexId, c: Choice)
    requires s.tasks == ts + [Shutdown(m)] && m in s.mexes && !s.mexes[m].down
    ensures Goes(s, Run(|ts|, c),
      s.(mexes := s.mexes[m := s.mexes[m].(down := true)], tasks := ts + [ShutdownClaim(m)]))
  {
    LastRuns(s, ts, Shutdown(m), c);
  }

  lemma ClaimGoes(s: State, ts: seq<Task>, m: MexId, c: Choice)
    requires s.tasks == ts + [ShutdownClaim(m)] && m in s.mexes && !s.mexes[m].claimed
    ensures Goes(s, Run(|ts|, c), Claim(s, m).(tasks := ts + [Notify(m), Remove(m)]))
  {
    LastRuns(s, ts, ShutdownClaim(m), c);
  }

  lemma NotifyGoes(s: State, ts: seq<Task>, m: MexId, c: Choice)
    requires s.tasks == ts + [Notify(m), Remove(m)] && m in s.mexes
    ensures Goes(s, Run(|ts|, c),
                 s.(mexes := s.mexes[m := s.mexes[m].(notes := s.mexes[m].notes + 1)], tasks := ts + [Remove(m)]))
  {
    assert Without(s.tasks, |ts|) == ts + [Remove(m)];
    assert ts + [Remove(m)] + [] == ts + [Remove(m)];
  }

  lemma RemoveGoes(s: State, ts: seq<Task>, m: MexId, c: Choice)
    requires s.tasks == ts + [Remove(m)] && m in s.active
    ensures Goes(s, Run(|ts|, c), s.(active := s.active - {m}, tasks := ts + [Check(ReadState)]))
  {
    LastRuns(s, ts, Remove(m), c);
  }

  /** Shutting down a call takes it out of its set, notifies it once and starts
      checkExchanges. */
  lemma ShutdownAlone(s: State, m: MexId, c1: Choice, c2: Choice, c3: Choice, c4: Choice)
    requires m in s.active && m in s.mexes && !s.mexes[m].ping && !s.mexes[m].down && !s.mexes[m].claimed
    ensures var n, mex := |s.tasks|, s.mexes[m];
      Reaches(s, [ShutdownMex(m)] + ([Run(n, c1)] + ([Run(n, c2)] + ([Run(n, c3)] + ([Run(n, c4)] + [])))),
              s.(active := s.active - {m}, mexes := s.mexes[m := Mex(false, true, true, mex.notes + 1)],
                 tasks := s.tasks + [Check(ReadState)]))
  {
    hide Reaches, Apply, Perform, Do, Enabled, CanDo;
    var n, ts, mex := |s.tasks|, s.tasks, s.mexes[m];
    var s1 := s.(tasks := ts + [Shutdown(m)]);
    EventGoes(s, m);
    var s2 := s1.(mexes := s.mexes[m := mex.(down := true)], tasks := ts + [ShutdownClaim(m)]);
    var s3 := Claim(s2, m).(tasks := ts + [Notify(m), Remove(m)]);
    var s4 := s3.(mexes := s3.mexes[m := s3.mexes[m].(notes := mex.notes + 1)], tasks := ts + [Remove(m)]);
    var s5 := s4.(active := s.active - {m}, tasks := ts + [Check(ReadState)]);
    ShutdownGoes(s1, ts, m, c1);
    ClaimGoes(s2, ts, m, c2);
    NotifyGoes(s3, ts, m, c3);
    RemoveGoes(s4, ts, m, c4);
    NoSteps(s5);
    Then(s4, Run(n, c4), [], s5);
    Then(s3, Run(n, c3), [Run(n, c4)] + [], s5);
    Then(s2, Run(n, c2), [Run(n, c3)] + ([Run(n, c4)] + []), s5);
    Then(s1, Run(n, c1), [Run(n, c2)] + ([Run(n, c3)] + ([Run(n, c4)] + [])), s5);
    Then(s, ShutdownMex(m), [Run(n, c1)] + ([Run(n, c2)] + ([Run(n, c3)] + ([Run(n, c4)] + []))), s5);
    assert s5.mexes == s.mexes[m := Mex(false, true, true, mex.notes + 1)];
  }

  // ---------- stopping the exchanges ----------

  predicate StopsSet(t: Task, side: Side) {
    t == StopSet(side)
  }

  // Once stopped, each set has shut down or is about to.
  predicate StopShuts(s: State, side: Side) {
    s.stopped ==> side in s.shut || exists i :: 0 <= i < |s.tasks| && StopsSet(s.tasks[i], side)
  }

  lemma TaskShuts(s: State, t: Task, ch: Choice, side: Side)
    requires Do(s, t, ch).s.stopped
    ensures var o := Do(s, t, ch);
      || side in o.s.shut || (exists i :: 0 <= i < |o.work| && StopsSet(o.work[i], side))
      || (s.stopped && side !in s.shut && !StopsSet(t, side))
  {
    var work := Do(s, t, ch).work;
    if t == StopOnce && !s.stopped {
      assert StopsSet(work[if side == Outbound then 0 else 1], side);
    }
    hide Advance;
  }

  lemma EventShuts(s: State, st: Step)
    requires Enabled(s, st) && !st.Run?
    ensures Perform(s, st).s.stopped == s.stopped && Perform(s, st).s.shut == s.shut
  {
  }

  lemma ShutsStep(s: State, st: Step, side: Side)
    requires Enabled(s, st) && StopShuts(s, side)
    ensures StopShuts(Apply(s, st), side)
  {
    var o := Perform(s, st);
    if Apply(s, st).stopped && side !in Apply(s, st).shut {
      if st.Run? {
        TaskShuts(s, s.tasks[st.i], st.choice, side);
      } else {
        EventShuts(s, st);
      }
      hide Perform;
      if i :| 0 <= i < |o.work| && StopsSet(o.work[i], side) {
        LeftThere(s, st, i);
      } else {
        var i :| 0 <= i < |s.tasks| && StopsSet(s.tasks[i], side);
        StillThere(s, st, i);
      }
    }
  }

  lemma {:induction false} ShutsRun(s: State, steps: seq<Step>, s': State, side: Side)
    requires StopShuts(s, side) && Reaches(s, steps, s')
    ensures StopShuts(s', side)
    decreases |steps|
  {
    hide StopShuts, Apply;
    if steps == [] {
    } else {
      ShutsStep(s, steps[0], side);
      ShutsRun(Apply(s, steps[0]), steps[1..], s', side);
    }
  }

  /** Stopping the exchanges takes effect: a Stop marks them stopped, and in every run, once
      that is so and nothing is left to do, both sets are shut and every exchange still in
      them has been notified exactly once. */
  lemma StopNotifiesAll(steps: seq<Step>, s: State, m: MexId)
    requires Reaches(Init(), steps, s) && s.stopped && s.tasks == []
    ensures m.side in s.shut && (m in s.active ==> NotesOf(s, m) == 1)
  {
    hide Reaches;
    ShutsRun(Init(), steps, s, m.side);
    LifeCycle(steps, s, m);
  }

  lemma StopGoes(s: State, ts: seq<Task>, c: Choice)
    requires s.tasks == ts + [StopOnce]
    ensures Goes(s, Run(|ts|, c), s.(stopped := true,
                 tasks := ts + if s.stopped then [] else [StopSet(Outbound), StopSet(Inbound)]))
  {
    LastRuns(s, ts, StopOnce, c);
  }

  lemma StopAlone(s: State, c: Choice)
    ensures var work := if s.stopped then [] else [StopSet(Outbound), StopSet(Inbound)];
      Reaches(s, [Stop] + ([Run(|s.tasks|, c)] + []), s.(stopped := true, tasks := s.tasks + work))
  {
    hide Reaches, Apply, Perform, Do, Enabled, CanDo;
    var s1 := s.(tasks := s.tasks + [StopOnce]);
    var s2 := s.(stopped := true, tasks := s.tasks + if s.stopped then [] else [StopSet(Outbound), StopSet(Inbound)]);
    EventGoes(s, MexId(Inbound, 0));
    StopGoes(s1, s.tasks, c);
    NoSteps(s2);
    Then(s1, Run(|s.tasks|, c), [], s2);
    Then(s, Stop, [Run(|s.tasks|, c)] + [], s2);
  }
}
