/** A closing connection that relays ends up closed once its calls are over, and what Close
    and stopped exchanges do to it when nothing interferes (connection.go:791-849,
    relay.go:370-385). */
module RelaySettles {
  import opened Bags
  import opened CloseMachine
  import opened RelayTimers
  import opened RelayModel
  import opened RelayCounting
  import opened RelayLinks
  import opened RelayPending
  import opened RelayClose
  import D = RelayDelivery

  // ---------- what is on its way ----------

  predicate MustClose(s: State, r: RelayerId) {
    Conn(s, r) != Active && Conn(s, r) != Closed && Pending(s, r) == 0
  }

  predicate Drives(state: ConnState, r: RelayerId, t: Task) {
    t.Check? && t.r == r && PcDrives(state, t.pc)
  }

  predicate SomeDrives(state: ConnState, r: RelayerId, tasks: seq<Task>) {
    exists i :: 0 <= i < |tasks| && Drives(state, r, tasks[i])
  }

  predicate Driven(s: State, r: RelayerId) {
    MustClose(s, r) ==> SomeDrives(Conn(s, r), r, s.tasks)
  }

  // Some work drives the connection on, or nothing has changed for it.
  predicate DrivesOn(s: State, o: Outcome, r: RelayerId) {
    SomeDrives(Conn(o.s, r), r, o.work) || (MustClose(s, r) && Conn(o.s, r) == Conn(s, r))
  }

  lemma FirstDrives(state: ConnState, r: RelayerId, work: seq<Task>)
    ensures |work| > 0 && Drives(state, r, work[0]) ==> SomeDrives(state, r, work)
  {
  }

  lemma CheckDrives(s: State, t: Task, ch: Choice, r: RelayerId)
    requires t.Check? && ch.inboundEmpty && ch.outboundEmpty && MustClose(Do(s, t, ch).s, r)
    ensures DrivesOn(s, Do(s, t, ch), r)
    ensures Drives(Conn(s, r), r, t) ==> SomeDrives(Conn(Do(s, t, ch).s, r), r, Do(s, t, ch).work)
  {
    hide Advance, PcDrives;
    var o := Do(s, t, ch);
    var sh := Shared(Conn(s, t.r), t.r in s.stopped, Pending(s, t.r) == 0, true, true);
    AdvanceStarts(t.pc, sh);
    if t.r == r {
      AdvanceDrives(t.pc, sh);
      ExitedDrives(Conn(o.s, r));
      FirstDrives(Conn(o.s, r), r, o.work);
    }
  }

  // Whoever lowers the count starts a check.
  lemma TaskDrives(s: State, t: Task, ch: Choice, r: RelayerId)
    requires !t.Check? && MustClose(Do(s, t, ch).s, r)
    ensures DrivesOn(s, Do(s, t, ch), r)
  {
    hide Stop, Release, RunTrigger, GetAndStart, Abandon, Stops;
    FirstDrives(Conn(Do(s, t, ch).s, r), r, Do(s, t, ch).work);
  }

  lemma EventDrives(s: State, st: Step, r: RelayerId)
    requires Enabled(s, st) && !st.Run? && MustClose(Perform(s, st).s, r)
    ensures DrivesOn(s, Perform(s, st), r)
  {
    hide Stop, Fire, Stops;
    FirstDrives(Conn(Perform(s, st).s, r), r, Perform(s, st).work);
  }

  lemma StillThere(s: State, st: Step, i: nat)
    requires Enabled(s, st) && i < |s.tasks| && !(st.Run? && st.i == i)
    ensures s.tasks[i] in Apply(s, st).tasks
  {
    hide Perform;
    var j := if st.Run? && i > st.i then i - 1 else i;
    assert Apply(s, st).tasks[j] == s.tasks[i];
  }

  lemma LeftThere(s: State, st: Step, i: nat)
    requires Enabled(s, st) && i < |Perform(s, st).work|
    ensures Perform(s, st).work[i] in Apply(s, st).tasks
  {
    hide Perform;
    assert Apply(s, st).tasks[|Others(s, st)| + i] == Perform(s, st).work[i];
  }

  // The exchange sets were empty whenever this step asked.
  predicate EmptyAnswer(st: Step) {
    st.Run? ==> st.choice.inboundEmpty && st.choice.outboundEmpty
  }

  lemma StepDrives(s: State, st: Step, r: RelayerId)
    requires Enabled(s, st) && EmptyAnswer(st) && MustClose(Perform(s, st).s, r)
    ensures DrivesOn(s, Perform(s, st), r)
    ensures st.Run? && Drives(Conn(s, r), r, s.tasks[st.i]) ==>
      SomeDrives(Conn(Perform(s, st).s, r), r, Perform(s, st).work)
  {
    hide Do, MustClose, DrivesOn, SomeDrives, PcDrives;
    if !st.Run? {
      EventDrives(s, st, r);
    } else {
      PerformRun(s, st);
      if s.tasks[st.i].Check? {
        CheckDrives(s, s.tasks[st.i], st.choice, r);
      } else {
        TaskDrives(s, s.tasks[st.i], st.choice, r);
      }
    }
  }

  lemma DrivenStep(s: State, st: Step, r: RelayerId)
    requires Driven(s, r) && Enabled(s, st) && EmptyAnswer(st)
    ensures Driven(Apply(s, st), r)
  {
    hide Perform, Drives;
    var o := Perform(s, st);
    if MustClose(Apply(s, st), r) {
      StepDrives(s, st, r);
      if i :| 0 <= i < |o.work| && Drives(Conn(o.s, r), r, o.work[i]) {
        LeftThere(s, st, i);
      } else {
        assert !SomeDrives(Conn(o.s, r), r, o.work);
        var i :| 0 <= i < |s.tasks| && Drives(Conn(s, r), r, s.tasks[i]);
        StillThere(s, st, i);
      }
    }
  }

  predicate EmptyAnswers(steps: seq<Step>) {
    forall i :: 0 <= i < |steps| ==> EmptyAnswer(steps[i])
  }

  lemma {:induction false} DrivenRun(s: State, steps: seq<Step>, s': State, r: RelayerId)
    requires Driven(s, r) && Reaches(s, steps, s') && EmptyAnswers(steps)
    ensures Driven(s', r)
    decreases |steps|
  {
    hide Driven, Apply, EmptyAnswer;
    if steps == [] {
    } else {
      DrivenStep(s, steps[0], r);
      DrivenRun(Apply(s, steps[0]), steps[1..], s', r);
    }
  }

  // ---------- closed without an error ----------

  // Only a thread that found the exchanges stopped closes the connection for that.
  predicate StopSeen(s: State, t: Task) {
    t.Check? && t.pc.MoveStopped? ==> t.r in s.stopped
  }

  predicate StopsSeen(s: State, tasks: seq<Task>) {
    forall i :: 0 <= i < |tasks| ==> StopSeen(s, tasks[i])
  }

  predicate ClosedCalmly(s: State, r: RelayerId) {
    Conn(s, r) == Closed && r !in s.stopped ==> Pending(s, r) == 0
  }

  lemma TaskSees(s: State, t: Task, ch: Choice)
    ensures s.stopped == Do(s, t, ch).s.stopped
    ensures StopsSeen(s, Do(s, t, ch).work)
  {
    hide Stop, Release, RunTrigger, GetAndStart, Abandon, Stops;
  }

  lemma EventSees(s: State, st: Step)
    requires Enabled(s, st) && !st.Run?
    ensures s.stopped <= Perform(s, st).s.stopped
    ensures StopsSeen(s, Perform(s, st).work)
  {
    hide Stop, Fire, Stops;
  }

  lemma SeenStep(s: State, st: Step)
    requires StopsSeen(s, s.tasks) && Enabled(s, st)
    ensures StopsSeen(Apply(s, st), Apply(s, st).tasks) && s.stopped <= Apply(s, st).stopped
  {
    hide Perform, Do;
    if st.Run? {
      PerformRun(s, st);
      TaskSees(s, s.tasks[st.i], st.choice);
    } else {
      EventSees(s, st);
    }
  }

  lemma AdvanceCloses(pc: Pc, sh: Shared)
    ensures sh.state != Closed && Advance(pc, sh).1 == Closed ==> pc.MoveStopped? || sh.state == InboundClosed
  {
  }

  lemma TaskClosesNothing(s: State, t: Task, ch: Choice, r: RelayerId)
    requires !t.Check?
    ensures Conn(Do(s, t, ch).s, r) == Conn(s, r)
  {
    hide Stop, Release, RunTrigger, GetAndStart, Abandon, Stops;
  }

  lemma CheckCloses(s: State, t: Task, ch: Choice, r: RelayerId)
    requires t.Check? && StopSeen(s, t) && Conn(s, r) != Closed && Conn(Do(s, t, ch).s, r) == Closed
    ensures r in s.stopped || Conn(s, r) == InboundClosed
  {
    hide Advance;
    AdvanceCloses(t.pc, Shared(Conn(s, t.r), t.r in s.stopped, Pending(s, t.r) == 0, ch.inboundEmpty,
      ch.outboundEmpty));
  }

  lemma EventClosesNothing(s: State, st: Step, r: RelayerId)
    requires Enabled(s, st) && !st.Run? && Conn(s, r) != Closed
    ensures Conn(Perform(s, st).s, r) != Closed
  {
    hide Stop, Fire, Stops;
  }

  lemma CalmlyStep(s: State, st: Step, r: RelayerId)
    requires Counted(s) && Idle(s) && StopsSeen(s, s.tasks) && ClosedCalmly(s, r) && Enabled(s, st)
    ensures ClosedCalmly(Apply(s, st), r)
  {
    hide Counted, Perform, Do, TaskIdle;
    var s' := Apply(s, st);
    assert ClosedIdle(s, r);
    IdleStep(s, st);
    assert Calms(s, s', r);
    SeenStep(s, st);
    if Conn(s', r) == Closed && Conn(s, r) != Closed {
      if !st.Run? {
        EventClosesNothing(s, st, r);
      } else {
        PerformRun(s, st);
        var t := s.tasks[st.i];
        assert StopSeen(s, t);
        if t.Check? {
          CheckCloses(s, t, st.choice, r);
        } else {
          TaskClosesNothing(s, t, st.choice, r);
        }
      }
    }
  }

  lemma {:induction false} CalmlyRun(s: State, steps: seq<Step>, s': State, r: RelayerId)
    requires Linked(s) && Counted(s) && Idle(s) && StopsSeen(s, s.tasks) && ClosedCalmly(s, r) && Reaches(s, steps, s')
    ensures ClosedCalmly(s', r)
    decreases |steps|
  {
    if steps == [] {
    } else {
      hide Linked, Counted, Idle, Apply, StopsSeen, ClosedCalmly;
      LinkedStep(s, steps[0]);
      CountedStep(s, steps[0]);
      IdleStep(s, steps[0]);
      SeenStep(s, steps[0]);
      CalmlyStep(s, steps[0], r);
      CalmlyRun(Apply(s, steps[0]), steps[1..], s', r);
    }
  }

  lemma InitIdle(maxTombs: nat)
    ensures Idle(Init(maxTombs))
  {
  }

  /** In every run in which the exchange sets were empty whenever checkExchanges asked, once
      nothing is left to do: a closing connection with no live relay item is closed, and
      unless its exchanges were stopped it is closed only then. */
  lemma ClosesWhenDrained(maxTombs: nat, steps: seq<Step>, s: State, r: RelayerId)
    requires Reaches(Init(maxTombs), steps, s) && EmptyAnswers(steps) && s.tasks == [] && Conn(s, r) != Active
    ensures var live := Count(s.items, LiveAt(r, Inbound)) + Count(s.items, LiveAt(r, Outbound));
      && (live == 0 ==> Conn(s, r) == Closed)
      && (r !in s.stopped ==> (Conn(s, r) == Closed <==> live == 0))
  {
    hide Reaches, Linked, Counted, Idle, Count;
    PendingConserved(maxTombs, steps, s, r);
    DrivenRun(Init(maxTombs), steps, s, r);
    assert !SomeDrives(Conn(s, r), r, s.tasks);
    LinkedInit(maxTombs);
    CountedInit(maxTombs);
    InitIdle(maxTombs);
    CalmlyRun(Init(maxTombs), steps, s, r);
  }

  // ---------- run alone ----------

  function SharedOf(s: State, r: RelayerId, ch: Choice): (sh: Shared) {
    Shared(Conn(s, r), r in s.stopped, Pending(s, r) == 0, ch.inboundEmpty, ch.outboundEmpty)
  }

  // Relayers whose state was never set are active.
  predicate SameButConn(s: State, s': State, r: RelayerId, state: ConnState) {
    && s' == s.(conn := s.conn[r := state], tasks := s'.tasks, log := s.log.(neverHappened := s'.log.neverHappened))
  }

  lemma CheckGoes(s: State, rest: seq<Task>, r: RelayerId, pc: Pc, ch: Choice)
    requires s.tasks == rest + [Check(r, pc)]
    ensures var (pc', state) := Advance(pc, SharedOf(s, r, ch));
      var s' := Apply(s, Run(|rest|, ch));
      && D.Goes(s, Run(|rest|, ch), s') && SameButConn(s, s', r, state)
      && s'.tasks == rest + if pc' == Exited then [] else [Check(r, pc')]
  {
    hide Advance;
    assert s.tasks == rest + [Check(r, pc)] + [];
    D.TaskGoes(s, rest, Check(r, pc), [], ch);
    assert rest + [] == rest;
  }

  /** checkExchanges run alone as the last task leaves the state that CheckAlone says. */
  lemma {:induction false} CheckRuns(s: State, rest: seq<Task>, r: RelayerId, pc: Pc, ch: Choice)
      returns (steps: seq<Step>, s': State)
    requires s.tasks == rest + [Check(r, pc)] && pc != Exited
    ensures Reaches(s, steps, s') && SameButConn(s, s', r, RunCheck(pc, SharedOf(s, r, ch)).0) && s'.tasks == rest
    decreases Ahead(pc)
  {
    hide Reaches, Advance, Ahead, Apply, Enabled;
    var st := Run(|rest|, ch);
    AdvanceEnds(pc, SharedOf(s, r, ch));
    CheckGoes(s, rest, r, pc, ch);
    var (pc', state) := Advance(pc, SharedOf(s, r, ch));
    var s1 := Apply(s, st);
    if pc' == Exited {
      assert rest + [] == rest;
      D.NoSteps(s1);
      steps, s' := [], s1;
    } else {
      steps, s' := CheckRuns(s1, rest, r, pc', ch);
      assert SharedOf(s1, r, ch) == SharedOf(s, r, ch).(state := state);
      assert s.conn[r := state][r := Conn(s', r)] == s.conn[r := Conn(s', r)];
    }
    D.Then(s, st, s1, steps, s');
    steps := [st] + steps;
  }

  /** A Close of an active connection that nothing interferes with: it is closed at once if
      nothing is pending and its exchange sets are empty, and waits otherwise. */
  lemma CloseAlone(s: State, r: RelayerId, ch: Choice) returns (steps: seq<Step>, s': State)
    requires Conn(s, r) == Active && r !in s.stopped
    ensures Reaches(s, [Close(r)] + steps, s') && s'.tasks == s.tasks && s'.items == s.items && s'.pending == s.pending
    ensures Conn(s', r) ==
      if Pending(s, r) != 0 || !ch.inboundEmpty then StartClose
      else if ch.outboundEmpty then Closed else InboundClosed
  {
    hide Reaches, RunCheck, Advance;
    var s1 := s.(conn := s.conn[r := StartClose], tasks := s.tasks + [Check(r, ReadState)]);
    assert D.Goes(s, Close(r), s1);
    hide Apply, Enabled, D.Goes;
    steps, s' := CheckRuns(s1, s.tasks, r, ReadState, ch);
    CheckAlone(SharedOf(s1, r, ch));
    D.Then(s, Close(r), s1, steps, s');
  }

  /** Stopped exchanges close the connection whatever is pending. */
  lemma StopAlone(s: State, r: RelayerId, ch: Choice) returns (steps: seq<Step>, s': State)
    ensures Reaches(s, [StopExchanges(r)] + ([Poke(r)] + steps), s')
    ensures Conn(s', r) == Closed && s'.tasks == s.tasks && s'.items == s.items && s'.pending == s.pending
  {
    hide Reaches, RunCheck, Advance;
    var s1 := s.(stopped := s.stopped + {r});
    var s2 := s1.(tasks := s.tasks + [Check(r, ReadState)]);
    StopGoes(s, r);
    hide Apply, Enabled, D.Goes;
    steps, s' := CheckRuns(s2, s.tasks, r, ReadState, ch);
    CheckAlone(SharedOf(s2, r, ch));
    D.Then(s1, Poke(r), s2, steps, s');
    D.Then(s, StopExchanges(r), s1, [Poke(r)] + steps, s');
  }

  lemma StopGoes(s: State, r: RelayerId)
    ensures var s1 := s.(stopped := s.stopped + {r});
      && D.Goes(s, StopExchanges(r), s1)
      && D.Goes(s1, Poke(r), s1.(tasks := s.tasks + [Check(r, ReadState)]))
  {
    assert s.tasks + [] == s.tasks;
  }
}
