/** When a closing channel whose connections are all closed ends up closed, and two runs
    that show what can happen instead (channel.go:747-888). */
module ChannelSettles {
  import opened Bags
  import opened ChannelClose
  import C = CloseMachine

  // ---------- lost updates ----------

  /** The recheck in connectionCloseStateChange drops an update that the channel still
      needed: it leaves the channel short of the state the update was for. */
  predicate Loses(s: State, st: Step)
    requires Enabled(s, st)
  {
    st.Run? && s.tasks[st.i].Update? && Apply(s, st).state.Rank() < s.tasks[st.i].to.Rank()
  }

  /** Exactly the updates to closed are lost, when the channel is neither in the state that
      was read for them nor closed already. */
  lemma LosesExactly(steps: seq<Step>, s: State, st: Step)
    requires Reaches(Init(), steps, s) && Enabled(s, st)
    ensures Loses(s, st) <==>
      && st.Run? && s.tasks[st.i].Update? && s.tasks[st.i].to == Closed
      && s.state != s.tasks[st.i].seen && s.state != Closed
  {
    SoundRun(Init(), steps, s);
    if st.Run? {
      assert TaskSound(s, s.tasks[st.i]);
    }
    hide Reaches, Promises, Sum;
  }

  predicate NoneLost(s: State, steps: seq<Step>)
    decreases |steps|
  {
    steps == [] || (Enabled(s, steps[0]) && !Loses(s, steps[0]) && NoneLost(Apply(s, steps[0]), steps[1..]))
  }

  // ---------- what is on its way ----------

  predicate AllClosed(s: State) {
    forall c :: c in s.conns ==> Conn(s, c) == C.Closed
  }

  // A task that will move the channel to closed, once all connections are.
  predicate Drives(t: Task) {
    match t
    case StateChange(_) => true
    case RemoveConn(_) => true
    case ReadChannel => true
    case LockConns(_) => true
    case Scan(_, _, min) => min == C.Closed
    case Update(_, to) => to == Closed
    case _ => false
  }

  predicate SomeDrives(tasks: seq<Task>) {
    exists i :: 0 <= i < |tasks| && Drives(tasks[i])
  }

  predicate Removes(t: Task, c: ConnId) {
    t == StateChange(c) || t == RemoveConn(c)
  }

  predicate SomeRemoves(tasks: seq<Task>, c: ConnId) {
    exists i :: 0 <= i < |tasks| && Removes(tasks[i], c)
  }

  // Connections a task has still to look at or to remove are tracked or closed.
  predicate TaskKnows(s: State, t: Task) {
    match t
    case RemoveConn(c) => Conn(s, c) == C.Closed
    case Scan(_, left, _) => forall c :: c in left ==> c in s.conns || Conn(s, c) == C.Closed
    case _ => true
  }

  predicate TasksKnow(s: State, tasks: seq<Task>) {
    forall i :: 0 <= i < |tasks| ==> TaskKnows(s, tasks[i])
  }

  predicate MustMove(s: State) {
    Closing(s.state) && s.state != Closed && AllClosed(s)
  }

  predicate MustRemove(s: State, c: ConnId) {
    c in s.conns && Conn(s, c) == C.Closed
  }

  /** A closed connection that is still tracked is about to be removed, and a channel that
      is closing with all its connections closed is about to be closed. */
  ghost predicate Driven(s: State) {
    && TasksKnow(s, s.tasks)
    && (forall c :: MustRemove(s, c) ==> SomeRemoves(s.tasks, c))
    && (MustMove(s) ==> SomeDrives(s.tasks))
  }

  // ---------- one outcome ----------

  // Closed connections stay closed, and none stops being tracked before it is.
  ghost predicate KeepsKnown(s: State, s': State) {
    forall c {:trigger Conn(s', c)} ::
      && (Conn(s, c) == C.Closed ==> Conn(s', c) == C.Closed)
      && (c in s.conns ==> c in s'.conns || Conn(s', c) == C.Closed)
  }

  lemma DoKeeps(s: State, t: Task, c: ConnId)
    requires TaskKnows(s, t)
    ensures KeepsKnown(s, Do(s, t, c).s) && TasksKnow(Do(s, t, c).s, Do(s, t, c).work)
  {
  }

  // A task that would have removed a connection leaves it removed, or to be removed.
  lemma DoRemoves(s: State, t: Task, c: ConnId, x: ConnId)
    requires MustRemove(Do(s, t, c).s, x)
    ensures SomeRemoves(Do(s, t, c).work, x) || (MustRemove(s, x) && !Removes(t, x))
  {
    RemovesAt(Do(s, t, c).work, x);
  }

  // A task that drives leaves one that does, or the channel closed.
  lemma DoDrives(s: State, t: Task, c: ConnId)
    requires TaskSound(s, t) && TaskKnows(s, t) && MustMove(Do(s, t, c).s)
    requires t.Update? ==> t.to.Rank() <= Do(s, t, c).s.state.Rank()
    ensures SomeDrives(Do(s, t, c).work) || (MustMove(s) && !Drives(t))
  {
    hide Promises, AllAtLeast;
    DrivesAt(Do(s, t, c).work);
  }

  lemma RemovesAt(work: seq<Task>, x: ConnId)
    ensures |work| > 0 && Removes(work[0], x) ==> SomeRemoves(work, x)
    ensures |work| > 1 && Removes(work[1], x) ==> SomeRemoves(work, x)
  {
  }

  lemma DrivesAt(work: seq<Task>)
    ensures |work| > 0 && Drives(work[0]) ==> SomeDrives(work)
    ensures |work| > 1 && Drives(work[1]) ==> SomeDrives(work)
  {
  }

  lemma EventDrives(s: State, st: Step, x: ConnId)
    requires Enabled(s, st) && !st.Run?
    ensures var o := Perform(s, st);
      && KeepsKnown(s, o.s) && TasksKnow(o.s, o.work)
      && (MustRemove(o.s, x) ==> SomeRemoves(o.work, x) || MustRemove(s, x))
      && (MustMove(o.s) ==> SomeDrives(o.work) || MustMove(s) || (o.s.conns == s.conns != {} && AllClosed(s)))
  {
    RemovesAt(Perform(s, st).work, x);
    DrivesAt(Perform(s, st).work);
  }

  // ---------- every step, every run ----------

  lemma KnowsKept(s: State, s': State, t: Task)
    requires TaskKnows(s, t) && KeepsKnown(s, s')
    ensures TaskKnows(s', t)
  {
    if t.RemoveConn? {
      assert Conn(s', t.c) == C.Closed;
    } else if t.Scan? {
      forall c | c in t.left
        ensures c in s'.conns || Conn(s', c) == C.Closed
      {
      }
    }
  }

  lemma KnowStep(s: State, st: Step)
    requires Enabled(s, st) && TasksKnow(s, s.tasks)
    ensures TasksKnow(Apply(s, st), Apply(s, st).tasks)
  {
    var s', o := Apply(s, st), Perform(s, st);
    if st.Run? {
      DoKeeps(s, s.tasks[st.i], st.choice);
    } else {
      EventDrives(s, st, 0);
    }
    hide Perform, TaskKnows;
    assert KeepsKnown(s, s') by {
      assert forall c :: Conn(o.s, c) == Conn(s', c);
    }
    forall i | 0 <= i < |s'.tasks|
      ensures TaskKnows(s', s'.tasks[i])
    {
      if i < |Others(s, st)| {
        var j := if st.Run? && i >= st.i then i + 1 else i;
        assert s'.tasks[i] == s.tasks[j];
        KnowsKept(s, s', s.tasks[j]);
      } else {
        assert s'.tasks[i] == o.work[i - |Others(s, st)|];
        SameKnows(o.s, s', s'.tasks[i]);
      }
    }
  }

  lemma SameKnows(o: State, s': State, t: Task)
    requires s' == o.(tasks := s'.tasks) && TaskKnows(o, t)
    ensures TaskKnows(s', t)
  {
    assert forall c :: Conn(o, c) == Conn(s', c);
  }

  // A task that is still to be done, or is left by the step, is there after it.
  lemma StillThere(s: State, st: Step, i: nat)
    requires Enabled(s, st) && i < |s.tasks| && !(st.Run? && st.i == i)
    ensures s.tasks[i] in Apply(s, st).tasks
  {
    hide Perform;
    var j := if st.Run? && i > st.i then i - 1 else i;
    assert Apply(s, st).tasks[j] == s.tasks[i];
  }

  lemma LeftThere(s: State, st: Step, i: nat)
    requires Enabled(s, st) && i < |Perform(s, st).work|
    ensures Perform(s, st).work[i] in Apply(s, st).tasks
  {
    hide Perform;
    assert Apply(s, st).tasks[|Others(s, st)| + i] == Perform(s, st).work[i];
  }

  lemma RemoveStep(s: State, st: Step, x: ConnId)
    requires Enabled(s, st) && (MustRemove(s, x) ==> SomeRemoves(s.tasks, x))
    ensures MustRemove(Apply(s, st), x) ==> SomeRemoves(Apply(s, st).tasks, x)
  {
    var o := Perform(s, st);
    if MustRemove(Apply(s, st), x) {
      assert MustRemove(o.s, x);
      if st.Run? {
        DoRemoves(s, s.tasks[st.i], st.choice, x);
      } else {
        EventDrives(s, st, x);
      }
      hide Perform;
      if i :| 0 <= i < |o.work| && Removes(o.work[i], x) {
        LeftThere(s, st, i);
      } else {
        assert !SomeRemoves(o.work, x);
        var i :| 0 <= i < |s.tasks| && Removes(s.tasks[i], x);
        StillThere(s, st, i);
      }
    }
  }

  lemma DriveStep(s: State, st: Step)
    requires Sound(s) && Driven(s) && Enabled(s, st) && !Loses(s, st)
    ensures MustMove(Apply(s, st)) ==> SomeDrives(Apply(s, st).tasks)
  {
    var o := Perform(s, st);
    if MustMove(Apply(s, st)) {
      assert MustMove(o.s) by {
        assert forall c :: Conn(o.s, c) == Conn(Apply(s, st), c);
      }
      if st.Run? {
        assert TaskSound(s, s.tasks[st.i]) && TaskKnows(s, s.tasks[st.i]);
        DoDrives(s, s.tasks[st.i], st.choice);
      } else {
        EventDrives(s, st, 0);
        if s.conns != {} && AllClosed(s) {
          var c :| c in s.conns;
          assert MustRemove(s, c);
          RemoverDrives(s.tasks, c);
        }
      }
      hide Perform, Sound;
      if i :| 0 <= i < |o.work| && Drives(o.work[i]) {
        LeftThere(s, st, i);
      } else {
        assert !SomeDrives(o.work);
        var i :| 0 <= i < |s.tasks| && Drives(s.tasks[i]);
        StillThere(s, st, i);
      }
    }
  }

  lemma RemoverDrives(tasks: seq<Task>, c: ConnId)
    requires SomeRemoves(tasks, c)
    ensures SomeDrives(tasks)
  {
    var i :| 0 <= i < |tasks| && Removes(tasks[i], c);
    assert Drives(tasks[i]);
  }

  lemma DrivenStep(s: State, st: Step)
    requires Sound(s) && Driven(s) && Enabled(s, st) && !Loses(s, st)
    ensures Driven(Apply(s, st))
  {
    KnowStep(s, st);
    DriveStep(s, st);
    hide Sound, Apply, MustMove;
    forall c | MustRemove(Apply(s, st), c)
      ensures SomeRemoves(Apply(s, st).tasks, c)
    {
      RemoveStep(s, st, c);
    }
  }

  lemma {:induction false} DrivenRun(s: State, steps: seq<Step>, s': State)
    requires Sound(s) && Driven(s) && Reaches(s, steps, s') && NoneLost(s, steps)
    ensures Sound(s') && Driven(s')
    decreases |steps|
  {
    hide Sound, Driven, Apply, Loses;
    if steps == [] {
    } else {
      SoundStep(s, steps[0]);
      DrivenStep(s, steps[0]);
      DrivenRun(Apply(s, steps[0]), steps[1..], s');
    }
  }

  /** In every run that loses no update, once nothing is left to be done a closing channel
      is closed exactly if it tracks no connection, and it tracks no closed connection. */
  lemma ClosesWhenDrained(steps: seq<Step>, s: State)
    requires Reaches(Init(), steps, s) && NoneLost(Init(), steps) && s.tasks == []
    ensures Closing(s.state) ==> (s.state == Closed <==> s.conns == {})
    ensures forall c :: c in s.conns ==> Conn(s, c) != C.Closed
  {
    hide Reaches, NoneLost;
    DrivenRun(Init(), steps, s);
    forall c | c in s.conns
      ensures Conn(s, c) != C.Closed
    {
      assert !SomeRemoves(s.tasks, c);
      assert !MustRemove(s, c);
    }
    assert !SomeDrives(s.tasks);
  }

  // ---------- two runs ----------

  lemma {:induction false} OneMore(s: State, steps: seq<Step>, s': State, st: Step)
    requires Reaches(s, steps, s') && Enabled(s', st)
    ensures Reaches(s, steps + [st], Apply(s', st))
    decreases |steps|
  {
    if steps == [] {
      assert [st][1..] == [];
    } else {
      OneMore(Apply(s, steps[0]), steps[1..], s', st);
      assert (steps + [st])[1..] == steps[1..] + [st];
    }
  }

  lemma NoSteps(s: State)
    ensures Reaches(s, [], s)
  {
  }

  // A channel with at most one connection and the given work to do.
  function Chan(state: ChannelState, tracked: bool, to: C.ConnState, tasks: seq<Task>): (s: State) {
    State(state, if tracked then {0} else {}, map[0 := to], 0, tasks)
  }

  predicate Same(s: State, s': State) {
    s.state == s'.state && s.conns == s'.conns && s.conn == s'.conn && s.closes == s'.closes && s.tasks == s'.tasks
  }

  // The last task takes its next step.
  lemma RunLast(steps: seq<Step>, s: State, rest: seq<Task>, t: Task, next: State) returns (steps': seq<Step>)
    requires Reaches(Init(), steps, s) && s.tasks == rest + [t]
    requires Same(next, Do(s, t, 0).s.(tasks := rest + Do(s, t, 0).work))
    ensures Reaches(Init(), steps', next)
  {
    hide Reaches, Do;
    OneMore(Init(), steps, s, Run(|rest|, 0));
    assert Others(s, Run(|rest|, 0)) == rest;
    steps' := steps + [Run(|rest|, 0)];
  }

  lemma RunFirst(steps: seq<Step>, s: State, t: Task, rest: seq<Task>, next: State) returns (steps': seq<Step>)
    requires Reaches(Init(), steps, s) && s.tasks == [t] + rest
    requires Same(next, Do(s, t, 0).s.(tasks := rest + Do(s, t, 0).work))
    ensures Reaches(Init(), steps', next)
  {
    hide Reaches, Do;
    OneMore(Init(), steps, s, Run(0, 0));
    assert Others(s, Run(0, 0)) == rest;
    steps' := steps + [Run(0, 0)];
  }

  lemma Event(steps: seq<Step>, s: State, st: Step, next: State) returns (steps': seq<Step>)
    requires Reaches(Init(), steps, s) && !st.Run? && Enabled(s, st) && Same(next, Apply(s, st))
    ensures Reaches(Init(), steps', next)
  {
    hide Reaches, Apply;
    OneMore(Init(), steps, s, st);
    steps' := steps + [st];
  }

  // Close has closed the one connection, and nothing is left to do.
  lemma Started() returns (steps: seq<Step>)
    ensures Reaches(Init(), steps, Chan(StartClose, true, C.StartClose, []))
  {
    hide Reaches;
    NoSteps(Init());
    var none: seq<Task>, idle: set<ConnId> := [], {};
    var s1 := Init().(conns := {0});
    var s2 := s1.(state := StartClose, tasks := [CloseConns({0})]);
    steps := Event([], Init(), AddConn(0), s1);
    steps := Event(steps, s1, Close, s2);
    var rest := [CloseConns(idle)];
    assert {0} - {0} == idle;
    var s3 := Chan(StartClose, true, C.StartClose, rest + [StateChange(0)]);
    steps := RunLast(steps, s2, none, CloseConns({0}), s3);
    steps := RunLast(steps, s3, rest, StateChange(0), Chan(StartClose, true, C.StartClose, rest + [ReadChannel]));
    steps := Scanned(steps, C.StartClose, rest);
    assert rest + AfterScan(StartClose, C.StartClose) == rest;
    steps := RunLast(steps, Chan(StartClose, true, C.StartClose, rest), none, CloseConns(idle),
                     Chan(StartClose, true, C.StartClose, none));
  }

  // connectionCloseStateChange from reading the channel's state to the end of the scan.
  lemma Scanned(steps: seq<Step>, to: C.ConnState, rest: seq<Task>) returns (steps': seq<Step>)
    requires Reaches(Init(), steps, Chan(StartClose, true, to, rest + [ReadChannel])) && to != C.Closed
    ensures Reaches(Init(), steps', Chan(StartClose, true, to, rest + AfterScan(StartClose, to)))
  {
    hide Reaches, AfterScan;
    var idle: set<ConnId>, lock := {}, LockConns(StartClose);
    var look, last := Scan(StartClose, {0}, C.Closed), Scan(StartClose, idle, to);
    assert {0} - {0} == idle;
    var s1, s2 := Chan(StartClose, true, to, rest + [ReadChannel]), Chan(StartClose, true, to, rest + [lock]);
    var s3, s4 := Chan(StartClose, true, to, rest + [look]), Chan(StartClose, true, to, rest + [last]);
    steps' := RunLast(steps, s1, rest, ReadChannel, s2);
    steps' := RunLast(steps', s2, rest, lock, s3);
    steps' := RunLast(steps', s3, rest, look, s4);
    steps' := RunLast(steps', s4, rest, last, Chan(StartClose, true, to, rest + AfterScan(StartClose, to)));
  }

  // The connection is inbound-closed, and a thread is about to move the channel there.
  lemma AboutToMove() returns (steps: seq<Step>)
    ensures Reaches(Init(), steps, Chan(StartClose, true, C.InboundClosed, [Update(StartClose, InboundClosed)]))
  {
    hide Reaches;
    var none: seq<Task> := [];
    var s0 := Chan(StartClose, true, C.StartClose, none);
    var s1 := Chan(StartClose, true, C.InboundClosed, none + [StateChange(0)]);
    var s2 := Chan(StartClose, true, C.InboundClosed, none + [ReadChannel]);
    steps := Started();
    steps := Event(steps, s0, ConnMoves(0, C.InboundClosed, true), s1);
    steps := RunLast(steps, s1, none, StateChange(0), s2);
    steps := Scanned(steps, C.InboundClosed, none);
    assert none + AfterScan(StartClose, C.InboundClosed) == [Update(StartClose, InboundClosed)];
  }

  /** A channel that goes back: its one connection becomes inbound-closed after Close and the
      channel follows it, so a second Close moves the channel to the start of closing again. */
  lemma CloseGoesBack() returns (steps: seq<Step>, s: State)
    ensures Reaches(Init(), steps, s) && s.state == InboundClosed
    ensures Apply(s, Close).state == StartClose
  {
    hide Reaches;
    var none: seq<Task>, move := [], Update(StartClose, InboundClosed);
    s := Chan(InboundClosed, true, C.InboundClosed, none);
    steps := AboutToMove();
    assert none + [move] == [move];
    steps := RunLast(steps, Chan(StartClose, true, C.InboundClosed, none + [move]), none, move, s);
  }

  // Before it does, the connection closes, and another thread is about to close the channel.
  lemma BothAboutToMove() returns (steps: seq<Step>)
    ensures Reaches(Init(), steps,
      Chan(StartClose, false, C.Closed, [Update(StartClose, InboundClosed)] + [Update(StartClose, Closed)]))
  {
    hide Reaches;
    var rest, lock := [Update(StartClose, InboundClosed)], LockConns(StartClose);
    var look, close := Scan(StartClose, {}, C.Closed), Update(StartClose, Closed);
    var s0 := Chan(StartClose, true, C.InboundClosed, rest);
    var s1 := Chan(StartClose, true, C.Closed, rest + [StateChange(0)]);
    var s2 := Chan(StartClose, true, C.Closed, rest + [RemoveConn(0)]);
    var s3 := Chan(StartClose, false, C.Closed, rest + [ReadChannel]);
    var s4, s5 := Chan(StartClose, false, C.Closed, rest + [lock]), Chan(StartClose, false, C.Closed, rest + [look]);
    steps := AboutToMove();
    steps := Event(steps, s0, ConnMoves(0, C.Closed, true), s1);
    steps := RunLast(steps, s1, rest, StateChange(0), s2);
    steps := RunLast(steps, s2, rest, RemoveConn(0), s3);
    steps := RunLast(steps, s3, rest, ReadChannel, s4);
    steps := RunLast(steps, s4, rest, lock, s5);
    steps := RunLast(steps, s5, rest, look, Chan(StartClose, false, C.Closed, rest + [close]));
  }

  /** A channel that is stuck: its one connection has closed and been removed and nothing is
      left to be done, and the channel is still inbound-closed, because the update to closed
      was lost. */
  lemma LosingKeepsOpen() returns (steps: seq<Step>, s: State)
    ensures Reaches(Init(), steps, s) && s.tasks == []
    ensures s.state == InboundClosed && s.conns == {}
  {
    hide Reaches;
    var none: seq<Task> := [];
    var move, close := Update(StartClose, InboundClosed), Update(StartClose, Closed);
    var s0 := Chan(StartClose, false, C.Closed, [move] + [close]);
    var s1 := Chan(InboundClosed, false, C.Closed, none + [close]);
    s := Chan(InboundClosed, false, C.Closed, none);
    steps := BothAboutToMove();
    steps := RunFirst(steps, s0, move, [close], s1);
    steps := RunLast(steps, s1, none, close, s);
  }
}
