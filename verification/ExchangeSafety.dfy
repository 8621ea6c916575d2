/** The life of an exchange: added once, active, perhaps expired, removed once, and
    notified at most once. */
module ExchangeSafety {
  import opened Bags
  import opened CloseMachine
  import opened ConnectionModel

  // ---------- what is counted ----------

  // Our own IDs handed out so far.
  predicate Used(s: State, m: MexId) {
    m.id <= s.nextID
  }

  // Added and then removed from both sets.
  predicate Gone(s: State, m: MexId) {
    m in s.mexes && m !in s.active && m !in s.expired
  }

  predicate Leaving(s: State, m: MexId) {
    m in s.mexes && (s.mexes[m].ping || s.mexes[m].down)
  }

  predicate Claimed(s: State, m: MexId) {
    m in s.mexes && s.mexes[m].claimed
  }

  function NotesOf(s: State, m: MexId): (n: nat) {
    if m in s.mexes then s.mexes[m].notes else 0
  }

  function Adds(m: MexId): (w: Task -> nat) {
    (t: Task) => One(AddsMex(t, m))
  }

  predicate AddsMex(t: Task, m: MexId) {
    match t
    case OutAdd(id) => m == MexId(Outbound, id)
    case PingAdd(id) => m == MexId(Outbound, id)
    case _ => false
  }

  function Moves(m: MexId): (w: Task -> nat) {
    (t: Task) => One(MovesMex(t, m))
  }

  predicate MovesMex(t: Task, m: MexId) {
    match t
    case PingWait(id) => m == MexId(Outbound, id)
    case ShutdownClaim(x) => m == x
    case Remove(x) => m == x
    case _ => false
  }

  function Notes(m: MexId): (w: Task -> nat) {
    (t: Task) => One(t == Notify(m))
  }

  function Visits(m: MexId): (w: Task -> nat) {
    (t: Task) => One(t.StopLoop? && m in t.left)
  }

  // ---------- the invariant ----------

  // An ID of ours is on its way to its exchange, or has one; inbound IDs are the peer's.
  predicate AddedOnce(s: State, m: MexId) {
    m.side == Outbound ==> Sum(s.tasks, Adds(m)) + One(m in s.mexes) <= One(Used(s, m))
  }

  predicate RemovedOnce(s: State, m: MexId) {
    Sum(s.tasks, Moves(m)) + One(Gone(s, m)) == One(Leaving(s, m))
  }

  predicate NotedOnce(s: State, m: MexId) {
    Sum(s.tasks, Notes(m)) + NotesOf(s, m) == One(Claimed(s, m))
  }

  // Once its set has shut down, an exchange has been notified or will be visited.
  predicate StopReaches(s: State, m: MexId) {
    m in s.active && m.side in s.shut ==> Claimed(s, m) || Sum(s.tasks, Visits(m)) > 0
  }

  // Only added exchanges are anywhere, and none is both active and expired.
  predicate Placed(s: State, m: MexId) {
    && (m in s.active ==> m in s.mexes && m !in s.expired)
    && (m in s.expired || m in s.dispatched || m in s.begun ==> m in s.mexes)
  }

  predicate Lives(s: State, m: MexId) {
    Placed(s, m) && AddedOnce(s, m) && RemovedOnce(s, m) && NotedOnce(s, m) && StopReaches(s, m)
  }

  // Threads act on calls that have been added.
  predicate TaskOnCall(s: State, t: Task) {
    match t
    case InRecheck(id) => IsCall(s, MexId(Inbound, id))
    case OutRecheck(id) => IsCall(s, MexId(Outbound, id))
    case Shutdown(m) => IsCall(s, m)
    case _ => true
  }

  predicate IsCall(s: State, m: MexId) {
    m in s.mexes && !s.mexes[m].ping
  }

  predicate TasksOnCalls(s: State, tasks: seq<Task>) {
    forall i :: 0 <= i < |tasks| ==> TaskOnCall(s, tasks[i])
  }

  ghost predicate Living(s: State) {
    && !s.doubleRemoved
    && TasksOnCalls(s, s.tasks)
    && forall m :: Lives(s, m)
  }

  // ---------- one outcome ----------

  /** Each count is settled by an outcome: `taken` is the weight of what ran. */
  predicate SettlesAdds(s: State, o: Outcome, m: MexId, taken: nat) {
    m.side == Outbound ==>
      Sum(o.work, Adds(m)) + One(m in o.s.mexes) + One(Used(s, m)) <= taken + One(m in s.mexes) + One(Used(o.s, m))
  }

  predicate SettlesMoves(s: State, o: Outcome, m: MexId, taken: nat) {
    Sum(o.work, Moves(m)) + One(Gone(o.s, m)) + One(Leaving(s, m)) == taken + One(Gone(s, m)) + One(Leaving(o.s, m))
  }

  predicate SettlesNotes(s: State, o: Outcome, m: MexId, taken: nat) {
    Sum(o.work, Notes(m)) + NotesOf(o.s, m) + One(Claimed(s, m)) == taken + NotesOf(s, m) + One(Claimed(o.s, m))
  }

  predicate SettlesVisits(s: State, o: Outcome, m: MexId, taken: nat) {
    m in o.s.active && m.side in o.s.shut ==>
      || Claimed(o.s, m)
      || Sum(o.work, Visits(m)) > 0
      || (m in s.active && m.side in s.shut && !Claimed(s, m) && taken == 0)
  }

  predicate Kept(s: State, o: Outcome, m: MexId) {
    && Placed(o.s, m)
    && (IsCall(s, m) ==> IsCall(o.s, m))
  }

  // What a thread finds when it comes to run a task.
  predicate Ready(s: State, t: Task) {
    && TaskOnCall(s, t)
    && CanDo(s, t)
    && (t.OutAdd? || t.PingAdd? ==> MexId(Outbound, t.id) !in s.mexes)
    && (t.ShutdownClaim? ==> Leaving(s, t.mex))
    && (t.Notify? ==> t.mex in s.mexes)
    && (t.Remove? ==> t.mex in s.active || t.mex in s.expired)
  }

  // The tasks of handleCallReq, beginCall and ping.
  predicate OpensExchange(t: Task) {
    t.InCheck? || t.InAdd? || t.InRecheck? || t.OutCheck? || t.OutNext? || t.OutAdd? || t.OutRecheck? ||
    t.PingNext? || t.PingAdd? || t.PingWait?
  }

  // The tasks of shutdown and removeExchange.
  predicate EndsExchange(t: Task) {
    t.Shutdown? || t.ShutdownClaim? || t.Notify? || t.Remove?
  }

  lemma OpenAdds(s: State, t: Task, ch: Choice, m: MexId)
    requires OpensExchange(t) && Ready(s, t) && Placed(s, m)
    ensures SettlesAdds(s, Do(s, t, ch), m, Adds(m)(t))
  {
    hide Sum;
    SumWork(Do(s, t, ch).work, Adds(m));
  }

  lemma EndAdds(s: State, t: Task, ch: Choice, m: MexId)
    requires EndsExchange(t) && Ready(s, t) && Placed(s, m)
    ensures SettlesAdds(s, Do(s, t, ch), m, Adds(m)(t))
  {
    hide Sum;
    SumWork(Do(s, t, ch).work, Adds(m));
  }

  lemma StopAdds(s: State, t: Task, ch: Choice, m: MexId)
    requires !OpensExchange(t) && !EndsExchange(t) && Ready(s, t) && Placed(s, m)
    ensures SettlesAdds(s, Do(s, t, ch), m, Adds(m)(t))
  {
    hide Sum, Advance;
    SumWork(Do(s, t, ch).work, Adds(m));
  }

  lemma OpenMoves(s: State, t: Task, ch: Choice, m: MexId)
    requires OpensExchange(t) && Ready(s, t) && Placed(s, m)
    ensures SettlesMoves(s, Do(s, t, ch), m, Moves(m)(t))
  {
    hide Sum;
    SumWork(Do(s, t, ch).work, Moves(m));
  }

  lemma EndMoves(s: State, t: Task, ch: Choice, m: MexId)
    requires EndsExchange(t) && Ready(s, t) && Placed(s, m)
    ensures SettlesMoves(s, Do(s, t, ch), m, Moves(m)(t))
  {
    hide Sum, DoShutdown, DoShutdownClaim, DoNotify, DoRemove;
    match t
    case Shutdown(x) => ShutdownMoves(s, x, m);
    case ShutdownClaim(x) => ClaimMoves(s, x, m);
    case Notify(x) => NotifyMoves(s, x, m);
    case Remove(x) => RemoveMoves(s, x, m);
  }

  lemma ShutdownMoves(s: State, x: MexId, m: MexId)
    requires IsCall(s, x)
    ensures SettlesMoves(s, DoShutdown(s, x), m, 0)
  {
    hide Sum;
    SumWork(DoShutdown(s, x).work, Moves(m));
  }

  lemma ClaimMoves(s: State, x: MexId, m: MexId)
    requires Leaving(s, x)
    ensures SettlesMoves(s, DoShutdownClaim(s, x), m, One(m == x))
  {
    hide Sum;
    SumWork(DoShutdownClaim(s, x).work, Moves(m));
  }

  lemma NotifyMoves(s: State, x: MexId, m: MexId)
    ensures SettlesMoves(s, DoNotify(s, x), m, 0)
  {
    hide Sum;
    SumWork(DoNotify(s, x).work, Moves(m));
  }

  lemma RemoveMoves(s: State, x: MexId, m: MexId)
    requires (x in s.active || x in s.expired) && Placed(s, m)
    ensures SettlesMoves(s, DoRemove(s, x), m, One(m == x))
  {
    hide Sum;
    SumWork(DoRemove(s, x).work, Moves(m));
  }

  lemma StopMoves(s: State, t: Task, ch: Choice, m: MexId)
    requires !OpensExchange(t) && !EndsExchange(t) && Ready(s, t) && Placed(s, m)
    ensures SettlesMoves(s, Do(s, t, ch), m, Moves(m)(t))
  {
    hide Sum, Advance;
    SumWork(Do(s, t, ch).work, Moves(m));
  }

  lemma OpenNotes(s: State, t: Task, ch: Choice, m: MexId)
    requires OpensExchange(t) && Ready(s, t) && Placed(s, m)
    ensures SettlesNotes(s, Do(s, t, ch), m, Notes(m)(t))
  {
    hide Sum;
    SumWork(Do(s, t, ch).work, Notes(m));
  }

  lemma EndNotes(s: State, t: Task, ch: Choice, m: MexId)
    requires EndsExchange(t) && Ready(s, t) && Placed(s, m)
    ensures SettlesNotes(s, Do(s, t, ch), m, Notes(m)(t))
  {
    hide Sum;
    SumWork(Do(s, t, ch).work, Notes(m));
  }

  lemma StopNotes(s: State, t: Task, ch: Choice, m: MexId)
    requires !OpensExchange(t) && !EndsExchange(t) && Ready(s, t) && Placed(s, m)
    ensures SettlesNotes(s, Do(s, t, ch), m, Notes(m)(t))
  {
    hide Sum, Advance;
    SumWork(Do(s, t, ch).work, Notes(m));
  }

  lemma TaskVisits(s: State, t: Task, ch: Choice, m: MexId)
    requires Ready(s, t) && Placed(s, m)
    ensures SettlesVisits(s, Do(s, t, ch), m, Visits(m)(t))
  {
    hide Sum, Advance;
    SumWork(Do(s, t, ch).work, Visits(m));
  }

  lemma TaskKeeps(s: State, t: Task, ch: Choice, m: MexId)
    requires Ready(s, t) && Placed(s, m)
    ensures Kept(s, Do(s, t, ch), m)
  {
    hide Advance;
  }

  lemma TaskLeaves(s: State, t: Task, ch: Choice)
    requires Ready(s, t)
    ensures TasksOnCalls(Do(s, t, ch).s, Do(s, t, ch).work)
    ensures Do(s, t, ch).s.doubleRemoved == s.doubleRemoved
  {
    hide Advance;
  }

  lemma EventSettles(s: State, st: Step, m: MexId)
    requires Enabled(s, st) && !st.Run?
    requires Placed(s, m)
    ensures SettlesAdds(s, Perform(s, st), m, 0) && SettlesMoves(s, Perform(s, st), m, 0)
    ensures Kept(s, Perform(s, st), m)
  {
    hide Sum;
    SumWork(Perform(s, st).work, Adds(m));
    SumWork(Perform(s, st).work, Moves(m));
  }

  lemma EventNotifies(s: State, st: Step, m: MexId)
    requires Enabled(s, st) && !st.Run?
    requires Placed(s, m)
    ensures SettlesNotes(s, Perform(s, st), m, 0) && SettlesVisits(s, Perform(s, st), m, 0)
  {
    hide Sum;
    SumWork(Perform(s, st).work, Notes(m));
    SumWork(Perform(s, st).work, Visits(m));
  }

  lemma EventLeaves(s: State, st: Step)
    requires Enabled(s, st) && !st.Run?
    ensures TasksOnCalls(Perform(s, st).s, Perform(s, st).work)
    ensures Perform(s, st).s.doubleRemoved == s.doubleRemoved
  {
  }

  // ---------- every step, every run ----------

  lemma ReadyAt(s: State, i: nat)
    requires Living(s) && i < |s.tasks| && CanDo(s, s.tasks[i])
    ensures Ready(s, s.tasks[i])
  {
    hide Sum;
    var t := s.tasks[i];
    assert TaskOnCall(s, t);
    if t.OutAdd? || t.PingAdd? {
      var m := MexId(Outbound, t.id);
      assert Lives(s, m);
      SumAtLeast(s.tasks, i, Adds(m));
    } else if t.ShutdownClaim? || t.Remove? {
      assert Lives(s, t.mex);
      SumAtLeast(s.tasks, i, Moves(t.mex));
    } else if t.Notify? {
      assert Lives(s, t.mex);
      SumAtLeast(s.tasks, i, Notes(t.mex));
    }
  }

  predicate Settles(s: State, st: Step, o: Outcome, m: MexId)
    requires Enabled(s, st)
  {
    && SettlesAdds(s, o, m, Taken(s, st, Adds(m)))
    && SettlesMoves(s, o, m, Taken(s, st, Moves(m)))
    && SettlesNotes(s, o, m, Taken(s, st, Notes(m)))
    && SettlesVisits(s, o, m, Taken(s, st, Visits(m)))
    && Kept(s, o, m)
  }

  lemma StepSettles(s: State, st: Step, m: MexId)
    requires Living(s) && Enabled(s, st)
    ensures Settles(s, st, Perform(s, st), m)
  {
    assert Lives(s, m);
    hide Living, Sum, Do, Ready, SettlesAdds, SettlesMoves, SettlesNotes, SettlesVisits, Kept, AddedOnce, RemovedOnce,
      NotedOnce, StopReaches;
    if st.Run? {
      var t := s.tasks[st.i];
      ReadyAt(s, st.i);
      if OpensExchange(t) {
        OpenAdds(s, t, st.choice, m);
        OpenMoves(s, t, st.choice, m);
        OpenNotes(s, t, st.choice, m);
      } else if EndsExchange(t) {
        EndAdds(s, t, st.choice, m);
        EndMoves(s, t, st.choice, m);
        EndNotes(s, t, st.choice, m);
      } else {
        StopAdds(s, t, st.choice, m);
        StopMoves(s, t, st.choice, m);
        StopNotes(s, t, st.choice, m);
      }
      TaskVisits(s, t, st.choice, m);
      TaskKeeps(s, t, st.choice, m);
    } else {
      EventSettles(s, st, m);
      EventNotifies(s, st, m);
    }
  }

  lemma AddsStep(s: State, st: Step, m: MexId)
    requires Enabled(s, st) && AddedOnce(s, m) && SettlesAdds(s, Perform(s, st), m, Taken(s, st, Adds(m)))
    ensures AddedOnce(Apply(s, st), m)
  {
    hide Sum, Perform, Others, Taken;
    SumStep(s, st, Adds(m));
  }

  lemma MovesStep(s: State, st: Step, m: MexId)
    requires Enabled(s, st) && RemovedOnce(s, m) && SettlesMoves(s, Perform(s, st), m, Taken(s, st, Moves(m)))
    ensures RemovedOnce(Apply(s, st), m)
  {
    hide Sum, Perform, Others, Taken;
    SumStep(s, st, Moves(m));
  }

  lemma NotesStep(s: State, st: Step, m: MexId)
    requires Enabled(s, st) && NotedOnce(s, m) && SettlesNotes(s, Perform(s, st), m, Taken(s, st, Notes(m)))
    ensures NotedOnce(Apply(s, st), m)
  {
    hide Sum, Perform, Others, Taken;
    SumStep(s, st, Notes(m));
  }

  lemma VisitsStep(s: State, st: Step, m: MexId)
    requires Enabled(s, st) && StopReaches(s, m) && SettlesVisits(s, Perform(s, st), m, Taken(s, st, Visits(m)))
    ensures StopReaches(Apply(s, st), m)
  {
    hide Sum, Perform, Others, Taken;
    SumStep(s, st, Visits(m));
  }

  lemma LivesStep(s: State, st: Step, m: MexId)
    requires Living(s) && Enabled(s, st)
    ensures Lives(Apply(s, st), m) && (IsCall(s, m) ==> IsCall(Apply(s, st), m))
  {
    assert Lives(s, m);
    hide Living, Perform, Others, SettlesAdds, SettlesMoves, SettlesNotes, SettlesVisits, AddedOnce, RemovedOnce,
      NotedOnce, StopReaches;
    StepSettles(s, st, m);
    AddsStep(s, st, m);
    MovesStep(s, st, m);
    NotesStep(s, st, m);
    VisitsStep(s, st, m);
  }

  lemma LeavesStep(s: State, st: Step)
    requires Living(s) && Enabled(s, st)
    ensures TasksOnCalls(Perform(s, st).s, Perform(s, st).work)
    ensures !Perform(s, st).s.doubleRemoved
  {
    assert !s.doubleRemoved;
    hide Living, Do, Ready;
    if st.Run? {
      ReadyAt(s, st.i);
      TaskLeaves(s, s.tasks[st.i], st.choice);
    } else {
      EventLeaves(s, st);
    }
  }

  lemma LivingStep(s: State, st: Step)
    requires Living(s) && Enabled(s, st)
    ensures Living(Apply(s, st))
  {
    hide Lives, Perform, IsCall;
    LeavesStep(s, st);
    var s', o := Apply(s, st), Perform(s, st);
    forall m
      ensures Lives(s', m) && (IsCall(s, m) ==> IsCall(s', m))
    {
      LivesStep(s, st, m);
    }
    CallsKept(s, st);
  }

  lemma CallsKept(s: State, st: Step)
    requires Enabled(s, st) && TasksOnCalls(s, s.tasks) && TasksOnCalls(Perform(s, st).s, Perform(s, st).work)
    requires forall m :: IsCall(s, m) ==> IsCall(Apply(s, st), m)
    ensures TasksOnCalls(Apply(s, st), Apply(s, st).tasks)
  {
    hide Perform;
    var s', o := Apply(s, st), Perform(s, st);
    forall i | 0 <= i < |s'.tasks|
      ensures TaskOnCall(s', s'.tasks[i])
    {
      if i < |Others(s, st)| {
        var j := if st.Run? && i >= st.i then i + 1 else i;
        assert s'.tasks[i] == s.tasks[j];
        assert TaskOnCall(s, s.tasks[j]);
      } else {
        assert TaskOnCall(o.s, o.work[i - |Others(s, st)|]);
      }
    }
  }

  lemma LivingInit()
    ensures Living(Init())
  {
    var s := Init();
    forall m
      ensures Lives(s, m)
    {
    }
  }

  lemma {:induction false} LivingRun(s: State, steps: seq<Step>, s': State)
    requires Living(s) && Reaches(s, steps, s')
    ensures Living(s')
    decreases |steps|
  {
    hide Living, Apply;
    if steps == [] {
    } else {
      LivingStep(s, steps[0]);
      LivingRun(Apply(s, steps[0]), steps[1..], s');
    }
  }

  lemma Reachable(steps: seq<Step>, s: State)
    requires Reaches(Init(), steps, s)
    ensures Living(s)
  {
    hide Living, Reaches, Init;
    LivingInit();
    LivingRun(Init(), steps, s);
  }

  // ---------- what it means ----------

  // 0: not added yet, 1: active, 2: expired, 3: removed
  function Stage(s: State, m: MexId): (n: nat) {
    if m !in s.mexes then 0 else if m in s.active then 1 else if m in s.expired then 2 else 3
  }

  predicate StageKept(s: State, s': State, m: MexId) {
    && Stage(s, m) <= Stage(s', m)
    && (m.side in s.shut ==> m.side in s'.shut && (m in s'.active ==> m in s.active))
  }

  lemma OpenStage(s: State, t: Task, ch: Choice, m: MexId)
    requires OpensExchange(t) && Ready(s, t) && Placed(s, m)
    ensures StageKept(s, Do(s, t, ch).s, m)
  {
  }

  lemma CloseStage(s: State, t: Task, ch: Choice, m: MexId)
    requires !OpensExchange(t) && Ready(s, t) && Placed(s, m)
    ensures StageKept(s, Do(s, t, ch).s, m)
  {
    hide Advance, Leaving, TaskOnCall, On, DoShutdown, DoRemove;
    if t.Shutdown? {
      ShutdownStage(s, t.mex, m);
    } else if t.Remove? {
      RemoveStage(s, t.mex, m);
    }
  }

  lemma ShutdownStage(s: State, x: MexId, m: MexId)
    ensures StageKept(s, DoShutdown(s, x).s, m)
  {
  }

  lemma RemoveStage(s: State, x: MexId, m: MexId)
    requires Placed(s, m)
    ensures StageKept(s, DoRemove(s, x).s, m)
  {
  }

  lemma EventStage(s: State, st: Step, m: MexId)
    requires Enabled(s, st) && !st.Run? && Placed(s, m)
    ensures StageKept(s, Perform(s, st).s, m)
  {
  }

  lemma StageStep(s: State, st: Step, m: MexId)
    requires Living(s) && Enabled(s, st)
    ensures StageKept(s, Apply(s, st), m)
  {
    assert Lives(s, m);
    hide Living, Do, Ready, AddedOnce, RemovedOnce, NotedOnce, StopReaches;
    if !st.Run? {
      EventStage(s, st, m);
    } else {
      ReadyAt(s, st.i);
      if OpensExchange(s.tasks[st.i]) {
        OpenStage(s, s.tasks[st.i], st.choice, m);
      } else {
        CloseStage(s, s.tasks[st.i], st.choice, m);
      }
    }
  }

  lemma {:induction false} StageRun(s: State, steps: seq<Step>, s': State, m: MexId)
    requires Living(s) && Reaches(s, steps, s')
    ensures Stage(s, m) <= Stage(s', m)
    ensures m in s'.active && m.side in s.shut ==> m in s.active
    decreases |steps|
  {
    hide Living, Apply, Stage;
    if steps == [] {
    } else {
      StageStep(s, steps[0], m);
      LivingStep(s, steps[0]);
      StageRun(Apply(s, steps[0]), steps[1..], s', m);
    }
  }

  /** In every run an exchange only moves from active to removed, directly or by way of
      expired, and nothing is added to a set that has shut down. */
  lemma OnlyForward(before: seq<Step>, s: State, after: seq<Step>, s': State, m: MexId)
    requires Reaches(Init(), before, s) && Reaches(s, after, s')
    ensures Stage(s, m) <= Stage(s', m)
    ensures m in s'.active && m.side in s.shut ==> m in s.active
  {
    hide Living, Reaches, Init, Stage;
    Reachable(before, s);
    StageRun(s, after, s', m);
  }

  /** In every run, for every exchange: it is not both active and expired, the branch
      for removing an exchange multiple times is never taken, it is notified at most
      once, and once stopExchanges has shut its set and gone through the copy it took,
      every exchange still active there has been notified exactly once. */
  lemma LifeCycle(steps: seq<Step>, s: State, m: MexId)
    requires Reaches(Init(), steps, s)
    ensures !(m in s.active && m in s.expired) && !s.doubleRemoved
    ensures NotesOf(s, m) <= 1
    ensures m in s.active && m.side in s.shut && Sum(s.tasks, Visits(m)) == 0 && Sum(s.tasks, Notes(m)) == 0 ==>
      NotesOf(s, m) == 1
  {
    hide Reaches, Init;
    Reachable(steps, s);
    assert Lives(s, m);
  }
}
