/** Frames through one exchange: a bounded queue, any number of forwarding and receiving
    goroutines, and selects that pick any ready case (mex.go:116-191). */
module ExchangeDelivery {
  import opened Bags

  datatype Frame = Frame(id: nat, body: seq<int>)

  datatype Error = ContextError | ExchangeError | UnexpectedFrame

  /** An error returned to a caller, with the length of the queue at that moment. */
  datatype Report = ForwardFailed(frame: Frame, err: Error, queued: nat) | ReceiveFailed(err: Error, queued: nat)

  datatype Task =
    | Forward(frame: Frame)
    | ForwardSelect(frame: Frame)
    | ForwardRetry(frame: Frame)
    | Receive
    | ReceiveSelect
    | ReceiveRetry

  /** `started` are the frames forwardPeerFrame was called with and `receives` counts the
      calls of recvPeerFrame; `accepted` and `received` are every frame the one put on the
      queue and every frame the other took off it, in order. */
  datatype State = State(msgID: nat, capacity: nat, queue: seq<Frame>, ctxDone: bool, notified: bool, tasks: seq<Task>,
                         started: seq<Frame>, receives: nat,
                         accepted: seq<Frame>, received: seq<Frame>, reports: seq<Report>)

  function Init(msgID: nat, capacity: nat): (s: State) {
    State(msgID, capacity, [], false, false, [], [], 0, [], [], [])
  }

  // The case a select takes.
  datatype Case = QueueCase | ContextCase | ErrorCase

  datatype Outcome = Outcome(s: State, work: seq<Task>)

  function Fail(s: State, r: Report): (o: Outcome) {
    Outcome(s.(reports := s.reports + [r]), [])
  }

  function Enqueue(s: State, f: Frame): (o: Outcome) {
    Outcome(s.(queue := s.queue + [f], accepted := s.accepted + [f]), [])
  }

  // A frame taken off the queue is checked against the exchange's ID.
  function Dequeue(s: State): (o: Outcome)
    requires s.queue != []
  {
    var f, s1 := s.queue[0], s.(queue := s.queue[1..], received := s.received + [s.queue[0]]);
    if f.id != s.msgID then Fail(s1, ReceiveFailed(UnexpectedFrame, |s1.queue|)) else Outcome(s1, [])
  }

  function Do(s: State, t: Task, c: Case): (o: Outcome)
    requires Ready(s, t, c)
  {
    match t
    case Forward(f) =>
      if s.ctxDone then Fail(s, ForwardFailed(f, ContextError, |s.queue|)) else Outcome(s, [ForwardSelect(f)])
    case ForwardSelect(f) =>
      (match c
       case QueueCase => Enqueue(s, f)
       case ContextCase => Fail(s, ForwardFailed(f, ContextError, |s.queue|))
       case ErrorCase => Outcome(s, [ForwardRetry(f)]))
    case ForwardRetry(f) =>
      if |s.queue| < s.capacity then Enqueue(s, f) else Fail(s, ForwardFailed(f, ExchangeError, |s.queue|))
    case Receive => if s.ctxDone then Fail(s, ReceiveFailed(ContextError, |s.queue|)) else Outcome(s, [ReceiveSelect])
    case ReceiveSelect =>
      (match c
       case QueueCase => Dequeue(s)
       case ContextCase => Fail(s, ReceiveFailed(ContextError, |s.queue|))
       case ErrorCase => Outcome(s, [ReceiveRetry]))
    case ReceiveRetry => if s.queue != [] then Dequeue(s) else Fail(s, ReceiveFailed(ExchangeError, |s.queue|))
  }

  // A select proceeds only with a case that is ready.
  predicate Ready(s: State, t: Task, c: Case) {
    match t
    case ForwardSelect(_) => CaseReady(s, c, |s.queue| < s.capacity)
    case ReceiveSelect => CaseReady(s, c, s.queue != [])
    case _ => true
  }

  predicate CaseReady(s: State, c: Case, queue: bool) {
    match c case QueueCase => queue case ContextCase => s.ctxDone case ErrorCase => s.notified
  }

  /** Frames reach an exchange by looking up their ID. */
  datatype Step =
    | StartForward(frame: Frame)
    | StartReceive
    | FinishContext
    | NotifyError
    | Run(i: nat, choice: Case)

  predicate Enabled(s: State, st: Step) {
    match st
    case StartForward(f) => f.id == s.msgID
    case Run(i, c) => i < |s.tasks| && Ready(s, s.tasks[i], c)
    case _ => true
  }

  function Apply(s: State, st: Step): (s': State)
    requires Enabled(s, st)
  {
    match st
    case StartForward(f) => s.(started := s.started + [f], tasks := s.tasks + [Forward(f)])
    case StartReceive => s.(receives := s.receives + 1, tasks := s.tasks + [Receive])
    case FinishContext => s.(ctxDone := true)
    case NotifyError => s.(notified := true)
    case Run(i, c) =>
      var o := Do(s, s.tasks[i], c);
      o.s.(tasks := Without(s.tasks, i) + o.work)
  }

  predicate Reaches(s: State, steps: seq<Step>, s': State)
    decreases |steps|
  {
    if steps == [] then s == s'
    else Enabled(s, steps[0]) && Reaches(Apply(s, steps[0]), steps[1..], s')
  }

  // ---------- the invariant ----------

  predicate Forwards(t: Task) {
    t.Forward? || t.ForwardSelect? || t.ForwardRetry?
  }

  // A retry follows the case of an error.
  predicate TaskFor(s: State, t: Task) {
    && (Forwards(t) ==> t.frame.id == s.msgID)
    && (t.ForwardRetry? || t.ReceiveRetry? ==> s.notified)
  }

  // Context errors come only once the context is done, exchange errors only once there is one
  // and when the queue could not help, and frames are never misrouted.
  predicate Honest(s: State, r: Report) {
    && r.err != UnexpectedFrame
    && (r.err == ContextError ==> s.ctxDone)
    && (r.err == ExchangeError ==> s.notified && r.queued == if r.ForwardFailed? then s.capacity else 0)
  }

  predicate Delivering(s: State) {
    && s.accepted == s.received + s.queue
    && |s.queue| <= s.capacity
    && (forall i :: 0 <= i < |s.queue| ==> s.queue[i].id == s.msgID)
    && (forall i :: 0 <= i < |s.tasks| ==> TaskFor(s, s.tasks[i]))
    && (forall i :: 0 <= i < |s.reports| ==> Honest(s, s.reports[i]))
  }

  lemma DequeueDelivers(s: State)
    requires Delivering(s) && s.queue != []
    ensures Delivering(Dequeue(s).s) && Dequeue(s).work == []
  {
    assert s.queue == [s.queue[0]] + s.queue[1..];
    assert s.received + s.queue == s.received + [s.queue[0]] + s.queue[1..];
  }

  lemma DoDelivers(s: State, t: Task, c: Case)
    requires Delivering(s) && Ready(s, t, c) && TaskFor(s, t)
    ensures Delivering(Do(s, t, c).s) && Do(s, t, c).s.tasks == s.tasks
    ensures Do(s, t, c).s.msgID == s.msgID && Do(s, t, c).s.notified == s.notified
    ensures forall i :: 0 <= i < |Do(s, t, c).work| ==> TaskFor(s, Do(s, t, c).work[i])
  {
    if s.queue != [] {
      DequeueDelivers(s);
    }
    if t.ForwardSelect? || t.ForwardRetry? {
      assert s.received + s.queue + [t.frame] == s.received + (s.queue + [t.frame]);
    }
  }

  lemma DeliveringStep(s: State, st: Step)
    requires Delivering(s) && Enabled(s, st)
    ensures Delivering(Apply(s, st))
  {
    hide Do;
    if st.Run? {
      DoDelivers(s, s.tasks[st.i], st.choice);
    }
  }

  // ---------- every call is accounted for ----------

  function IsFrame(f: Frame): (w: Frame -> nat) {
    (g: Frame) => One(g == f)
  }

  function FailedFor(f: Frame): (w: Report -> nat) {
    (r: Report) => One(r.ForwardFailed? && r.frame == f)
  }

  function Carries(f: Frame): (w: Task -> nat) {
    (t: Task) => One(Forwards(t) && t.frame == f)
  }

  function FailedReceive(): (w: Report -> nat) {
    (r: Report) => One(r.ReceiveFailed? && r.err != UnexpectedFrame)
  }

  function Receives(): (w: Task -> nat) {
    (t: Task) => One(!Forwards(t))
  }

  // Every forward of a frame was accepted, has failed, or is still going on.
  predicate ForwardsCounted(s: State, f: Frame) {
    Sum(s.started, IsFrame(f)) == Sum(s.accepted, IsFrame(f)) + Sum(s.reports, FailedFor(f)) + Sum(s.tasks, Carries(f))
  }

  // So is every receive.
  predicate ReceivesCounted(s: State) {
    s.receives == |s.received| + Sum(s.reports, FailedReceive()) + Sum(s.tasks, Receives())
  }

  ghost predicate Counted(s: State) {
    (forall f :: ForwardsCounted(s, f)) && ReceivesCounted(s)
  }

  // What a task leaves: the frame accepted, a failure, or the rest of the call.
  lemma DoCounts(s: State, t: Task, c: Case, f: Frame)
    requires Ready(s, t, c)
    ensures var o := Do(s, t, c);
      && o.s.started == s.started && o.s.receives == s.receives
      && Sum(o.s.accepted, IsFrame(f)) + Sum(o.s.reports, FailedFor(f)) + Sum(o.work, Carries(f)) ==
         Sum(s.accepted, IsFrame(f)) + Sum(s.reports, FailedFor(f)) + Carries(f)(t)
      && |o.s.received| + Sum(o.s.reports, FailedReceive()) + Sum(o.work, Receives()) ==
         |s.received| + Sum(s.reports, FailedReceive()) + Receives()(t)
  {
    hide Sum;
    var o := Do(s, t, c);
    SumWork(o.work, Carries(f));
    SumWork(o.work, Receives());
    if |o.s.accepted| > |s.accepted| {
      OneMoreIn(s.accepted, o.s.accepted[|s.accepted|], IsFrame(f));
    }
    if |o.s.reports| > |s.reports| {
      OneMoreIn(s.reports, o.s.reports[|s.reports|], FailedFor(f));
      OneMoreIn(s.reports, o.s.reports[|s.reports|], FailedReceive());
    }
  }

  lemma OneMoreIn<T(!new)>(xs: seq<T>, x: T, w: T -> nat)
    ensures Sum(xs + [x], w) == Sum(xs, w) + w(x)
  {
    SumConcat(xs, [x], w);
    SumOne(x, w);
  }

  lemma CountedStep(s: State, st: Step)
    requires Counted(s) && Enabled(s, st)
    ensures Counted(Apply(s, st))
  {
    var s' := Apply(s, st);
    forall f
      ensures ForwardsCounted(s', f) && ReceivesCounted(s')
    {
      assert ForwardsCounted(s, f);
      CountedOne(s, st, f);
    }
    assert ForwardsCounted(s, Frame(0, []));
    CountedOne(s, st, Frame(0, []));
  }

  lemma CountedOne(s: State, st: Step, f: Frame)
    requires ForwardsCounted(s, f) && ReceivesCounted(s) && Enabled(s, st)
    ensures ForwardsCounted(Apply(s, st), f) && ReceivesCounted(Apply(s, st))
  {
    hide Sum, Do, Carries, Receives;
    match st
    case StartForward(g) =>
      OneMoreIn(s.started, g, IsFrame(f));
      OneMoreIn(s.tasks, Forward(g), Carries(f));
      OneMoreIn(s.tasks, Forward(g), Receives());
      FreshTask(f, g);
    case StartReceive =>
      OneMoreIn(s.tasks, Receive, Carries(f));
      OneMoreIn(s.tasks, Receive, Receives());
      FreshTask(f, f);
    case FinishContext =>
    case NotifyError =>
    case Run(i, c) =>
      var t, o := s.tasks[i], Do(s, s.tasks[i], c);
      DoCounts(s, t, c, f);
      SumWithout(s.tasks, i, Carries(f));
      SumWithout(s.tasks, i, Receives());
      SumConcat(Without(s.tasks, i), o.work, Carries(f));
      SumConcat(Without(s.tasks, i), o.work, Receives());
  }

  lemma FreshTask(f: Frame, g: Frame)
    ensures Carries(f)(Forward(g)) == IsFrame(f)(g) && Receives()(Forward(g)) == 0
    ensures Carries(f)(Receive) == 0 && Receives()(Receive) == 1
  {
  }

  lemma {:induction false} DeliveringRun(s: State, steps: seq<Step>, s': State)
    requires Delivering(s) && Counted(s) && Reaches(s, steps, s')
    ensures Delivering(s') && Counted(s') && s'.capacity == s.capacity
    decreases |steps|
  {
    hide Counted;
    if steps == [] {
    } else {
      DeliveringStep(s, steps[0]);
      CountedStep(s, steps[0]);
      DeliveringRun(Apply(s, steps[0]), steps[1..], s');
    }
  }

  /** In every run, whatever the selects pick: the frames received are the frames
      accepted, first in first out, up to those still queued. Nobody is told of a context
      error before the context is done, or of an exchange error before there is one; a
      receiver is told of an exchange error only at a moment when no frame is queued, and a
      forwarder only when the queue is full; and no receiver ever gets a frame of another
      exchange. */
  lemma FifoDelivery(msgID: nat, capacity: nat, steps: seq<Step>, s: State)
    requires Reaches(Init(msgID, capacity), steps, s)
    ensures s.received + s.queue == s.accepted && |s.queue| <= capacity
    ensures forall r :: r in s.reports ==> r.err != UnexpectedFrame
    ensures forall r :: r in s.reports && r.err == ContextError ==> s.ctxDone
    ensures forall r :: r in s.reports && r.err == ExchangeError ==>
      s.notified && r.queued == if r.ForwardFailed? then capacity else 0
  {
    hide Reaches, Counted;
    CountedInit(msgID, capacity);
    DeliveringRun(Init(msgID, capacity), steps, s);
  }

  lemma CountedInit(msgID: nat, capacity: nat)
    ensures Counted(Init(msgID, capacity))
  {
  }

  /** In every run, no frame and no error gets lost: the forwards of each frame are as many
      as its acceptances, its failures and the calls still going on, and the receives as
      many as the frames taken, the failures and the calls still going on. */
  lemma NoneLost(msgID: nat, capacity: nat, steps: seq<Step>, s: State, f: Frame)
    requires Reaches(Init(msgID, capacity), steps, s)
    ensures Sum(s.started, IsFrame(f)) ==
      Sum(s.accepted, IsFrame(f)) + Sum(s.reports, FailedFor(f)) + Sum(s.tasks, Carries(f))
    ensures s.receives == |s.received| + Sum(s.reports, FailedReceive()) + Sum(s.tasks, Receives())
  {
    hide Reaches, Delivering;
    CountedInit(msgID, capacity);
    DeliveringInit(msgID, capacity);
    DeliveringRun(Init(msgID, capacity), steps, s);
    assert ForwardsCounted(s, f);
  }

  lemma DeliveringInit(msgID: nat, capacity: nat)
    ensures Delivering(Init(msgID, capacity))
  {
  }

  // ---------- a call that runs alone ----------

  /** The last task runs to its end with nothing else in between, its selects taking these
      cases. */
  predicate Alone(s: State, cases: seq<Case>, s': State)
    requires s.tasks != []
    decreases |cases|
  {
    && cases != [] && Enabled(s, Run(|s.tasks| - 1, cases[0]))
    && var s1 := Apply(s, Run(|s.tasks| - 1, cases[0]));
    if |s1.tasks| < |s.tasks| then |cases| == 1 && s1 == s'
    else s1.tasks != [] && Alone(s1, cases[1..], s')
  }

  function Accepts(s: State, f: Frame): (s': State) {
    s.(started := s.started + [f], queue := s.queue + [f], accepted := s.accepted + [f])
  }

  function Refuses(s: State, f: Frame, e: Error): (s': State) {
    s.(started := s.started + [f], reports := s.reports + [ForwardFailed(f, e, |s.queue|)])
  }

  lemma RetryAlone(s: State, ts: seq<Task>, f: Frame, cases: seq<Case>, s': State)
    requires s.tasks == ts + [ForwardRetry(f)] && Alone(s, cases, s')
    ensures s' == (if |s.queue| < s.capacity then Enqueue(s, f)
                   else Fail(s, ForwardFailed(f, ExchangeError, |s.queue|))).s.(tasks := ts)
  {
    LastGone(ts, ForwardRetry(f));
  }

  lemma SelectAlone(s: State, ts: seq<Task>, f: Frame, cases: seq<Case>, s': State)
    requires s.tasks == ts + [ForwardSelect(f)] && Alone(s, cases, s') && !s.ctxDone
    ensures s' == (if |s.queue| < s.capacity then Enqueue(s, f)
                   else Fail(s, ForwardFailed(f, ExchangeError, |s.queue|))).s.(tasks := ts)
    ensures |s.queue| < s.capacity || s.notified
  {
    LastGone(ts, ForwardSelect(f));
    if cases[0] == ErrorCase {
      var s1 := s.(tasks := ts + [ForwardRetry(f)]);
      assert Apply(s, Run(|ts|, ErrorCase)) == s1;
      RetryAlone(s1, ts, f, cases[1..], s');
    }
  }

  /** What a forward does when nothing interferes: a context error first, then room in the
      queue, then an exchange error; with none of these it waits. */
  lemma ForwardAlone(s: State, f: Frame, cases: seq<Case>, s': State)
    requires f.id == s.msgID && Alone(Apply(s, StartForward(f)), cases, s')
    ensures s' == if s.ctxDone then Refuses(s, f, ContextError)
                  else if |s.queue| < s.capacity then Accepts(s, f)
                  else Refuses(s, f, ExchangeError)
    ensures s.ctxDone || |s.queue| < s.capacity || s.notified
  {
    var s0 := Apply(s, StartForward(f));
    LastGone(s.tasks, Forward(f));
    if !s.ctxDone {
      var s1 := s0.(tasks := s.tasks + [ForwardSelect(f)]);
      assert Apply(s0, Run(|s.tasks|, cases[0])) == s1;
      SelectAlone(s1, s.tasks, f, cases[1..], s');
    }
  }

  lemma LastGone(ts: seq<Task>, t: Task)
    ensures Without(ts + [t], |ts|) == ts && ts + [] == ts
  {
  }

  function Takes(s: State): (s': State)
    requires s.queue != []
  {
    s.(receives := s.receives + 1, queue := s.queue[1..], received := s.received + [s.queue[0]])
  }

  function Misses(s: State, e: Error): (s': State) {
    s.(receives := s.receives + 1, reports := s.reports + [ReceiveFailed(e, |s.queue|)])
  }

  lemma ReceiveRetryAlone(s: State, ts: seq<Task>, cases: seq<Case>, s': State)
    requires s.tasks == ts + [ReceiveRetry] && Alone(s, cases, s')
    ensures s' == (if s.queue != [] then Dequeue(s) else Fail(s, ReceiveFailed(ExchangeError, 0))).s.(tasks := ts)
  {
    LastGone(ts, ReceiveRetry);
  }

  lemma ReceiveSelectAlone(s: State, ts: seq<Task>, cases: seq<Case>, s': State)
    requires s.tasks == ts + [ReceiveSelect] && Alone(s, cases, s') && !s.ctxDone
    ensures s' == (if s.queue != [] then Dequeue(s) else Fail(s, ReceiveFailed(ExchangeError, 0))).s.(tasks := ts)
    ensures s.queue != [] || s.notified
  {
    LastGone(ts, ReceiveSelect);
    if cases[0] == ErrorCase {
      var s1 := s.(tasks := ts + [ReceiveRetry]);
      assert Apply(s, Run(|ts|, ErrorCase)) == s1;
      ReceiveRetryAlone(s1, ts, cases[1..], s');
    }
  }

  /** What a receive does when nothing interferes: a context error first, then the frame
      that was queued first, then an exchange error; with none of these it waits. */
  lemma ReceiveAlone(s: State, cases: seq<Case>, s': State)
    requires s.queue != [] ==> s.queue[0].id == s.msgID
    requires Alone(Apply(s, StartReceive), cases, s')
    ensures s' == if s.ctxDone then Misses(s, ContextError)
                  else if s.queue != [] then Takes(s)
                  else Misses(s, ExchangeError)
    ensures s.ctxDone || s.queue != [] || s.notified
  {
    var s0 := Apply(s, StartReceive);
    LastGone(s.tasks, Receive);
    if !s.ctxDone {
      var s1 := s0.(tasks := s.tasks + [ReceiveSelect]);
      assert Apply(s0, Run(|s.tasks|, cases[0])) == s1;
      ReceiveSelectAlone(s1, s.tasks, cases[1..], s');
    }
  }

  /** And it does get there: a forward runs to its end unless it has to wait. */
  lemma ForwardEnds(s: State, f: Frame) returns (cases: seq<Case>, s': State)
    requires f.id == s.msgID && (s.ctxDone || |s.queue| < s.capacity || s.notified)
    ensures Alone(Apply(s, StartForward(f)), cases, s')
  {
    var s0 := Apply(s, StartForward(f));
    var s1, s2 := s0.(tasks := s.tasks + [ForwardSelect(f)]), s0.(tasks := s.tasks + [ForwardRetry(f)]);
    LastGone(s.tasks, Forward(f));
    LastGone(s.tasks, ForwardSelect(f));
    LastGone(s.tasks, ForwardRetry(f));
    if s.ctxDone {
      cases, s' := [QueueCase], Refuses(s, f, ContextError);
    } else if |s.queue| < s.capacity {
      s' := Accepts(s, f);
      assert Alone(s1, [QueueCase], s');
      cases := [QueueCase] + [QueueCase];
      assert cases[1..] == [QueueCase];
    } else {
      s' := Refuses(s, f, ExchangeError);
      assert Alone(s2, [QueueCase], s');
      var last := [ErrorCase] + [QueueCase];
      assert last[1..] == [QueueCase];
      assert Alone(s1, last, s');
      cases := [QueueCase] + last;
      assert cases[1..] == last;
    }
  }

  lemma ReceiveEnds(s: State) returns (cases: seq<Case>, s': State)
    requires s.queue != [] ==> s.queue[0].id == s.msgID
    requires s.ctxDone || s.queue != [] || s.notified
    ensures Alone(Apply(s, StartReceive), cases, s')
  {
    var s0 := Apply(s, StartReceive);
    var s1, s2 := s0.(tasks := s.tasks + [ReceiveSelect]), s0.(tasks := s.tasks + [ReceiveRetry]);
    LastGone(s.tasks, Receive);
    LastGone(s.tasks, ReceiveSelect);
    LastGone(s.tasks, ReceiveRetry);
    if s.ctxDone {
      cases, s' := [QueueCase], Misses(s, ContextError);
    } else if s.queue != [] {
      s' := Takes(s);
      assert Alone(s1, [QueueCase], s');
      cases := [QueueCase] + [QueueCase];
      assert cases[1..] == [QueueCase];
    } else {
      s' := Misses(s, ExchangeError);
      assert Alone(s2, [QueueCase], s');
      var last := [ErrorCase] + [QueueCase];
      assert last[1..] == [QueueCase];
      assert Alone(s1, last, s');
      cases := [QueueCase] + last;
      assert cases[1..] == last;
    }
  }
}
