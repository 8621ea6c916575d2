/** Frames do arrive: what relaying one frame does when nothing interferes, and a whole call
    from its request to its end (relay.go:425-674). */
module RelayDelivery {
  import opened Bags
  import opened CloseMachine
  import opened RelayTimers
  import opened RelayModel
  import S = RelayTimerSafety

  // ---------- single steps ----------

  predicate Goes(s: State, st: Step, s': State) {
    Enabled(s, st) && Apply(s, st) == s'
  }

  lemma Then(s: State, st: Step, s1: State, steps: seq<Step>, s': State)
    requires Goes(s, st, s1) && Reaches(s1, steps, s')
    ensures Reaches(s, [st] + steps, s')
  {
    assert ([st] + steps)[1..] == steps;
  }

  lemma NoSteps(s: State)
    ensures Reaches(s, [], s)
  {
  }

  lemma {:induction false} Joined(s: State, a: seq<Step>, s1: State, b: seq<Step>, s': State)
    requires Reaches(s, a, s1) && Reaches(s1, b, s')
    ensures Reaches(s, a + b, s')
    decreases |a|
  {
    hide Apply, Enabled;
    if a == [] {
      assert a + b == b;
    } else {
      Joined(Apply(s, a[0]), a[1..], s1, b, s');
      assert (a + b)[1..] == a[1..] + b;
    }
  }

  // The task after the first ts takes its step, and what it leaves goes to the end.
  lemma TaskGoes(s: State, ts: seq<Task>, t: Task, after: seq<Task>, ch: Choice)
    requires s.tasks == ts + [t] + after && CanDo(s, t, ch)
    ensures Goes(s, Run(|ts|, ch), Do(s, t, ch).s.(tasks := ts + after + Do(s, t, ch).work))
  {
    hide Do, CanDo;
    assert Without(s.tasks, |ts|) == ts + after;
  }

  // ---------- one frame ----------

  function Delivers(s: State, src: Key, dst: Key): (s': State) {
    s.(log := s.log.(delivered := s.log.delivered + {(src, dst)}))
  }

  /** Whether a frame that matches the item at k gets through: neither that item nor the one
      it forwards to is missing, a tombstone, or (if the frame ends the call) out of time. */
  predicate GetsThrough(s: State, k: Key, finishes: bool) {
    && k in s.items && !TimedOut(s, k, finishes)
    && var to := Target(k, s.items[k]);
    to in s.items && !TimedOut(GetItem(s, k, finishes), to, finishes)
  }

  // Both items have been looked up, with their timers stopped if the frame ends the call.
  function LookedUp(s: State, k: Key, finishes: bool): (s': State)
    requires GetsThrough(s, k, finishes)
  {
    GetItem(GetItem(s, k, finishes), Target(k, s.items[k]), finishes)
  }

  lemma ReadGoes(s: State, k: Key, finishes: bool)
    requires GetsThrough(s, k, finishes) && (finishes ==> k.dir == Inbound)
    ensures Goes(s, ReadFrame(k, finishes),
                 GetItem(s, k, finishes).(tasks := s.tasks + [Recv(Target(k, s.items[k]), finishes, k)]))
  {
    hide GetItem, TimedOut;
    SameTasks(s, k, finishes);
  }

  lemma SameTasks(s: State, k: Key, stop: bool)
    requires k in s.items
    ensures GetItem(s, k, stop).tasks == s.tasks && GetItem(s, k, stop).items == s.items
      && GetItem(s, k, stop).log == s.log
  {
  }

  lemma RecvGoes(s: State, ts: seq<Task>, k: Key, finishes: bool, src: Key, ch: Choice)
    requires s.tasks == ts + [Recv(k, finishes, src)] && k in s.items && !TimedOut(s, k, finishes)
    ensures Goes(s, Run(|ts|, ch), GetItem(s, k, finishes).(tasks := ts + [SendCh(k, finishes, src)]))
  {
    hide GetItem, TimedOut;
    TaskGoes(s, ts, Recv(k, finishes, src), [], ch);
    assert ts + [] == ts && s.tasks == ts + [Recv(k, finishes, src)] + [];
  }

  lemma SendGoes(s: State, ts: seq<Task>, k: Key, finishes: bool, src: Key, ch: Choice)
    requires s.tasks == ts + [SendCh(k, finishes, src)] && ch.ok
    ensures Goes(s, Run(|ts|, ch),
      Delivers(s, src, k).(tasks := ts + if finishes then [Delete(k), Delete(src)] else []))
  {
    TaskGoes(s, ts, SendCh(k, finishes, src), [], ch);
    assert ts + [] == ts && s.tasks == ts + [SendCh(k, finishes, src)] + [];
  }

  // What is looked up does not depend on the tasks.
  lemma LookupSame(s: State, ts: seq<Task>, k: Key, stop: bool)
    requires k in s.items
    ensures GetItem(s.(tasks := ts), k, stop) == GetItem(s, k, stop).(tasks := ts)
    ensures TimedOut(s.(tasks := ts), k, stop) == TimedOut(s, k, stop)
  {
  }

  /** A frame that gets through is delivered, whatever the choices as long as the send buffer
      has room. One that ends the call leaves both items to be deleted. */
  lemma FrameArrives(s: State, k: Key, finishes: bool, c1: Choice, c2: Choice)
    requires GetsThrough(s, k, finishes) && (finishes ==> k.dir == Inbound) && c2.ok
    ensures var n, to := |s.tasks|, Target(k, s.items[k]);
      Reaches(s, [ReadFrame(k, finishes)] + ([Run(n, c1)] + ([Run(n, c2)] + [])),
              Delivers(LookedUp(s, k, finishes), k, to).(tasks := s.tasks + if finishes then [Delete(to), Delete(k)]
                else []))
  {
    hide Reaches, Apply, Perform, Do, Enabled, GetItem, TimedOut;
    var n, ts, to := |s.tasks|, s.tasks, Target(k, s.items[k]);
    var g1 := GetItem(s, k, finishes);
    SameTasks(s, k, finishes);
    var s1 := g1.(tasks := ts + [Recv(to, finishes, k)]);
    ReadGoes(s, k, finishes);
    LookupSame(g1, s1.tasks, to, finishes);
    RecvGoes(s1, ts, to, finishes, k, c1);
    var g2 := GetItem(g1, to, finishes);
    SameTasks(g1, to, finishes);
    var s2 := g2.(tasks := ts + [SendCh(to, finishes, k)]);
    SendGoes(s2, ts, to, finishes, k, c2);
    var s3 := Delivers(g2, k, to).(tasks := ts + if finishes then [Delete(to), Delete(k)] else []);
    NoSteps(s3);
    Then(s2, Run(n, c2), s3, [], s3);
    Then(s1, Run(n, c1), s2, [Run(n, c2)] + [], s3);
    Then(s, ReadFrame(k, finishes), s1, [Run(n, c1)] + ([Run(n, c2)] + []), s3);
  }

  /** One that does not get through is not delivered: no send is left to do. */
  lemma FrameStops(s: State, k: Key, finishes: bool, ch: Choice)
    requires !GetsThrough(s, k, finishes) && (finishes ==> k.dir == Inbound)
    ensures var s1 := Apply(s, ReadFrame(k, finishes));
      && s1.log.delivered == s.log.delivered
      && if k !in s.items || TimedOut(s, k, finishes) then s1.tasks == s.tasks
         else |s1.tasks| == |s.tasks| + 1
              && var s2 := Apply(s1, Run(|s.tasks|, ch));
              s2.log.delivered == s.log.delivered
              && (s2.tasks == s.tasks || s2.tasks == s.tasks + [Fail(k)] || s2.tasks == s.tasks + [Delete(k)])
  {
    hide Stop, Stops;
    if k in s.items && !TimedOut(s, k, finishes) {
      var s1, to := Apply(s, ReadFrame(k, finishes)), Target(k, s.items[k]);
      var t := Recv(to, finishes, k);
      assert s1.tasks == s.tasks + [t] + [];
      TaskGoes(s1, s.tasks, t, [], ch);
      assert s.tasks + [] == s.tasks;
    }
  }

  // ---------- the frame that ends a call ----------

  lemma DeleteGoes(s: State, ts: seq<Task>, k: Key, after: seq<Task>, ch: Choice)
    requires s.tasks == ts + [Delete(k)] + after && k in s.items && !s.items[k].tomb
    ensures Goes(s, Run(|ts|, ch),
                 s.(items := s.items - {k}, pool := Abandon(s.pool, s.items[k].timer),
                    tasks := ts + after + Settle(ReleaseTimer(s.items[k].timer), k, s.items[k])))
  {
    hide Abandon, Settle;
    TaskGoes(s, ts, Delete(k), after, ch);
  }

  // Everything but items, timers, tasks and what was delivered.
  predicate SameElse(s: State, s': State) {
    && s'.maxTombs == s.maxTombs && s'.tombs == s.tombs && s'.pending == s.pending && s'.nextID == s.nextID
    && s'.conn == s.conn && s'.stopped == s.stopped && s'.log.ended == s.log.ended && s'.log.calls == s.log.calls
  }

  /** A frame that ends a call and gets through is delivered and takes both items with it,
      leaving each to be settled: its timer released, its relayer's count lowered, and the
      call ended by the originator's. */
  lemma ResponseEnds(s: State, k: Key, c1: Choice, c2: Choice, c3: Choice, c4: Choice) returns (s': State)
    requires GetsThrough(s, k, true) && k.dir == Inbound && c2.ok
    ensures var n, to := |s.tasks|, Target(k, s.items[k]);
      && Reaches(s, [ReadFrame(k, true)] + ([Run(n, c1)] + ([Run(n, c2)] + [])) +
        ([Run(n, c3)] + ([Run(n, c4)] + [])), s')
      && s'.items == s.items - {to} - {k} && SameElse(s, s')
      && s'.log.delivered == s.log.delivered + {(k, to)}
      && s'.tasks == s.tasks + Settle(ReleaseTimer(s.items[to].timer), to, s.items[to])
                     + Settle(ReleaseTimer(s.items[k].timer), k, s.items[k])
  {
    hide Reaches, Apply, Perform, Do, Enabled, Settle, Abandon, Stop, Stops;
    var n, ts, to := |s.tasks|, s.tasks, Target(k, s.items[k]);
    assert to != k;
    FrameArrives(s, k, true, c1, c2);
    var s1 := Delivers(LookedUp(s, k, true), k, to).(tasks := ts + [Delete(to), Delete(k)]);
    assert ts + [Delete(to), Delete(k)] == ts + [Delete(to)] + [Delete(k)];
    DeleteGoes(s1, ts, to, [Delete(k)], c3);
    var w1 := Settle(ReleaseTimer(s.items[to].timer), to, s.items[to]);
    var s2 := s1.(items := s1.items - {to}, pool := Abandon(s1.pool, s1.items[to].timer),
      tasks := ts + [Delete(k)] + w1);
    DeleteGoes(s2, ts, k, w1, c4);
    var w2 := Settle(ReleaseTimer(s.items[k].timer), k, s.items[k]);
    s' := s2.(items := s2.items - {k}, pool := Abandon(s2.pool, s2.items[k].timer), tasks := ts + w1 + w2);
    NoSteps(s');
    Then(s2, Run(n, c4), s', [], s');
    Then(s1, Run(n, c3), s2, [Run(n, c4)] + [], s');
    Joined(s, [ReadFrame(k, true)] + ([Run(n, c1)] + ([Run(n, c2)] + [])), s1, [Run(n, c3)] + ([Run(n, c4)] + []), s');
  }

  // ---------- a call request ----------

  // A relayer, a destination, the caller's ID, the call, and the timers of its two items.
  datatype Route = Route(r: RelayerId, d: RelayerId, id: nat, call: CallId, tin: TimerId, tout: TimerId)

  function OutKey(x: Route): (k: Key) {
    Key(x.r, Outbound, x.id)
  }

  function InKey(s: State, x: Route): (k: Key) {
    Key(x.d, Inbound, NextID(s, x.d) + 1)
  }

  /** A new call with a fresh ID between two active connections, and two timers to be had. */
  predicate CanStart(s: State, x: Route) {
    && Conn(s, x.r) == Active && Conn(s, x.d) == Active && x.call !in s.log.calls
    && OutKey(x) !in s.items && OutKey(x) !in s.log.used && InKey(s, x) !in s.items
    && x.tin != x.tout && Available(s.pool, x.d, x.tin) && Available(s.pool, x.r, x.tout)
  }

  function Pick(x: Route, timer: TimerId, more: bool): (ch: Choice) {
    Choice(true, more, x.d, timer, true, true)
  }

  function InItem(x: Route): (item: Item) {
    Item(x.r, x.id, false, false, x.call, x.tin)
  }

  function OutItem(s: State, x: Route): (item: Item) {
    Item(x.d, NextID(s, x.d) + 1, false, true, x.call, x.tout)
  }

  // The call has reserved its slot on both connections.
  function Reserved(s: State, x: Route): (s': State) {
    var s1 := AddPending(s.(log := s.log.(calls := s.log.calls + {x.call})), x.r, 1);
    AddPending(s1.(log := s1.log.(used := s1.log.used + {OutKey(x)})), x.d, 1)
  }

  // Both its items have been added.
  function Installed(s: State, x: Route): (s': State) {
    var s1 := Reserved(s, x);
    var s2 := AddItem(s1.(nextID := s1.nextID[x.d := NextID(s, x.d) + 1]), InKey(s, x), InItem(x), OutKey(x));
    AddItem(s2, OutKey(x), OutItem(s, x), InKey(s, x))
  }

  lemma StartGoes(s: State, x: Route, ts: seq<Task>)
    requires s.tasks == ts + [Started(x.r, x.id, x.call)] && Conn(s, x.r) == Active
    ensures Goes(s, Run(|ts|, Pick(x, 0, false)), AddPending(s, x.r, 1).(tasks := ts + [Resolve(x.r, x.id, x.call)]))
  {
    TaskGoes(s, ts, Started(x.r, x.id, x.call), [], Pick(x, 0, false));
    assert ts + [] == ts && s.tasks == ts + [Started(x.r, x.id, x.call)] + [];
  }

  lemma ResolveGoes(s: State, x: Route, ts: seq<Task>)
    requires s.tasks == ts + [Resolve(x.r, x.id, x.call)] && OutKey(x) !in s.items && OutKey(x) !in s.log.used
    ensures Goes(s, Run(|ts|, Pick(x, 0, false)),
                 s.(log := s.log.(used := s.log.used + {OutKey(x)}),
                   tasks := ts + [CheckRemote(x.r, x.id, x.call, x.d)]))
  {
    TaskGoes(s, ts, Resolve(x.r, x.id, x.call), [], Pick(x, 0, false));
    assert ts + [] == ts && s.tasks == ts + [Resolve(x.r, x.id, x.call)] + [];
  }

  lemma RemoteGoes(s: State, x: Route, ts: seq<Task>)
    requires s.tasks == ts + [CheckRemote(x.r, x.id, x.call, x.d)] && Conn(s, x.d) == Active
    ensures Goes(s, Run(|ts|, Pick(x, 0, false)), AddPending(s, x.d, 1).(tasks := ts + [AddIn(x.r, x.id, x.call, x.d)]))
  {
    TaskGoes(s, ts, CheckRemote(x.r, x.id, x.call, x.d), [], Pick(x, 0, false));
    assert ts + [] == ts && s.tasks == ts + [CheckRemote(x.r, x.id, x.call, x.d)] + [];
  }

  lemma AddInGoes(s: State, x: Route, ts: seq<Task>)
    requires s.tasks == ts + [AddIn(x.r, x.id, x.call, x.d)] && Available(s.pool, x.d, x.tin)
    ensures var m := NextID(s, x.d) + 1;
      Goes(s, Run(|ts|, Pick(x, x.tin, false)),
           AddItem(s.(nextID := s.nextID[x.d := m]), InKey(s, x), InItem(x), OutKey(x)).(
             tasks := ts + [AddOut(x.r, x.id, x.call, x.d, m)]))
  {
    hide AddItem, Available;
    TaskGoes(s, ts, AddIn(x.r, x.id, x.call, x.d), [], Pick(x, x.tin, false));
    assert ts + [] == ts && s.tasks == ts + [AddIn(x.r, x.id, x.call, x.d)] + [];
  }

  lemma AddOutGoes(s: State, x: Route, m: nat, ts: seq<Task>)
    requires s.tasks == ts + [AddOut(x.r, x.id, x.call, x.d, m)] && Available(s.pool, x.r, x.tout)
    ensures var kin := Key(x.d, Inbound, m);
      Goes(s, Run(|ts|, Pick(x, x.tout, false)),
           AddItem(s, OutKey(x), Item(x.d, m, false, true, x.call, x.tout),
             kin).(tasks := ts + [SendOn(kin, OutKey(x))]))
  {
    hide AddItem, Available;
    TaskGoes(s, ts, AddOut(x.r, x.id, x.call, x.d, m), [], Pick(x, x.tout, false));
    assert ts + [] == ts && s.tasks == ts + [AddOut(x.r, x.id, x.call, x.d, m)] + [];
  }

  lemma CallReqGoes(s: State, x: Route)
    requires x.call !in s.log.calls
    ensures Goes(s, CallReq(x.r, x.id, x.call, true),
                 s.(log := s.log.(calls := s.log.calls + {x.call}), tasks := s.tasks + [Started(x.r, x.id, x.call)]))
  {
  }

  lemma Reserves(s: State, x: Route) returns (steps: seq<Step>)
    requires CanStart(s, x)
    ensures Reaches(s, steps, Reserved(s, x).(tasks := s.tasks + [AddIn(x.r, x.id, x.call, x.d)]))
  {
    hide Reaches, Apply, Perform, Do, Enabled, Available;
    var ts, n, go := s.tasks, |s.tasks|, Run(|s.tasks|, Pick(x, 0, false));
    var s1 := s.(log := s.log.(calls := s.log.calls + {x.call}), tasks := ts + [Started(x.r, x.id, x.call)]);
    var s2 := AddPending(s1, x.r, 1).(tasks := ts + [Resolve(x.r, x.id, x.call)]);
    var s3 := s2.(log := s2.log.(used := s2.log.used + {OutKey(x)}),
      tasks := ts + [CheckRemote(x.r, x.id, x.call, x.d)]);
    var s4 := AddPending(s3, x.d, 1).(tasks := ts + [AddIn(x.r, x.id, x.call, x.d)]);
    CallReqGoes(s, x);
    StartGoes(s1, x, ts);
    ResolveGoes(s2, x, ts);
    RemoteGoes(s3, x, ts);
    NoSteps(s4);
    Then(s3, go, s4, [], s4);
    Then(s2, go, s3, [go] + [], s4);
    Then(s1, go, s2, [go] + ([go] + []), s4);
    Then(s, CallReq(x.r, x.id, x.call, true), s1, [go] + ([go] + ([go] + [])), s4);
    steps := [CallReq(x.r, x.id, x.call, true)] + ([go] + ([go] + ([go] + [])));
  }

  lemma StillAvailable(p: Pool, x: Route, k: Key)
    requires x.tin != x.tout && Available(p, x.r, x.tout)
    ensures Available(GetAndStart(p, x.tin, k), x.r, x.tout)
  {
  }

  // The two adds, in order.
  lemma AddsGo(s: State, x: Route)
    requires CanStart(s, x)
    ensures
      var ts, m := s.tasks, NextID(s, x.d) + 1;
      var s4 := Reserved(s, x).(tasks := ts + [AddIn(x.r, x.id, x.call, x.d)]);
      var s5 := AddItem(s4.(nextID := s4.nextID[x.d := m]), InKey(s, x), InItem(x), OutKey(x)).(
        tasks := ts + [AddOut(x.r, x.id, x.call, x.d, m)]);
      && Goes(s4, Run(|ts|, Pick(x, x.tin, false)), s5)
      && Goes(s5, Run(|ts|, Pick(x, x.tout, false)),
              Installed(s, x).(tasks := ts + [SendOn(InKey(s, x), OutKey(x))]))
  {
    hide Goes, Apply, Perform, Do, Enabled, Available, GetAndStart;
    var ts, m := s.tasks, NextID(s, x.d) + 1;
    var s4 := Reserved(s, x).(tasks := ts + [AddIn(x.r, x.id, x.call, x.d)]);
    AddInGoes(s4, x, ts);
    var s5 := AddItem(s4.(nextID := s4.nextID[x.d := m]), InKey(s, x), InItem(x), OutKey(x)).(
      tasks := ts + [AddOut(x.r, x.id, x.call, x.d, m)]);
    StillAvailable(s.pool, x, InKey(s, x));
    AddOutGoes(s5, x, m, ts);
  }

  lemma Installs(s: State, x: Route) returns (steps: seq<Step>)
    requires CanStart(s, x)
    ensures Reaches(s, steps, Installed(s, x).(tasks := s.tasks + [SendOn(InKey(s, x), OutKey(x))]))
  {
    hide Goes, CanStart, Reserved, Installed, AddItem, Reaches, Apply, Enabled;
    var ts, m := s.tasks, NextID(s, x.d) + 1;
    var s4 := Reserved(s, x).(tasks := ts + [AddIn(x.r, x.id, x.call, x.d)]);
    var s5 := AddItem(s4.(nextID := s4.nextID[x.d := m]), InKey(s, x), InItem(x), OutKey(x)).(
      tasks := ts + [AddOut(x.r, x.id, x.call, x.d, m)]);
    var s6 := Installed(s, x).(tasks := ts + [SendOn(InKey(s, x), OutKey(x))]);
    var a1, a2 := Run(|ts|, Pick(x, x.tin, false)), Run(|ts|, Pick(x, x.tout, false));
    steps := Reserves(s, x);
    AddsGo(s, x);
    NoSteps(s6);
    Then(s5, a2, s6, [], s6);
    Then(s4, a1, s5, [a2] + [], s6);
    Joined(s, steps, s4, [a1] + ([a2] + []), s6);
    steps := steps + ([a1] + ([a2] + []));
  }

  lemma SendOnGoes(s: State, ts: seq<Task>, kin: Key, k: Key, ch: Choice)
    requires ch.ok
    ensures s.tasks == ts + [SendOn(kin, k)] && ch.more ==>
      Goes(s, Run(|ts|, ch), s.(tasks := ts + [Recv(kin, false, k), SendOn(kin, k)]))
    ensures s.tasks == ts + [Recv(kin, false, k), SendOn(kin, k)] && !ch.more ==>
      Goes(s, Run(|ts| + 1, ch), s.(tasks := ts + [Recv(kin, false, k)]))
  {
    var t, recv := SendOn(kin, k), Recv(kin, false, k);
    if s.tasks == ts + [t] && ch.more {
      assert s.tasks == ts + [t] + [];
      TaskGoes(s, ts, t, [], ch);
      assert ts + [] == ts;
    } else if s.tasks == ts + [recv, t] && !ch.more {
      assert s.tasks == (ts + [recv]) + [t] + [];
      TaskGoes(s, ts + [recv], t, [], ch);
      assert ts + [recv] + [] + [] == ts + [recv];
    }
  }

  /** A call request is sent on: its two items are there, its slots are taken, and its frame
      has been delivered to the destination's connection. */
  lemma RequestArrives(s: State, x: Route) returns (steps: seq<Step>)
    requires CanStart(s, x)
    ensures Reaches(s, steps, Delivers(Installed(s, x), OutKey(x), InKey(s, x)).(tasks := s.tasks))
  {
    hide Reaches, Apply, Perform, Do, Enabled, Reserved, Available, GetAndStart;
    var ts, n, k, kin := s.tasks, |s.tasks|, OutKey(x), InKey(s, x);
    var i := Installed(s, x);
    var s1 := i.(tasks := ts + [SendOn(kin, k)]);
    var s2, s3 := i.(tasks := ts + [Recv(kin, false, k), SendOn(kin, k)]), i.(tasks := ts + [Recv(kin, false, k)]);
    var s4, s5 := i.(tasks := ts + [SendCh(kin, false, k)]), Delivers(i, k, kin).(tasks := ts);
    var one, last := Pick(x, 0, true), Pick(x, 0, false);
    steps := Installs(s, x);
    SendOnGoes(s1, ts, kin, k, one);
    SendOnGoes(s2, ts, kin, k, last);
    RecvGoes(s3, ts, kin, false, k, last);
    SendGoes(s4, ts, kin, false, k, last);
    assert ts + [] == ts;
    NoSteps(s5);
    Then(s4, Run(n, last), s5, [], s5);
    Then(s3, Run(n, last), s4, [Run(n, last)] + [], s5);
    Then(s2, Run(n + 1, last), s3, [Run(n, last)] + ([Run(n, last)] + []), s5);
    Then(s1, Run(n, one), s2, [Run(n + 1, last)] + ([Run(n, last)] + ([Run(n, last)] + [])), s5);
    var more := [Run(n, one)] + ([Run(n + 1, last)] + ([Run(n, last)] + ([Run(n, last)] + [])));
    Joined(s, steps, s1, more, s5);
    steps := steps + more;
  }

  // ---------- settling ----------

  lemma ReleaseGoes(s: State, ts: seq<Task>, t: TimerId, after: seq<Task>, ch: Choice)
    requires s.tasks == ts + [ReleaseTimer(t)] + after
    ensures Goes(s, Run(|ts|, ch), s.(pool := Release(s.pool, t), tasks := ts + after))
  {
    hide Release;
    TaskGoes(s, ts, ReleaseTimer(t), after, ch);
    assert ts + after + [] == ts + after;
  }

  lemma DecGoes(s: State, ts: seq<Task>, r: RelayerId, after: seq<Task>, ch: Choice)
    requires s.tasks == ts + [Dec(r)] + after
    ensures Goes(s, Run(|ts|, ch), AddPending(s, r, -1).(tasks := ts + after + [Check(r, ReadState)]))
  {
    TaskGoes(s, ts, Dec(r), after, ch);
  }

  lemma EndGoes(s: State, ts: seq<Task>, call: CallId, after: seq<Task>, ch: Choice)
    requires s.tasks == ts + [End(call)] + after
    ensures Goes(s, Run(|ts|, ch), s.(log := s.log.(ended := s.log.ended + multiset{call}), tasks := ts + after))
  {
    TaskGoes(s, ts, End(call), after, ch);
    assert ts + after + [] == ts + after;
  }

  /** Settling an item releases its timer, lowers its relayer's count and starts its
      checkExchanges, and the originator's ends the call. */
  lemma Settles(s: State, ts: seq<Task>, t: TimerId, k: Key, item: Item, after: seq<Task>, ch: Choice)
      returns (steps: seq<Step>, s': State)
    requires s.tasks == ts + Settle(ReleaseTimer(t), k, item) + after
    ensures Reaches(s, steps, s') && s'.items == s.items && s'.log.delivered == s.log.delivered
    ensures s'.pending == AddPending(s, k.r, -1).pending && s'.tasks == ts + after + [Check(k.r, ReadState)]
    ensures s'.log.ended == s.log.ended + if item.isOriginator then multiset{item.call} else multiset{}
  {
    hide Reaches, Apply, Perform, Do, Enabled, Release;
    var go := Run(|ts|, ch);
    var end := if item.isOriginator then [End(item.call)] else [];
    assert s.tasks == ts + [ReleaseTimer(t)] + ([Dec(k.r)] + (end + after));
    ReleaseGoes(s, ts, t, [Dec(k.r)] + (end + after), ch);
    var s1 := s.(pool := Release(s.pool, t), tasks := ts + ([Dec(k.r)] + (end + after)));
    assert s1.tasks == ts + [Dec(k.r)] + (end + after);
    DecGoes(s1, ts, k.r, end + after, ch);
    var check := [Check(k.r, ReadState)];
    var s2 := AddPending(s1, k.r, -1).(tasks := ts + (end + after) + check);
    if item.isOriginator {
      assert s2.tasks == ts + [End(item.call)] + (after + check);
      EndGoes(s2, ts, item.call, after + check, ch);
      s' := s2.(log := s2.log.(ended := s2.log.ended + multiset{item.call}), tasks := ts + (after + check));
      NoSteps(s');
      Then(s2, go, s', [], s');
      steps := [go] + [];
      assert ts + (after + check) == ts + after + check;
    } else {
      s', steps := s2, [];
      NoSteps(s2);
      assert end + after == after && s.log.ended + multiset{} == s.log.ended;
    }
    Then(s1, go, s2, steps, s');
    Then(s, go, s1, [go] + steps, s');
    steps := [go] + ([go] + steps);
  }

  // ---------- a whole call ----------

  predicate Live(s: State, k: Key) {
    && k in s.items && !s.items[k].tomb
    && s.items[k].timer in s.pool.timers && s.pool.timers[s.items[k].timer].armed
  }

  lemma LiveThrough(s: State, k: Key, finishes: bool)
    requires Live(s, k) && Live(s, Target(k, s.items[k]))
    requires s.items[k].timer != s.items[Target(k, s.items[k])].timer
    ensures GetsThrough(s, k, finishes)
  {
  }

  /** In every run, a frame that matches a live item whose timer is running gets through if
      the same is true of the item on the other side. */
  lemma ReachableThrough(maxTombs: nat, steps: seq<Step>, s: State, k: Key, finishes: bool)
    requires Reaches(Init(maxTombs), steps, s) && Live(s, k) && Live(s, Target(k, s.items[k]))
    ensures GetsThrough(s, k, finishes)
  {
    hide Reaches;
    S.TimersSafe(maxTombs, steps, s);
    assert k.dir != Target(k, s.items[k]).dir;
    LiveThrough(s, k, finishes);
  }

  // The response to an installed call gets through.
  lemma InstalledLive(s: State, x: Route)
    requires CanStart(s, x)
    ensures var i := Delivers(Installed(s, x), OutKey(x), InKey(s, x)).(tasks := s.tasks);
      && GetsThrough(i, InKey(s, x), true) && Target(InKey(s, x), i.items[InKey(s, x)]) == OutKey(x)
      && i.items == s.items[InKey(s, x) := InItem(x)][OutKey(x) := OutItem(s, x)]
      && i.items - {OutKey(x)} - {InKey(s, x)} == s.items
      && i.log.ended == s.log.ended && i.log.delivered == s.log.delivered + {(OutKey(x), InKey(s, x))}
      && i.pending == Reserved(s, x).pending
  {
    var k, kin := OutKey(x), InKey(s, x);
    var i := Delivers(Installed(s, x), k, kin).(tasks := s.tasks);
    assert i.items == s.items[kin := InItem(x)][k := OutItem(s, x)];
    assert i.items - {k} - {kin} == s.items;
    InstalledTimers(s, x);
    LiveThrough(i, kin, true);
  }

  lemma InstalledTimers(s: State, x: Route)
    requires x.tin != x.tout
    ensures var p := Installed(s, x).pool;
      x.tin in p.timers && p.timers[x.tin].armed && x.tout in p.timers && p.timers[x.tout].armed
  {
  }

  lemma PendingBack(s: State, x: Route, p: map<RelayerId, int>, y: RelayerId)
    requires p == AddPending(AddPending(Reserved(s, x), x.r, -1), x.d, -1).pending
    ensures (if y in p then p[y] else 0) == Pending(s, y)
  {
  }

  /** For every relayer, destination and fresh ID, and in any state in which a call can start:
      the call can be relayed to its end. Its request is delivered, its response is delivered
      under the original ID, both items are gone, End is called once more, and every pending
      count is what it was. */
  lemma CallRunsThrough(s: State, x: Route) returns (steps: seq<Step>, s': State)
    requires CanStart(s, x)
    ensures Reaches(s, steps, s') && s'.items == s.items
    ensures s'.log.delivered == s.log.delivered + {(OutKey(x), InKey(s, x))} + {(InKey(s, x), OutKey(x))}
    ensures s'.log.ended == s.log.ended + multiset{x.call}
    ensures forall y :: Pending(s', y) == Pending(s, y)
    ensures s'.tasks == s.tasks + [Check(x.r, ReadState)] + [Check(x.d, ReadState)]
  {
    hide Reaches, Installed, Reserved, CanStart, GetsThrough, Settle, NextID;
    var ts, k, kin, ch := s.tasks, OutKey(x), InKey(s, x), Pick(x, 0, false);
    steps := RequestArrives(s, x);
    var i := Delivers(Installed(s, x), k, kin).(tasks := ts);
    InstalledLive(s, x);
    var s1 := ResponseEnds(i, kin, ch, ch, ch, ch);
    var n := |ts|;
    var reply := [ReadFrame(kin, true)] + ([Run(n, ch)] + ([Run(n, ch)] + [])) + ([Run(n, ch)] + ([Run(n, ch)] + []));
    Joined(s, steps, i, reply, s1);
    steps := steps + reply;
    var w := Settle(ReleaseTimer(x.tin), kin, InItem(x));
    var more, s2 := Settles(s1, ts, x.tout, k, OutItem(s, x), w, ch);
    Joined(s, steps, s1, more, s2);
    steps := steps + more;
    var check := [Check(x.r, ReadState)];
    assert s2.tasks == ts + w + check;
    more, s' := Settles(s2, ts, x.tin, kin, InItem(x), check, ch);
    Joined(s, steps, s2, more, s');
    steps := steps + more;
    assert s'.log.ended == s.log.ended + multiset{x.call} + multiset{} == s.log.ended + multiset{x.call};
    forall y
      ensures Pending(s', y) == Pending(s, y)
    {
      PendingBack(s, x, s'.pending, y);
    }
  }

  // ---------- a call that fails ----------

  // The item has become a tombstone.
  function Entombed(s: State, k: Key): (s': State)
    requires k in s.items
  {
    s.(items := s.items[k := s.items[k].(tomb := true)],
       tombs := s.tombs[(k.r, k.dir) := Tombs(s, k.r, k.dir) + 1])
  }

  lemma EntombGoes(s: State, ts: seq<Task>, k: Key, ch: Choice)
    requires s.tasks == ts + [Entomb(k)] && k in s.items && !s.items[k].tomb && Tombs(s, k.r, k.dir) <= s.maxTombs
    ensures Goes(s, Run(|ts|, ch), Entombed(s, k).(tasks := ts + Settle(CollectTomb(k), k, s.items[k])))
  {
    hide Settle;
    assert s.tasks == ts + [Entomb(k)] + [] && ts + [] == ts;
    TaskGoes(s, ts, Entomb(k), [], ch);
  }

  // Entombing a live item lowers its relayer's count, ends the call if it is the
  // originator's, and leaves the tombstone to be collected.
  lemma TombSettles(s: State, ts: seq<Task>, k: Key, ch: Choice) returns (steps: seq<Step>, s': State)
    requires s.tasks == ts + [Entomb(k)] && k in s.items && !s.items[k].tomb && Tombs(s, k.r, k.dir) <= s.maxTombs
    ensures Reaches(s, steps, s') && s'.items == Entombed(s, k).items && s'.log.delivered == s.log.delivered
    ensures s'.pending == AddPending(s, k.r, -1).pending
    ensures s'.log.ended == s.log.ended + if s.items[k].isOriginator then multiset{s.items[k].call} else multiset{}
    ensures s'.tasks == ts + [CollectTomb(k)] + [Check(k.r, ReadState)]
  {
    hide Reaches, Apply, Perform, Do, Enabled, Goes;
    var item, ts1 := s.items[k], ts + [CollectTomb(k)];
    var end := if item.isOriginator then [End(item.call)] else [];
    var s1 := Entombed(s, k).(tasks := ts + Settle(CollectTomb(k), k, item));
    EntombGoes(s, ts, k, ch);
    assert s1.tasks == ts1 + [Dec(k.r)] + end;
    DecGoes(s1, ts1, k.r, end, ch);
    var check, go := [Check(k.r, ReadState)], Run(|ts1|, ch);
    var s2 := AddPending(s1, k.r, -1).(tasks := ts1 + end + check);
    if item.isOriginator {
      EndGoes(s2, ts1, item.call, check, ch);
      s' := s2.(log := s2.log.(ended := s2.log.ended + multiset{item.call}), tasks := ts1 + check);
      NoSteps(s');
      Then(s2, go, s', [], s');
      steps := [go] + [];
    } else {
      s', steps := s2, [];
      NoSteps(s2);
      assert ts1 + end == ts1 && s.log.ended + multiset{} == s.log.ended;
    }
    Then(s1, go, s2, steps, s');
    Then(s, Run(|ts|, ch), s1, [go] + steps, s');
    steps := [Run(|ts|, ch)] + ([go] + steps);
  }

  predicate TooMany(s: State, k: Key) {
    Tombs(s, k.r, k.dir) > s.maxTombs
  }

  // The item is a tombstone, or gone if there are too many.
  function Over(s: State, k: Key): (items: Items)
    requires k in s.items
  {
    if TooMany(s, k) then s.items - {k} else s.items[k := s.items[k].(tomb := true)]
  }

  lemma TooManyGoes(s: State, ts: seq<Task>, k: Key, ch: Choice)
    requires s.tasks == ts + [Entomb(k)] && TooMany(s, k)
    ensures Goes(s, Run(|ts|, ch), s.(tasks := ts + [Delete(k)]))
  {
    assert s.tasks == ts + [Entomb(k)] + [] && ts + [] == ts;
    TaskGoes(s, ts, Entomb(k), [], ch);
  }

  lemma ExcessSettles(s: State, ts: seq<Task>, k: Key, ch: Choice) returns (steps: seq<Step>, s': State)
    requires s.tasks == ts + [Entomb(k)] && k in s.items && !s.items[k].tomb && TooMany(s, k)
    ensures Reaches(s, steps, s') && s'.items == s.items - {k} && s'.log.delivered == s.log.delivered
    ensures s'.pending == AddPending(s, k.r, -1).pending
    ensures s'.log.ended == s.log.ended + if s.items[k].isOriginator then multiset{s.items[k].call} else multiset{}
    ensures s'.tasks == ts + [Check(k.r, ReadState)]
  {
    hide Reaches, Apply, Perform, Do, Enabled, Goes, Settle, Abandon, TooMany;
    var go, tm := Run(|ts|, ch), s.items[k].timer;
    TooManyGoes(s, ts, k, ch);
    var s1 := s.(tasks := ts + [Delete(k)]);
    assert s1.tasks == ts + [Delete(k)] + [] && ts + [] == ts;
    DeleteGoes(s1, ts, k, [], ch);
    var work := Settle(ReleaseTimer(tm), k, s.items[k]);
    var s2 := s1.(items := s.items - {k}, pool := Abandon(s.pool, tm), tasks := ts + work);
    assert s2.tasks == ts + work + [];
    steps, s' := Settles(s2, ts, tm, k, s.items[k], [], ch);
    Then(s1, go, s2, steps, s');
    Then(s, go, s1, [go] + steps, s');
    steps := [go] + ([go] + steps);
  }

  /** Entombing a live item makes it a tombstone to be collected, or deletes it if there are
      too many. Its relayer's count goes down, and the originator's call ends. */
  lemma EntombSettles(s: State, ts: seq<Task>, k: Key, ch: Choice) returns (steps: seq<Step>, s': State)
    requires s.tasks == ts + [Entomb(k)] && k in s.items && !s.items[k].tomb
    ensures Reaches(s, steps, s') && s'.items == Over(s, k) && s'.log.delivered == s.log.delivered
    ensures s'.pending == AddPending(s, k.r, -1).pending
    ensures s'.log.ended == s.log.ended + if s.items[k].isOriginator then multiset{s.items[k].call} else multiset{}
    ensures s'.tasks == ts + (if TooMany(s, k) then [] else [CollectTomb(k)]) + [Check(k.r, ReadState)]
  {
    hide Reaches;
    if TooMany(s, k) {
      steps, s' := ExcessSettles(s, ts, k, ch);
      assert ts + [] == ts;
    } else {
      steps, s' := TombSettles(s, ts, k, ch);
    }
  }

  lemma FailGoes(s: State, ts: seq<Task>, k: Key, ch: Choice)
    requires s.tasks == ts + [Fail(k)] && k in s.items && Stops(s.pool, s.items[k].timer)
    ensures Goes(s, Run(|ts|, ch), s.(pool := Stop(s.pool, s.items[k].timer), tasks := ts + [Entomb(k)]))
  {
    hide Stop, Stops;
    assert s.tasks == ts + [Fail(k)] + [] && ts + [] == ts;
    TaskGoes(s, ts, Fail(k), [], ch);
  }

  /** So does failRelayItem, run alone on an item whose timer has not fired. */
  lemma FailEntombs(s: State, ts: seq<Task>, k: Key, ch: Choice) returns (steps: seq<Step>, s': State)
    requires s.tasks == ts + [Fail(k)] && Live(s, k)
    ensures Reaches(s, steps, s') && s'.items == Over(s, k) && s'.log.delivered == s.log.delivered
    ensures s'.pending == AddPending(s, k.r, -1).pending
    ensures s'.log.ended == s.log.ended + if s.items[k].isOriginator then multiset{s.items[k].call} else multiset{}
    ensures s'.tasks == ts + (if TooMany(s, k) then [] else [CollectTomb(k)]) + [Check(k.r, ReadState)]
  {
    hide Reaches, Apply, Perform, Do, Enabled, Goes, Stop;
    FailGoes(s, ts, k, ch);
    var s1 := s.(pool := Stop(s.pool, s.items[k].timer), tasks := ts + [Entomb(k)]);
    steps, s' := EntombSettles(s1, ts, k, ch);
    Then(s, Run(|ts|, ch), s1, steps, s');
    steps := [Run(|ts|, ch)] + steps;
  }

  lemma ExpireGoes(s: State, k: Key, ch: Choice)
    requires Live(s, k) && s.pool.timers[s.items[k].timer].items == ForKey(k)
    ensures var t := s.items[k].timer;
      var s1 := s.(pool := Fire(s.pool, t), tasks := s.tasks + [OnTimer(t)]);
      && Goes(s, Expire(t), s1)
      && Goes(s1, Run(|s.tasks|, ch), s1.(pool := RunTrigger(s1.pool, t), tasks := s.tasks + [Entomb(k)]))
  {
    var t := s.items[k].timer;
    var s1 := s.(pool := Fire(s.pool, t), tasks := s.tasks + [OnTimer(t)]);
    assert s1.tasks == s.tasks + [OnTimer(t)] + [] && s.tasks + [] == s.tasks;
    TaskGoes(s1, s.tasks, OnTimer(t), [], ch);
  }

  // An item's timer was started for it.
  lemma StartedFor(maxTombs: nat, before: seq<Step>, s: State, k: Key)
    requires Reaches(Init(maxTombs), before, s) && Live(s, k)
    ensures s.pool.timers[s.items[k].timer].items == ForKey(k)
  {
    hide Reaches;
    S.ReachableTimed(maxTombs, before, s);
    assert TimerOk(s.pool, s.items[k].timer);
  }

  /** In every run a live item whose timer expires, with nothing in between, becomes a
      tombstone or goes: its relayer's count goes down, and the originator's call ends. */
  lemma TimesOut(maxTombs: nat, before: seq<Step>, s: State, k: Key, ch: Choice)
      returns (steps: seq<Step>, s': State)
    requires Reaches(Init(maxTombs), before, s) && Live(s, k)
    ensures Reaches(s, [Expire(s.items[k].timer)] + steps, s')
    ensures s'.items == Over(s, k) && s'.log.delivered == s.log.delivered
    ensures s'.pending == AddPending(s, k.r, -1).pending
    ensures s'.log.ended == s.log.ended + if s.items[k].isOriginator then multiset{s.items[k].call} else multiset{}
    ensures s'.tasks == s.tasks + (if TooMany(s, k) then [] else [CollectTomb(k)]) + [Check(k.r, ReadState)]
  {
    hide Reaches, Apply, Perform, Do, Enabled, Goes, Fire, RunTrigger;
    StartedFor(maxTombs, before, s, k);
    ExpireGoes(s, k, ch);
    var t, go := s.items[k].timer, Run(|s.tasks|, ch);
    var s1 := s.(pool := Fire(s.pool, t), tasks := s.tasks + [OnTimer(t)]);
    var s2 := s1.(pool := RunTrigger(s1.pool, t), tasks := s.tasks + [Entomb(k)]);
    steps, s' := EntombSettles(s2, s.tasks, k, ch);
    Then(s1, go, s2, steps, s');
    Then(s, Expire(t), s1, [go] + steps, s');
    steps := [go] + steps;
  }

  /** A call whose frames cannot be rewritten is entombed at its originator: it ends, the
      originator's count is back, and the other side waits for its own timer. */
  lemma RewriteFails(s: State, x: Route) returns (steps: seq<Step>, s': State)
    requires CanStart(s, x)
    ensures Reaches(s, steps, s')
    ensures var items := s.items[InKey(s, x) := InItem(x)];
      s'.items == if TooMany(s, OutKey(x)) then items else items[OutKey(x) := OutItem(s, x).(tomb := true)]
    ensures s'.log.delivered == s.log.delivered && s'.log.ended == s.log.ended + multiset{x.call}
    ensures forall y :: Pending(s', y) == Pending(s, y) + One(y == x.d)
    ensures s'.tasks ==
      s.tasks + (if TooMany(s, OutKey(x)) then [] else [CollectTomb(OutKey(x))]) + [Check(x.r, ReadState)]
  {
    hide Reaches, Apply, Perform, Do, Enabled, Goes, Reserved, Installed, CanStart, Live, NextID;
    var ts, k, ch := s.tasks, OutKey(x), Pick(x, 0, false).(ok := false);
    steps := Installs(s, x);
    InstalledCall(s, x);
    var i := Installed(s, x);
    var s1, s2 := i.(tasks := ts + [SendOn(InKey(s, x), k)]), i.(tasks := ts + [Fail(k)]);
    RewriteGoes(s1, ts, InKey(s, x), k, ch);
    var more;
    LiveSame(i, s2, k);
    more, s' := FailEntombs(s2, ts, k, ch);
    Then(s1, Run(|ts|, ch), s2, more, s');
    Joined(s, steps, s1, [Run(|ts|, ch)] + more, s');
    steps := steps + ([Run(|ts|, ch)] + more);
    forall y
      ensures Pending(s', y) == Pending(s, y) + One(y == x.d)
    {
      PendingLess(s, x, s'.pending, y);
    }
  }

  lemma LiveSame(s: State, s': State, k: Key)
    requires s'.items == s.items && s'.pool == s.pool
    ensures Live(s', k) == Live(s, k)
  {
  }

  // What the two adds leave, field by field.
  lemma InstalledCall(s: State, x: Route)
    requires CanStart(s, x)
    ensures var i := Installed(s, x);
      && i.items == s.items[InKey(s, x) := InItem(x)][OutKey(x) := OutItem(s, x)] && Live(i, OutKey(x))
      && i.log.ended == s.log.ended && i.log.delivered == s.log.delivered && i.pending == Reserved(s, x).pending
      && i.tombs == s.tombs && i.maxTombs == s.maxTombs
      && i.items - {OutKey(x)} == s.items[InKey(s, x) := InItem(x)]
  {
    hide GetAndStart;
    InstalledTimers(s, x);
    assert Installed(s, x).items - {OutKey(x)} == s.items[InKey(s, x) := InItem(x)];
  }

  lemma RewriteGoes(s: State, ts: seq<Task>, kin: Key, k: Key, ch: Choice)
    requires s.tasks == ts + [SendOn(kin, k)] && !ch.ok && !ch.more
    ensures Goes(s, Run(|ts|, ch), s.(tasks := ts + [Fail(k)]))
  {
    assert s.tasks == ts + [SendOn(kin, k)] + [] && ts + [] == ts;
    TaskGoes(s, ts, SendOn(kin, k), [], ch);
  }

  lemma PendingLess(s: State, x: Route, p: map<RelayerId, int>, y: RelayerId)
    requires p == AddPending(Reserved(s, x), x.r, -1).pending
    ensures (if y in p then p[y] else 0) == Pending(s, y) + One(y == x.d)
  {
  }

  // ---------- a call that is turned away ----------

  // Lets the only task left over from a call that has not reserved anything end it.
  lemma LastEnds(s: State, ts: seq<Task>, x: Route, ch: Choice)
    requires s.tasks == ts + [End(x.call)]
    ensures Reaches(s, [Run(|ts|, ch)], s.(log := s.log.(ended := s.log.ended + multiset{x.call}), tasks := ts))
  {
    hide Reaches, Apply, Perform, Do, Enabled, Goes;
    assert s.tasks == ts + [End(x.call)] + [] && ts + [] == ts && [Run(|ts|, ch)] == [Run(|ts|, ch)] + [];
    EndGoes(s, ts, x.call, [], ch);
    var s' := s.(log := s.log.(ended := s.log.ended + multiset{x.call}), tasks := ts);
    NoSteps(s');
    Then(s, Run(|ts|, ch), s', [], s');
  }

  lemma DecEnds(s: State, ts: seq<Task>, x: Route, ch: Choice)
    requires s.tasks == ts + [Dec(x.r), End(x.call)]
    ensures Reaches(s, [Run(|ts|, ch)] + ([Run(|ts|, ch)] + []),
                    AddPending(s, x.r, -1).(log := s.log.(ended := s.log.ended + multiset{x.call}),
                      tasks := ts + [Check(x.r, ReadState)]))
  {
    hide Reaches, Apply, Perform, Do, Enabled, Goes;
    var go, check := Run(|ts|, ch), [Check(x.r, ReadState)];
    assert s.tasks == ts + [Dec(x.r)] + [End(x.call)];
    DecGoes(s, ts, x.r, [End(x.call)], ch);
    var s1 := AddPending(s, x.r, -1).(tasks := ts + [End(x.call)] + check);
    EndGoes(s1, ts, x.call, check, ch);
    var s' := s1.(log := s1.log.(ended := s1.log.ended + multiset{x.call}), tasks := ts + check);
    NoSteps(s');
    Then(s1, go, s', [], s');
    Then(s, go, s1, [go] + [], s');
  }

  /** A call the relay host does not accept, or that reaches a connection that is not active,
      ends at once and leaves nothing behind. */
  lemma TurnedAway(s: State, x: Route, accepted: bool) returns (steps: seq<Step>)
    requires x.call !in s.log.calls && (accepted ==> Conn(s, x.r) != Active)
    ensures Reaches(s, [CallReq(x.r, x.id, x.call, accepted)] + steps,
                    s.(log := s.log.(calls := s.log.calls + {x.call}, ended := s.log.ended + multiset{x.call})))
  {
    hide Reaches, Perform, Do;
    var ts, ch := s.tasks, Pick(x, 0, false);
    var t := if accepted then Started(x.r, x.id, x.call) else End(x.call);
    var s1 := s.(log := s.log.(calls := s.log.calls + {x.call}), tasks := ts + [t]);
    ArrivesGoes(s, x, accepted);
    hide Apply, Enabled, Goes;
    var s2 := s1.(tasks := ts + [End(x.call)]);
    LastEnds(s2, ts, x, ch);
    var s' := s2.(log := s2.log.(ended := s2.log.ended + multiset{x.call}), tasks := ts);
    steps := [Run(|ts|, ch)];
    if accepted {
      NotStartedGoes(s1, x, ts, ch);
      Then(s1, Run(|ts|, ch), s2, steps, s');
      steps := [Run(|ts|, ch)] + steps;
    }
    Then(s, CallReq(x.r, x.id, x.call, accepted), s1, steps, s');
  }

  lemma ArrivesGoes(s: State, x: Route, accepted: bool)
    requires x.call !in s.log.calls
    ensures Goes(s, CallReq(x.r, x.id, x.call, accepted),
                 s.(log := s.log.(calls := s.log.calls + {x.call}),
                    tasks := s.tasks + [if accepted then Started(x.r, x.id, x.call) else End(x.call)]))
  {
  }

  lemma NotStartedGoes(s: State, x: Route, ts: seq<Task>, ch: Choice)
    requires s.tasks == ts + [Started(x.r, x.id, x.call)] && Conn(s, x.r) != Active
    ensures Goes(s, Run(|ts|, ch), s.(tasks := ts + [End(x.call)]))
  {
    assert s.tasks == ts + [Started(x.r, x.id, x.call)] + [] && ts + [] == ts;
    TaskGoes(s, ts, Started(x.r, x.id, x.call), [], ch);
  }

  /** So does one whose ID is in use, that has no destination, or whose destination's
      connection is not active: the count it reserved is given back. */
  lemma NoDestination(s: State, x: Route, found: bool) returns (steps: seq<Step>, s': State)
    requires x.call !in s.log.calls && Conn(s, x.r) == Active
    requires found && OutKey(x) !in s.items ==> OutKey(x) !in s.log.used && Conn(s, x.d) != Active
    ensures Reaches(s, [CallReq(x.r, x.id, x.call, true)] + steps, s')
    ensures s'.items == s.items && s'.log.delivered == s.log.delivered
    ensures s'.log.ended == s.log.ended + multiset{x.call}
    ensures forall y :: Pending(s', y) == Pending(s, y)
    ensures s'.tasks == s.tasks + [Check(x.r, ReadState)]
  {
    hide Reaches, Perform, Do;
    var ts, ch := s.tasks, Pick(x, 0, false).(ok := found);
    var go := Run(|ts|, ch);
    var s1 := s.(log := s.log.(calls := s.log.calls + {x.call}), tasks := ts + [Started(x.r, x.id, x.call)]);
    ArrivesGoes(s, x, true);
    hide Apply, Enabled, Goes;
    StartGoes(s1, x, ts);
    var s2 := AddPending(s1, x.r, 1).(tasks := ts + [Resolve(x.r, x.id, x.call)]);
    var s3;
    steps, s3 := DestinationFails(s2, x, ts, ch);
    DecEnds(s3, ts, x, ch);
    s' := AddPending(s3, x.r, -1).(log := s3.log.(ended := s3.log.ended + multiset{x.call}),
      tasks := ts + [Check(x.r, ReadState)]);
    Joined(s2, steps, s3, [go] + ([go] + []), s');
    steps := steps + ([go] + ([go] + []));
    Then(s1, Run(|ts|, Pick(x, 0, false)), s2, steps, s');
    steps := [Run(|ts|, Pick(x, 0, false))] + steps;
    Then(s, CallReq(x.r, x.id, x.call, true), s1, steps, s');
  }

  // getDestination fails, or the destination's connection is not active.
  lemma DestinationFails(s: State, x: Route, ts: seq<Task>, ch: Choice) returns (steps: seq<Step>, s': State)
    requires s.tasks == ts + [Resolve(x.r, x.id, x.call)] && ch.dest == x.d
    requires ch.ok && OutKey(x) !in s.items ==> OutKey(x) !in s.log.used && Conn(s, x.d) != Active
    ensures Reaches(s, steps, s') && s'.items == s.items && s'.pending == s.pending
    ensures s'.log.delivered == s.log.delivered && s'.log.ended == s.log.ended
    ensures s'.tasks == ts + [Dec(x.r), End(x.call)]
  {
    hide Reaches, Perform;
    var go, fail := Run(|ts|, ch), [Dec(x.r), End(x.call)];
    assert s.tasks == ts + [Resolve(x.r, x.id, x.call)] + [] && ts + [] == ts;
    TaskGoes(s, ts, Resolve(x.r, x.id, x.call), [], ch);
    if ch.ok && OutKey(x) !in s.items {
      var t := CheckRemote(x.r, x.id, x.call, x.d);
      var s1 := s.(log := s.log.(used := s.log.used + {OutKey(x)}), tasks := ts + [t]);
      assert s1.tasks == ts + [t] + [];
      TaskGoes(s1, ts, t, [], ch);
      s' := s1.(tasks := ts + fail);
      hide Apply, Enabled, Goes, Do;
      NoSteps(s');
      Then(s1, go, s', [], s');
      Then(s, go, s1, [go] + [], s');
      steps := [go] + ([go] + []);
    } else {
      s' := s.(tasks := ts + fail);
      hide Apply, Enabled, Goes, Do;
      NoSteps(s');
      Then(s, go, s', [], s');
      steps := [go] + [];
    }
  }
}
