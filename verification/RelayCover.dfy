/** No live item is forgotten: its timer is running or has fired, or some goroutine is on
    its way to entomb or delete it. */
module RelayCover {
  import opened Bags
  import opened CloseMachine
  import opened RelayTimers
  import opened RelayModel
  import opened RelayCounting
  import opened RelayLinks
  import opened RelayTimerSafety

  // Tasks that end the item whatever its timer did.
  function Ends(k: Key): (w: Task -> nat) {
    (t: Task) => One(t == Entomb(k) || t == Delete(k))
  }

  // Tasks that end the item once its timer is stopped.
  function Finishes(k: Key): (w: Task -> nat) {
    (t: Task) => One(FinishesItem(t, k))
  }

  predicate FinishesItem(t: Task, k: Key) {
    || t == Fail(k)
    || (t.Recv? && t.finished && t.src == k)
    || (t.SendCh? && t.finished && (t.src == k || t.key == k))
  }

  /** With so much work of each kind left, a live item at k will end. */
  predicate CoveredBy(p: Pool, items: Items, k: Key, ends: nat, finishes: nat) {
    k in items && !items[k].tomb ==>
      && items[k].timer in p.timers
      && var tm := p.timers[items[k].timer];
      tm.active || ends > 0 || (tm.stopped && finishes > 0)
  }

  predicate Covered(s: State, k: Key) {
    CoveredBy(s.pool, s.items, k, Sum(s.tasks, Ends(k)), Sum(s.tasks, Finishes(k)))
  }

  // The item at k after an outcome, next to other work of e and f.
  predicate After(o: Outcome, k: Key, e: nat, f: nat) {
    CoveredBy(o.s.pool, o.s.items, k, e + Sum(o.work, Ends(k)), f + Sum(o.work, Finishes(k)))
  }

  // ---------- one outcome ----------

  // Stopping the timer of x, when work that finishes x follows if it can be stopped.
  lemma StopCovers(s: State, x: Key, k: Key, e: nat, f: nat, e': nat, f': nat)
    requires PoolOk(s.pool) && Owned(s.pool, s.items) && x in s.items
    requires CoveredBy(s.pool, s.items, k, e, f)
    requires k == x && !s.items[x].tomb && Stops(s.pool, s.items[x].timer) ==> e' > 0 || f' > 0
    requires k != x || !Stops(s.pool, s.items[x].timer) ==> (e > 0 ==> e' > 0) && (f > 0 ==> e' > 0 || f' > 0)
    ensures CoveredBy(Stop(s.pool, s.items[x].timer), s.items, k, e', f')
  {
    assert TimerOk(s.pool, s.items[x].timer);
    if k in s.items && !s.items[k].tomb && k != x {
      assert s.items[k].timer != s.items[x].timer;
    }
  }

  lemma GetCovers(s: State, x: Key, stop: bool, k: Key, e: nat, f: nat, e': nat, f': nat)
    requires PoolOk(s.pool) && Owned(s.pool, s.items) && x in s.items
    requires CoveredBy(s.pool, s.items, k, e, f)
    requires stop && k == x && !s.items[x].tomb && Stops(s.pool, s.items[x].timer) ==> e' > 0 || f' > 0
    requires !stop || k != x || !Stops(s.pool, s.items[x].timer) ==> (e > 0 ==> e' > 0) && (f > 0 ==> e' > 0 || f' > 0)
    ensures CoveredBy(GetItem(s, x, stop).pool, s.items, k, e', f') && GetItem(s, x, stop).items == s.items
  {
    if stop {
      StopCovers(s, x, k, e, f, e', f');
    }
  }

  lemma RecvCovers(s: State, x: Key, finished: bool, src: Key, k: Key, e: nat, f: nat)
    requires PoolOk(s.pool) && Owned(s.pool, s.items)
    requires CoveredBy(s.pool, s.items, k, e, f + Finishes(k)(Recv(x, finished, src)))
    ensures After(DoRecv(s, x, finished, src), k, e, f)
  {
    hide PoolOk, Owned, Sum, Stop, Stops, GetItem;
    var o := DoRecv(s, x, finished, src);
    SumWork(o.work, Ends(k));
    SumWork(o.work, Finishes(k));
    if x in s.items {
      GetCovers(s, x, finished, k, e, f + Finishes(k)(Recv(x, finished, src)), e + Sum(o.work, Ends(k)),
        f + Sum(o.work, Finishes(k)));
    }
  }

  lemma ReadFrameCovers(s: State, x: Key, finishes: bool, k: Key, e: nat, f: nat)
    requires PoolOk(s.pool) && Owned(s.pool, s.items)
    requires CoveredBy(s.pool, s.items, k, e, f)
    ensures After(DoReadFrame(s, x, finishes), k, e, f)
  {
    hide PoolOk, Owned, Sum, Stop, Stops, GetItem;
    var o := DoReadFrame(s, x, finishes);
    SumWork(o.work, Ends(k));
    SumWork(o.work, Finishes(k));
    if x in s.items {
      GetCovers(s, x, finishes, k, e, f, e + Sum(o.work, Ends(k)), f + Sum(o.work, Finishes(k)));
    }
  }

  lemma FailCovers(s: State, x: Key, k: Key, e: nat, f: nat)
    requires PoolOk(s.pool) && Owned(s.pool, s.items)
    requires CoveredBy(s.pool, s.items, k, e, f + Finishes(k)(Fail(x)))
    ensures After(DoFail(s, x), k, e, f)
  {
    hide Sum;
    var o := DoFail(s, x);
    SumWork(o.work, Ends(k));
    SumWork(o.work, Finishes(k));
    if x in s.items {
      assert TimerOk(s.pool, s.items[x].timer);
      if k in s.items && k != x {
        assert s.items[k].timer != s.items[x].timer;
      }
    }
  }

  lemma SendChCovers(s: State, x: Key, finished: bool, src: Key, ch: Choice, k: Key, e: nat, f: nat)
    requires CoveredBy(s.pool, s.items, k, e, f + Finishes(k)(SendCh(x, finished, src)))
    ensures After(DoSendCh(s, x, finished, src, ch), k, e, f)
  {
    hide Sum;
    var o := DoSendCh(s, x, finished, src, ch);
    SumWork(o.work, Ends(k));
    SumWork(o.work, Finishes(k));
  }

  lemma EntombCovers(s: State, x: Key, k: Key, e: nat, f: nat)
    requires CoveredBy(s.pool, s.items, k, e + Ends(k)(Entomb(x)), f)
    ensures After(DoEntomb(s, x), k, e, f)
  {
    hide Sum;
    var o := DoEntomb(s, x);
    SumWork(o.work, Ends(k));
    SumWork(o.work, Finishes(k));
  }

  lemma DeleteCovers(s: State, x: Key, settle: bool, k: Key, e: nat, f: nat, was: nat)
    requires CoveredBy(s.pool, s.items, k, e + was, f) && (was > 0 ==> k == x)
    ensures After(DoDelete(s, x, settle), k, e, f)
  {
    hide Sum;
    var o := DoDelete(s, x, settle);
    SumWork(o.work, Ends(k));
    SumWork(o.work, Finishes(k));
  }

  // A fired timer hands its item to timeoutRelayItem.
  lemma OnTimerCovers(s: State, t: TimerId, k: Key, e: nat, f: nat)
    requires PoolOk(s.pool) && Owned(s.pool, s.items) && Firing(s.pool, t)
    requires CoveredBy(s.pool, s.items, k, e, f)
    ensures After(DoOnTimer(s, t), k, e, f)
  {
    assert TimerOk(s.pool, t);
    hide Sum, PoolOk;
    var o := DoOnTimer(s, t);
    SumWork(o.work, Ends(k));
    SumWork(o.work, Finishes(k));
  }

  lemma ReleaseCovers(s: State, t: TimerId, k: Key, e: nat, f: nat)
    requires CoveredBy(s.pool, s.items, k, e, f)
    ensures CoveredBy(Release(s.pool, t), s.items, k, e, f)
    ensures t in s.pool.timers ==> CoveredBy(Fire(s.pool, t), s.items, k, e, f)
  {
  }

  lemma AddCovers(s: State, x: Key, item: Item, to: Key, k: Key, e: nat, f: nat)
    requires PoolOk(s.pool) && Owned(s.pool, s.items) && Available(s.pool, x.r, item.timer)
    requires CoveredBy(s.pool, s.items, k, e, f)
    ensures CoveredBy(AddItem(s, x, item, to).pool, AddItem(s, x, item, to).items, k, e, f)
  {
    assert item.timer in s.pool.timers ==> TimerOk(s.pool, item.timer);
    hide PoolOk;
  }

  // ---------- every step, every run ----------

  // Tasks that do not touch items or timers.
  predicate Unrelated(t: Task) {
    t.Started? || t.Resolve? || t.CheckRemote? || t.SendOn? || t.End? || t.Dec? || t.Check?
  }

  lemma UnrelatedCovers(s: State, t: Task, ch: Choice, k: Key, e: nat, f: nat)
    requires Unrelated(t) && CoveredBy(s.pool, s.items, k, e, f)
    ensures After(Do(s, t, ch), k, e, f)
  {
    hide Sum, Advance;
  }

  lemma AddTaskCovers(s: State, t: Task, ch: Choice, k: Key, e: nat, f: nat)
    requires PoolOk(s.pool) && Owned(s.pool, s.items) && (t.AddIn? || t.AddOut?) && CanDo(s, t, ch)
    requires CoveredBy(s.pool, s.items, k, e, f)
    ensures After(Do(s, t, ch), k, e, f)
  {
    hide Sum, PoolOk, Owned, AddItem, CoveredBy;
    if t.AddIn? {
      var m := NextID(s, t.d) + 1;
      var s1 := s.(nextID := s.nextID[t.d := m]);
      AddCovers(s1, Key(t.d, Inbound, m), Item(t.r, t.id, false, false, t.call, ch.timer), Key(t.r, Outbound, t.id),
        k, e, f);
    } else {
      AddCovers(s, Key(t.r, Outbound, t.id), Item(t.d, t.m, false, true, t.call, ch.timer), Key(t.d, Inbound, t.m), k,
        e, f);
    }
    MoreCovers(Do(s, t, ch), k, e, f);
  }

  // More work never uncovers an item.
  lemma MoreCovers(o: Outcome, k: Key, e: nat, f: nat)
    requires CoveredBy(o.s.pool, o.s.items, k, e, f)
    ensures After(o, k, e, f)
  {
  }

  lemma TaskCovers(s: State, t: Task, ch: Choice, k: Key, e: nat, f: nat)
    requires PoolOk(s.pool) && Owned(s.pool, s.items) && ReadyToRun(s, t) && CanDo(s, t, ch)
    requires CoveredBy(s.pool, s.items, k, e + Ends(k)(t), f + Finishes(k)(t))
    ensures After(Do(s, t, ch), k, e, f)
  {
    hide PoolOk, Owned, After, CoveredBy, CanDo, DoRecv, DoSendCh, DoFail, DoEntomb, DoDelete, DoOnTimer, DoAddIn,
      DoAddOut, Release, TaskTimed, Firing, Abandoned;
    if t.Recv? {
      RecvCovers(s, t.key, t.finished, t.src, k, e, f);
    } else if t.SendCh? {
      SendChCovers(s, t.key, t.finished, t.src, ch, k, e, f);
    } else if t.Fail? {
      FailCovers(s, t.key, k, e, f);
    } else if t.Entomb? {
      EntombCovers(s, t.key, k, e, f);
    } else if t.Delete? || t.CollectTomb? {
      DeleteCovers(s, t.key, t.Delete?, k, e, f, Ends(k)(t));
    } else if t.OnTimer? {
      OnTimerCovers(s, t.timer, k, e, f);
    } else if t.ReleaseTimer? {
      ReleaseCovers(s, t.timer, k, e, f);
      MoreCovers(Do(s, t, ch), k, e, f);
    } else if t.AddIn? || t.AddOut? {
      AddTaskCovers(s, t, ch, k, e, f);
    } else {
      UnrelatedCovers(s, t, ch, k, e, f);
    }
  }

  lemma EventCovers(s: State, st: Step, k: Key, e: nat, f: nat)
    requires PoolOk(s.pool) && Owned(s.pool, s.items) && Enabled(s, st) && !st.Run?
    requires CoveredBy(s.pool, s.items, k, e, f)
    ensures After(Perform(s, st), k, e, f)
  {
    hide PoolOk, Owned, After, CoveredBy, DoReadFrame, Fire;
    if st.ReadFrame? {
      ReadFrameCovers(s, st.key, st.finishes, k, e, f);
    } else {
      if st.Expire? {
        ReleaseCovers(s, st.timer, k, e, f);
      }
      assert CoveredBy(Perform(s, st).s.pool, Perform(s, st).s.items, k, e, f);
      MoreCovers(Perform(s, st), k, e, f);
    }
  }

  lemma CoveredStep(s: State, st: Step, k: Key)
    requires Timed(s) && Covered(s, k) && Enabled(s, st)
    ensures Covered(Apply(s, st), k)
  {
    hide Timed, Do, Sum, CoveredBy, CanDo, ReadyToRun;
    SumOthers(s, st, Ends(k));
    SumOthers(s, st, Finishes(k));
    SumStep(s, st, Ends(k));
    SumStep(s, st, Finishes(k));
    var e, f := Sum(Others(s, st), Ends(k)), Sum(Others(s, st), Finishes(k));
    if st.Run? {
      ReadyAt(s, st.i);
      TaskCovers(s, s.tasks[st.i], st.choice, k, e, f);
    } else {
      TimedParts(s);
      EventCovers(s, st, k, e, f);
    }
  }

  lemma {:induction false} CoveredRun(s: State, steps: seq<Step>, s': State, k: Key)
    requires Linked(s) && Timed(s) && Covered(s, k) && Reaches(s, steps, s')
    ensures Covered(s', k)
    decreases |steps|
  {
    hide Linked, Timed, Covered, Apply;
    if steps == [] {
    } else {
      LinkedStep(s, steps[0]);
      TimedStep(s, steps[0]);
      CoveredStep(s, steps[0], k);
      CoveredRun(Apply(s, steps[0]), steps[1..], s', k);
    }
  }

  /** In every run, a live item has a timer that is armed, or has fired with its trigger to
      come, or a goroutine is about to entomb or delete it. */
  lemma NoneForgotten(maxTombs: nat, steps: seq<Step>, s: State, k: Key)
    requires Reaches(Init(maxTombs), steps, s) && k in s.items && !s.items[k].tomb
    ensures var t := s.items[k].timer;
      && t in s.pool.timers
      && (s.pool.timers[t].armed || OnTimer(t) in s.tasks || Sum(s.tasks, Ends(k)) + Sum(s.tasks, Finishes(k)) > 0)
  {
    hide Reaches, Linked, Timed, Sum;
    LinkedInit(maxTombs);
    TimedInit(maxTombs);
    assert Covered(Init(maxTombs), k);
    LinkedRun(Init(maxTombs), steps, s);
    TimedRun(Init(maxTombs), steps, s);
    CoveredRun(Init(maxTombs), steps, s, k);
    if Firing(s.pool, s.items[k].timer) {
      FiredHasTrigger(s, s.items[k].timer);
    }
  }

  lemma FiredHasTrigger(s: State, t: TimerId)
    requires Timed(s) && Firing(s.pool, t)
    ensures OnTimer(t) in s.tasks
  {
    assert OneToCome(s, t);
    HasTask(s.tasks, t);
  }

  lemma {:induction false} HasTask(ts: seq<Task>, t: TimerId)
    requires Sum(ts, Fires(t)) > 0
    ensures OnTimer(t) in ts
    decreases |ts|
  {
    if ts[0] == OnTimer(t) {
    } else {
      HasTask(ts[1..], t);
    }
  }
}
