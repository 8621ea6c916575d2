/** The timer protocol: no timer method panics, a timer runs or is stopped but not
    both, and no timer in the pool is still in use. */
module RelayTimerSafety {
  import opened Bags
  import opened CloseMachine
  import opened RelayTimers
  import opened RelayModel
  import opened RelayCounting
  import opened RelayLinks
  import opened RelayPending

  // Every item holds a timer of its own.
  predicate Owned(p: Pool, items: Items) {
    && (forall k :: k in items ==> items[k].timer in p.timers && p.timers[items[k].timer].owner == HeldBy(k))
    && (forall t :: t in p.timers && p.timers[t].owner.HeldBy? ==>
          p.timers[t].owner.key in items && items[p.timers[t].owner.key].timer == t)
  }

  // The item's timer, if the item is still there, has run or been stopped.
  predicate Quieted(p: Pool, items: Items, k: Key) {
    k in items && items[k].timer in p.timers ==> !p.timers[items[k].timer].active
  }

  predicate TaskTimed(p: Pool, items: Items, t: Task) {
    match t
    case Recv(_, finished, src) => finished ==> Quieted(p, items, src)
    case SendCh(k, finished, src) => finished ==> Quieted(p, items, k) && Quieted(p, items, src)
    case Entomb(k) => Quieted(p, items, k)
    case Delete(k) => Quieted(p, items, k)
    case CollectTomb(k) => Quieted(p, items, k)
    case _ => true
  }

  predicate TasksTimed(p: Pool, items: Items, tasks: seq<Task>) {
    forall i :: 0 <= i < |tasks| ==> TaskTimed(p, items, tasks[i])
  }

  predicate Abandoned(p: Pool, t: TimerId) {
    t in p.timers && p.timers[t].owner == Releasing
  }

  function Fires(t: TimerId): (w: Task -> nat) {
    (task: Task) => One(task == OnTimer(t))
  }

  function Releases(t: TimerId): (w: Task -> nat) {
    (task: Task) => One(task == ReleaseTimer(t))
  }

  // A timer that has fired has one OnTimer to come, an abandoned one has one Release.
  predicate OneToCome(s: State, t: TimerId) {
    && Sum(s.tasks, Fires(t)) == One(Firing(s.pool, t))
    && Sum(s.tasks, Releases(t)) == One(Abandoned(s.pool, t))
  }

  ghost predicate Timed(s: State) {
    && PoolOk(s.pool)
    && Owned(s.pool, s.items)
    && TasksTimed(s.pool, s.items, s.tasks)
    && (forall t :: OneToCome(s, t))
  }

  // ---------- one outcome ----------

  // Keys that have held an item do not get an active timer again.
  predicate StaysQuiet(s: State, o: Outcome, k: Key) {
    Quieted(s.pool, s.items, k) ==> Quieted(o.s.pool, o.s.items, k)
  }

  ghost predicate Safe(s: State, o: Outcome) {
    && PoolOk(o.s.pool)
    && Owned(o.s.pool, o.s.items)
    && TasksTimed(o.s.pool, o.s.items, o.work)
    && (forall k :: k in s.log.link ==> StaysQuiet(s, o, k))
  }

  predicate BalancesTimer(s: State, fires: nat, releases: nat, o: Outcome, t: TimerId) {
    && One(Firing(o.s.pool, t)) + fires == One(Firing(s.pool, t)) + Sum(o.work, Fires(t))
    && One(Abandoned(o.s.pool, t)) + releases == One(Abandoned(s.pool, t)) + Sum(o.work, Releases(t))
  }

  // Tasks that neither run nor release a timer.
  predicate Timeless(work: seq<Task>) {
    forall i :: 0 <= i < |work| ==> !work[i].OnTimer? && !work[i].ReleaseTimer?
  }

  lemma TimelessSums(work: seq<Task>, t: TimerId)
    requires Timeless(work)
    ensures Sum(work, Fires(t)) == 0 && Sum(work, Releases(t)) == 0
  {
    SumZero(work, Fires(t));
    SumZero(work, Releases(t));
  }

  // items.Get(id, true)
  lemma GetSafe(s: State, k: Key, work: seq<Task>, t: TimerId)
    requires PoolOk(s.pool) && Owned(s.pool, s.items) && k in s.items
    requires Timeless(work) && TasksTimed(GetItem(s, k, true).pool, s.items, work)
    ensures Safe(s, Outcome(GetItem(s, k, true), work))
    ensures BalancesTimer(s, 0, 0, Outcome(GetItem(s, k, true), work), t)
  {
    hide PoolOk, TasksTimed;
    StopOk(s.pool, s.items[k].timer);
    StopQuiets(s.pool, s.items[k].timer);
    TimelessSums(work, t);
  }

  // Stopping changes no owner, activates nothing and cuts off no trigger on its way.
  lemma StopQuiets(p: Pool, t: TimerId)
    requires t in p.timers && PoolOk(p)
    ensures forall u :: u in Stop(p, t).timers <==> u in p.timers
    ensures forall u :: u in p.timers ==>
      Stop(p, t).timers[u].owner == p.timers[u].owner && (Stop(p, t).timers[u].active ==> p.timers[u].active)
    ensures forall u :: Firing(Stop(p, t), u) <==> Firing(p, u)
  {
    assert TimerOk(p, t);
  }

  // The pool and the items are left as they are.
  lemma SameSafe(s: State, o: Outcome, t: TimerId)
    requires PoolOk(s.pool) && Owned(s.pool, s.items)
    requires o.s.pool == s.pool && o.s.items == s.items
    requires Timeless(o.work) && TasksTimed(s.pool, s.items, o.work)
    ensures Safe(s, o) && BalancesTimer(s, 0, 0, o, t)
  {
    hide PoolOk, Owned, TasksTimed, Timeless;
    TimelessSums(o.work, t);
  }

  // A stopped timer is quiet.
  lemma StopQuietsKey(s: State, k: Key)
    requires PoolOk(s.pool) && Owned(s.pool, s.items) && k in s.items && Stops(s.pool, s.items[k].timer)
    ensures Quieted(Stop(s.pool, s.items[k].timer), s.items, k)
  {
    StopOk(s.pool, s.items[k].timer);
  }

  lemma KeepsQuiet(s: State, k: Key, x: Key)
    requires PoolOk(s.pool) && Owned(s.pool, s.items) && k in s.items && Quieted(s.pool, s.items, x)
    ensures Quieted(Stop(s.pool, s.items[k].timer), s.items, x)
  {
    hide PoolOk;
    StopQuiets(s.pool, s.items[k].timer);
  }

  lemma RecvSafe(s: State, k: Key, finished: bool, src: Key, t: TimerId)
    requires PoolOk(s.pool) && Owned(s.pool, s.items)
    requires finished ==> Quieted(s.pool, s.items, src)
    ensures Safe(s, DoRecv(s, k, finished, src))
    ensures BalancesTimer(s, 0, 0, DoRecv(s, k, finished, src), t)
  {
    hide PoolOk, Owned, Safe, BalancesTimer, Stop, Stops, Quieted;
    var o := DoRecv(s, k, finished, src);
    if k in s.items && finished {
      KeepsQuiet(s, k, src);
      if Stops(s.pool, s.items[k].timer) {
        StopQuietsKey(s, k);
      }
      GetSafe(s, k, o.work, t);
    } else {
      SameSafe(s, o, t);
    }
  }

  lemma ReadFrameSafe(s: State, k: Key, finishes: bool, t: TimerId)
    requires PoolOk(s.pool) && Owned(s.pool, s.items)
    ensures Safe(s, DoReadFrame(s, k, finishes))
    ensures BalancesTimer(s, 0, 0, DoReadFrame(s, k, finishes), t)
  {
    hide PoolOk, Owned, Safe, BalancesTimer, Stop, Stops, Quieted;
    var o := DoReadFrame(s, k, finishes);
    if k in s.items && finishes {
      if Stops(s.pool, s.items[k].timer) {
        StopQuietsKey(s, k);
      }
      GetSafe(s, k, o.work, t);
    } else {
      SameSafe(s, o, t);
    }
  }

  lemma FailSafe(s: State, k: Key, t: TimerId)
    requires PoolOk(s.pool) && Owned(s.pool, s.items)
    ensures Safe(s, DoFail(s, k))
    ensures BalancesTimer(s, 0, 0, DoFail(s, k), t)
  {
    hide PoolOk, Owned, Safe, BalancesTimer, Stop, Stops, Quieted;
    var o := DoFail(s, k);
    if k in s.items {
      if Stops(s.pool, s.items[k].timer) {
        StopQuietsKey(s, k);
      }
      GetSafe(s, k, o.work, t);
    } else {
      SameSafe(s, o, t);
    }
  }

  // Entombing an item keeps its timer.
  lemma EntombKeeps(p: Pool, items: Items, k: Key, item: Item)
    requires Owned(p, items) && k in items && item.timer == items[k].timer
    ensures Owned(p, items[k := item])
    ensures forall x :: Quieted(p, items, x) ==> Quieted(p, items[k := item], x)
  {
  }

  lemma EntombSafe(s: State, k: Key, t: TimerId)
    requires PoolOk(s.pool) && Owned(s.pool, s.items) && Quieted(s.pool, s.items, k)
    ensures Safe(s, DoEntomb(s, k))
    ensures BalancesTimer(s, 0, 0, DoEntomb(s, k), t)
  {
    hide PoolOk, Owned, Quieted, Firing, Abandoned;
    if k in s.items {
      EntombKeeps(s.pool, s.items, k, s.items[k].(tomb := true));
    }
    TimelessSums(DoEntomb(s, k).work, t);
  }

  // Deleting an item abandons its timer and no other.
  lemma DeleteKeeps(p: Pool, items: Items, k: Key)
    requires Owned(p, items) && k in items
    ensures Owned(Abandon(p, items[k].timer), items - {k})
    ensures forall x :: Quieted(p, items, x) ==> Quieted(Abandon(p, items[k].timer), items - {k}, x)
    ensures forall u :: Firing(Abandon(p, items[k].timer), u) == Firing(p, u)
    ensures forall u :: One(Abandoned(Abandon(p, items[k].timer), u)) == One(Abandoned(p, u)) + One(u == items[k].timer)
  {
  }

  lemma DeletePool(p: Pool, items: Items, k: Key)
    requires PoolOk(p) && Owned(p, items) && k in items && Quieted(p, items, k)
    ensures PoolOk(Abandon(p, items[k].timer))
  {
    hide PoolOk;
    AbandonOk(p, items[k].timer);
  }

  lemma DeleteSafe(s: State, k: Key, settle: bool, t: TimerId)
    requires PoolOk(s.pool) && Owned(s.pool, s.items) && Quieted(s.pool, s.items, k)
    ensures Safe(s, DoDelete(s, k, settle))
    ensures BalancesTimer(s, 0, 0, DoDelete(s, k, settle), t)
  {
    hide PoolOk, Owned, Quieted, Firing, Abandoned, Abandon;
    var o := DoDelete(s, k, settle);
    if k in s.items {
      DeletePool(s.pool, s.items, k);
      DeleteKeeps(s.pool, s.items, k);
      assert forall x :: x in s.log.link ==> StaysQuiet(s, o, x);
    }
    SumWork(o.work, Fires(t));
    SumWork(o.work, Releases(t));
  }

  // Adding an item takes a timer nobody holds.
  lemma AddOwns(p: Pool, items: Items, k: Key, item: Item)
    requires Owned(p, items) && (item.timer in p.timers ==> p.timers[item.timer].owner == Free) && k !in items
    ensures Owned(GetAndStart(p, item.timer, k), items[k := item])
  {
  }

  lemma AddQuiet(p: Pool, items: Items, k: Key, item: Item, x: Key)
    requires Owned(p, items) && (item.timer in p.timers ==> p.timers[item.timer].owner == Free)
    requires x != k && Quieted(p, items, x)
    ensures Quieted(GetAndStart(p, item.timer, k), items[k := item], x)
  {
  }

  lemma AddFires(p: Pool, t: TimerId, k: Key, u: TimerId)
    requires t in p.timers ==> p.timers[t].owner == Free && !p.timers[t].active
    ensures Firing(GetAndStart(p, t, k), u) == Firing(p, u)
    ensures Abandoned(GetAndStart(p, t, k), u) == Abandoned(p, u)
  {
  }

  lemma AddKeeps(p: Pool, items: Items, k: Key, item: Item)
    requires PoolOk(p) && Owned(p, items) && Available(p, k.r, item.timer) && k !in items
    ensures var p' := GetAndStart(p, item.timer, k);
      && PoolOk(p') && Owned(p', items[k := item])
      && (forall x :: x != k && Quieted(p, items, x) ==> Quieted(p', items[k := item], x))
      && (forall u :: Firing(p', u) == Firing(p, u))
      && (forall u :: Abandoned(p', u) == Abandoned(p, u))
  {
    assert item.timer in p.timers ==> TimerOk(p, item.timer);
    hide PoolOk, Owned, Quieted, Firing, Abandoned, GetAndStart;
    GetAndStartOk(p, item.timer, k);
    AddOwns(p, items, k, item);
    forall x | x != k && Quieted(p, items, x)
      ensures Quieted(GetAndStart(p, item.timer, k), items[k := item], x)
    {
      AddQuiet(p, items, k, item, x);
    }
    forall u
      ensures Firing(GetAndStart(p, item.timer, k), u) == Firing(p, u)
      ensures Abandoned(GetAndStart(p, item.timer, k), u) == Abandoned(p, u)
    {
      AddFires(p, item.timer, k, u);
    }
  }

  lemma AddItemSafe(s: State, k: Key, item: Item, to: Key, work: seq<Task>, t: TimerId)
    requires PoolOk(s.pool) && Owned(s.pool, s.items) && Available(s.pool, k.r, item.timer)
    requires k !in s.items && k !in s.log.link
    requires |work| == 1 && (work[0].AddOut? || work[0].SendOn?)
    ensures Safe(s, Outcome(AddItem(s, k, item, to), work))
    ensures BalancesTimer(s, 0, 0, Outcome(AddItem(s, k, item, to), work), t)
  {
    hide PoolOk, Owned, Quieted, Firing, Abandoned, GetAndStart;
    AddKeeps(s.pool, s.items, k, item);
    TimelessSums(work, t);
  }

  lemma AddSafe(s: State, task: Task, ch: Choice, t: TimerId)
    requires PoolOk(s.pool) && Owned(s.pool, s.items)
    requires (task.AddIn? || task.AddOut?) && CanDo(s, task, ch) && AddsFresh(s, task) && AddsUnlinked(s, task)
    ensures Safe(s, Do(s, task, ch))
    ensures BalancesTimer(s, 0, 0, Do(s, task, ch), t)
  {
    hide PoolOk, Owned, Available, AddItem, BalancesTimer, Safe;
    var work := Do(s, task, ch).work;
    if task.AddIn? {
      var m := NextID(s, task.d) + 1;
      var s1 := s.(nextID := s.nextID[task.d := m]);
      var kin, ko, item := Key(task.d, Inbound, m), Key(task.r, Outbound, task.id),
        Item(task.r, task.id, false, false, task.call, ch.timer);
      AddItemSafe(s1, kin, item, ko, work, t);
      SameTables(s1, s, Do(s, task, ch), t);
    } else {
      var kin, ko := Key(task.d, Inbound, task.m), Key(task.r, Outbound, task.id);
      AddItemSafe(s, ko, Item(task.d, task.m, false, true, task.call, ch.timer), kin, work, t);
    }
  }

  lemma SameTables(s1: State, s: State, o: Outcome, t: TimerId)
    requires Safe(s1, o) && BalancesTimer(s1, 0, 0, o, t)
    requires s1.pool == s.pool && s1.items == s.items && s1.log == s.log
    ensures Safe(s, o) && BalancesTimer(s, 0, 0, o, t)
  {
    hide PoolOk, Owned, TasksTimed;
    assert forall k :: StaysQuiet(s, o, k) == StaysQuiet(s1, o, k);
  }

  lemma TriggerSafe(s: State, tm: TimerId, t: TimerId)
    requires PoolOk(s.pool) && Owned(s.pool, s.items) && Firing(s.pool, tm)
    ensures Safe(s, DoOnTimer(s, tm))
    ensures BalancesTimer(s, One(tm == t), 0, DoOnTimer(s, tm), t)
  {
    assert TimerOk(s.pool, tm);
    hide PoolOk;
    RunTriggerOk(s.pool, tm);
    TimelessSums(DoOnTimer(s, tm).work, t);
  }

  lemma ReleaseSafe(s: State, tm: TimerId, t: TimerId)
    requires PoolOk(s.pool) && Owned(s.pool, s.items) && Abandoned(s.pool, tm)
    ensures Safe(s, Outcome(s.(pool := Release(s.pool, tm)), []))
    ensures BalancesTimer(s, 0, One(tm == t), Outcome(s.(pool := Release(s.pool, tm)), []), t)
  {
    hide PoolOk;
    ReleaseOk(s.pool, tm);
  }

  lemma ExpireSafe(s: State, tm: TimerId, t: TimerId)
    requires PoolOk(s.pool) && Owned(s.pool, s.items) && tm in s.pool.timers && s.pool.timers[tm].armed
    ensures Safe(s, Outcome(s.(pool := Fire(s.pool, tm)), [OnTimer(tm)]))
    ensures BalancesTimer(s, 0, 0, Outcome(s.(pool := Fire(s.pool, tm)), [OnTimer(tm)]), t)
  {
    assert TimerOk(s.pool, tm);
    hide PoolOk;
    FireOk(s.pool, tm);
    SumOne(OnTimer(tm), Fires(t));
    SumOne(OnTimer(tm), Releases(t));
  }

  // ---------- every step, every run ----------

  lemma OneToComeAt(s: State, i: nat)
    requires i < |s.tasks| && forall t :: OneToCome(s, t)
    ensures s.tasks[i].OnTimer? ==> Firing(s.pool, s.tasks[i].timer)
    ensures s.tasks[i].ReleaseTimer? ==> Abandoned(s.pool, s.tasks[i].timer)
  {
    var task := s.tasks[i];
    if task.OnTimer? || task.ReleaseTimer? {
      assert OneToCome(s, task.timer);
      SumAtLeast(s.tasks, i, Fires(task.timer));
      SumAtLeast(s.tasks, i, Releases(task.timer));
    }
  }

  predicate TouchesTimers(t: Task) {
    t.Recv? || t.Fail? || t.Entomb? || t.Delete? || t.CollectTomb? || t.AddIn? || t.AddOut? || t.OnTimer?
      || t.ReleaseTimer?
  }

  // The tasks that leave items and timers alone.
  lemma OtherSame(s: State, task: Task, ch: Choice)
    requires !TouchesTimers(task) && TaskTimed(s.pool, s.items, task)
    ensures var o := Do(s, task, ch);
      o.s.pool == s.pool && o.s.items == s.items && Timeless(o.work) && TasksTimed(s.pool, s.items, o.work)
  {
    hide Quieted, Advance;
  }

  predicate ReadyToRun(s: State, task: Task) {
    && TaskTimed(s.pool, s.items, task)
    && (task.OnTimer? ==> Firing(s.pool, task.timer))
    && (task.ReleaseTimer? ==> Abandoned(s.pool, task.timer))
  }

  // Tasks on items: forwarding, failing, entombing and deleting.
  lemma ItemTaskSafe(s: State, task: Task, ch: Choice, t: TimerId)
    requires PoolOk(s.pool) && Owned(s.pool, s.items) && TaskTimed(s.pool, s.items, task)
    requires task.Recv? || task.Fail? || task.Entomb? || task.Delete? || task.CollectTomb?
    ensures Safe(s, Do(s, task, ch))
    ensures BalancesTimer(s, 0, 0, Do(s, task, ch), t)
  {
    hide PoolOk, Owned, Safe, BalancesTimer, Quieted, DoRecv, DoFail, DoEntomb, DoDelete;
    if task.Recv? {
      RecvSafe(s, task.key, task.finished, task.src, t);
    } else if task.Fail? {
      FailSafe(s, task.key, t);
    } else if task.Entomb? {
      EntombSafe(s, task.key, t);
    } else {
      DeleteSafe(s, task.key, task.Delete?, t);
    }
  }

  lemma TaskSafe(s: State, task: Task, ch: Choice, t: TimerId)
    requires PoolOk(s.pool) && Owned(s.pool, s.items) && ReadyToRun(s, task)
    requires CanDo(s, task, ch) && AddsFresh(s, task) && AddsUnlinked(s, task)
    ensures Safe(s, Do(s, task, ch))
    ensures BalancesTimer(s, Fires(t)(task), Releases(t)(task), Do(s, task, ch), t)
  {
    hide PoolOk, Owned, Safe, BalancesTimer, Firing, Abandoned, CanDo, AddsFresh, AddsUnlinked, DoRecv, DoFail,
      DoEntomb, DoDelete, DoAddIn, DoAddOut, DoOnTimer, Release, TaskTimed;
    if task.AddIn? || task.AddOut? {
      AddSafe(s, task, ch, t);
    } else if task.OnTimer? {
      TriggerSafe(s, task.timer, t);
    } else if task.ReleaseTimer? {
      ReleaseSafe(s, task.timer, t);
    } else if TouchesTimers(task) {
      ItemTaskSafe(s, task, ch, t);
    } else {
      OtherSame(s, task, ch);
      SameSafe(s, Do(s, task, ch), t);
    }
  }

  lemma ReadyAt(s: State, i: nat)
    requires Timed(s) && i < |s.tasks|
    ensures PoolOk(s.pool) && Owned(s.pool, s.items) && ReadyToRun(s, s.tasks[i])
  {
    assert TaskTimed(s.pool, s.items, s.tasks[i]);
    OneToComeAt(s, i);
  }

  lemma EventSafe(s: State, st: Step, t: TimerId)
    requires PoolOk(s.pool) && Owned(s.pool, s.items) && Enabled(s, st) && !st.Run?
    ensures Safe(s, Perform(s, st))
    ensures BalancesTimer(s, 0, 0, Perform(s, st), t)
  {
    hide PoolOk, Owned, Safe, BalancesTimer, DoReadFrame, Fire;
    if st.ReadFrame? {
      ReadFrameSafe(s, st.key, st.finishes, t);
    } else if st.Expire? {
      ExpireSafe(s, st.timer, t);
    } else {
      SameSafe(s, Perform(s, st), t);
    }
  }

  lemma TimedParts(s: State)
    requires Timed(s)
    ensures PoolOk(s.pool) && Owned(s.pool, s.items)
  {
  }

  lemma StepSafe(s: State, st: Step, t: TimerId)
    requires Linked(s) && Timed(s) && Enabled(s, st)
    ensures Safe(s, Perform(s, st))
    ensures BalancesTimer(s, Taken(s, st, Fires(t)), Taken(s, st, Releases(t)), Perform(s, st), t)
  {
    hide Linked, Timed, Safe, BalancesTimer, Do, CanDo;
    if st.Run? {
      AddsUnlinkedFresh(s, st);
      ReadyAt(s, st.i);
      TaskSafe(s, s.tasks[st.i], st.choice, t);
    } else {
      TimedParts(s);
      EventSafe(s, st, t);
    }
  }

  lemma TimedTasks(s: State, st: Step)
    requires TasksTimed(s.pool, s.items, s.tasks) && TasksLinked(s.tasks, s.log.link)
    requires Enabled(s, st) && Safe(s, Perform(s, st))
    ensures TasksTimed(Perform(s, st).s.pool, Perform(s, st).s.items, Apply(s, st).tasks)
  {
    hide Perform, PoolOk, Owned, Quieted;
    var o := Perform(s, st);
    forall i | 0 <= i < |Others(s, st)|
      ensures TaskTimed(o.s.pool, o.s.items, Others(s, st)[i])
    {
      var j := if st.Run? && i >= st.i then i + 1 else i;
      assert Others(s, st)[i] == s.tasks[j];
      TimedTask(s, o, s.tasks[j]);
    }
  }

  lemma TimedTask(s: State, o: Outcome, task: Task)
    requires TaskTimed(s.pool, s.items, task) && TaskLinked(s.log.link, task)
    requires forall k :: k in s.log.link ==> StaysQuiet(s, o, k)
    ensures TaskTimed(o.s.pool, o.s.items, task)
  {
    hide Quieted;
    if task.Recv? || task.SendCh? {
      assert StaysQuiet(s, o, task.src);
    }
    if task.SendCh? || task.Entomb? || task.Delete? || task.CollectTomb? {
      assert StaysQuiet(s, o, task.key);
    }
  }

  lemma OneAt(s: State, t: TimerId)
    requires Timed(s)
    ensures OneToCome(s, t)
  {
  }

  lemma TimedOne(s: State, st: Step, t: TimerId)
    requires Linked(s) && Timed(s) && Enabled(s, st)
    ensures OneToCome(Apply(s, st), t)
  {
    hide Linked, Timed, Perform, Sum, Firing, Abandoned, Safe;
    OneAt(s, t);
    StepSafe(s, st, t);
    SumStep(s, st, Fires(t));
    SumStep(s, st, Releases(t));
  }

  lemma TimedStep(s: State, st: Step)
    requires Linked(s) && Timed(s) && Enabled(s, st)
    ensures Timed(Apply(s, st))
  {
    hide Linked, Perform, PoolOk, Owned, OneToCome, TasksTimed;
    LinkedParts(s);
    StepSafe(s, st, 0);
    TimedTasks(s, st);
    var s' := Apply(s, st);
    forall t
      ensures OneToCome(s', t)
    {
      TimedOne(s, st, t);
    }
  }

  lemma TimedInit(maxTombs: nat)
    ensures Timed(Init(maxTombs))
  {
    var p := Init(maxTombs).pool;
    assert forall x :: RunsOnce(p.ran, p.stops, x);
    forall t
      ensures OneToCome(Init(maxTombs), t)
    {
    }
  }

  lemma {:induction false} TimedRun(s: State, steps: seq<Step>, s': State)
    requires Linked(s) && Timed(s) && Reaches(s, steps, s')
    ensures Timed(s')
    decreases |steps|
  {
    hide Linked, Timed, Apply;
    if steps == [] {
    } else {
      LinkedStep(s, steps[0]);
      TimedStep(s, steps[0]);
      TimedRun(Apply(s, steps[0]), steps[1..], s');
    }
  }

  lemma ReachableTimed(maxTombs: nat, steps: seq<Step>, s: State)
    requires Reaches(Init(maxTombs), steps, s)
    ensures Timed(s)
  {
    hide Reaches, Init, Linked, Timed;
    LinkedInit(maxTombs);
    TimedInit(maxTombs);
    TimedRun(Init(maxTombs), steps, s);
  }

  /** In every run: no timer method is called in a state where it panics; each start of
      a timer runs its trigger at most once, and not at all if it was reported stopped;
      every item holds an unreleased timer of its own; and a timer in the pool is held
      by nobody, cannot fire and has no trigger on its way. */
  lemma TimersSafe(maxTombs: nat, steps: seq<Step>, s: State)
    requires Reaches(Init(maxTombs), steps, s)
    ensures !s.pool.panicked
    ensures forall x :: RunsOnce(s.pool.ran, s.pool.stops, x)
    ensures forall k :: k in s.items ==>
      s.items[k].timer in s.pool.timers && !s.pool.timers[s.items[k].timer].released
        && s.items[k].timer !in s.pool.pooled
    ensures forall k, k' :: k in s.items && k' in s.items && s.items[k].timer == s.items[k'].timer ==> k == k'
    ensures forall t :: t in s.pool.pooled ==> t in s.pool.timers && !s.pool.timers[t].armed && OnTimer(t) !in s.tasks
  {
    hide Reaches, Timed;
    ReachableTimed(maxTombs, steps, s);
    TimedMeans(s);
  }

  lemma TimedMeans(s: State)
    requires Timed(s)
    ensures !s.pool.panicked
    ensures forall x :: RunsOnce(s.pool.ran, s.pool.stops, x)
    ensures forall k :: k in s.items ==>
      s.items[k].timer in s.pool.timers && !s.pool.timers[s.items[k].timer].released
        && s.items[k].timer !in s.pool.pooled
    ensures forall k, k' :: k in s.items && k' in s.items && s.items[k].timer == s.items[k'].timer ==> k == k'
    ensures forall t :: t in s.pool.pooled ==> t in s.pool.timers && !s.pool.timers[t].armed && OnTimer(t) !in s.tasks
  {
    forall k | k in s.items
      ensures s.items[k].timer in s.pool.timers && TimerOk(s.pool, s.items[k].timer)
    {
    }
    forall t | t in s.pool.pooled
      ensures t in s.pool.timers && !s.pool.timers[t].armed && OnTimer(t) !in s.tasks
    {
      assert TimerOk(s.pool, t) && OneToCome(s, t);
      if OnTimer(t) in s.tasks {
        var i :| 0 <= i < |s.tasks| && s.tasks[i] == OnTimer(t);
        SumAtLeast(s.tasks, i, Fires(t));
      }
    }
  }
}
