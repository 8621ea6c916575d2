/** Remapped IDs: every item is installed once, and the two items of a call point
    at each other and at nothing else. */
module RelayLinks {
  import opened Bags
  import opened CloseMachine
  import opened RelayTimers
  import opened RelayModel
  import opened RelayCounting

  // The outbound item a thread has been cleared to add and has not added yet.
  function ClaimOf(t: Task): (k: MaybeKey) {
    match t
    case CheckRemote(r, id, _, _) => ForKey(Key(r, Outbound, id))
    case AddIn(r, id, _, _) => ForKey(Key(r, Outbound, id))
    case AddOut(r, id, _, _, _) => ForKey(Key(r, Outbound, id))
    case _ => NoKey
  }

  function Claims(k: Key): (w: Task -> nat) {
    t => One(ClaimOf(t) == ForKey(k))
  }

  // A claimed key has one claimant and has never held an item.
  predicate ClaimedOnce(tasks: seq<Task>, used: set<Key>, link: Links, k: Key) {
    Sum(tasks, Claims(k)) <= One(k in used && k !in link)
  }

  ghost predicate AllClaimedOnce(tasks: seq<Task>, used: set<Key>, link: Links) {
    forall k :: ClaimedOnce(tasks, used, link, k)
  }

  // No item forwards to this key.
  predicate Unlinked(link: Links, k: Key) {
    forall x :: x in link ==> link[x] != k
  }

  predicate TaskLinked(link: Links, t: Task) {
    match t
    case CheckRemote(r, id, _, _) => Unlinked(link, Key(r, Outbound, id))
    case AddIn(r, id, _, _) => Unlinked(link, Key(r, Outbound, id))
    case AddOut(r, id, _, d, m) =>
      Key(d, Inbound, m) in link && link[Key(d, Inbound, m)] == Key(r, Outbound, id)
    case SendOn(k, src) => src in link && link[src] == k
    case Recv(k, _, src) => src in link && link[src] == k
    case SendCh(k, _, src) => src in link && link[src] == k && k in link
    case Fail(k) => k in link
    case Entomb(k) => k in link
    case Delete(k) => k in link
    case CollectTomb(k) => k in link
    case _ => true
  }

  predicate TasksLinked(tasks: seq<Task>, link: Links) {
    forall i :: 0 <= i < |tasks| ==> TaskLinked(link, tasks[i])
  }

  /** `link` is its own inverse, is injective and joins an inbound and an outbound key. */
  predicate Paired(link: Links, used: set<Key>) {
    && (forall k :: k in link ==> k in used && link[k] in used && link[k].dir == Opposite(k.dir))
    && (forall k :: k in link && link[k] in link ==> link[link[k]] == k)
    && (forall k, k' :: k in link && k' in link && link[k] == link[k'] ==> k == k')
  }

  // Items forward along `link`.
  predicate ItemsLinked(items: Items, link: Links) {
    forall k :: k in items ==>
      k in link && Target(k, items[k]) == link[k] && items[k].isOriginator == (k.dir == Outbound)
  }

  predicate IDsSpent(used: set<Key>, nextID: map<RelayerId, nat>) {
    forall k :: k in used && k.dir == Inbound ==> k.r in nextID && k.id <= nextID[k.r]
  }

  predicate DeliveredLinked(delivered: set<(Key, Key)>, link: Links) {
    forall p :: p in delivered ==> p.0 in link && link[p.0] == p.1
  }

  predicate TimersLinked(timers: map<TimerId, Timer>, link: Links) {
    forall t :: t in timers && timers[t].items.ForKey? ==> timers[t].items.key in link
  }

  // The two items of a pair belong to the same call.
  predicate CallsAgree(items: Items, link: Links) {
    forall k :: k in items && k in link && link[k] in items ==> items[link[k]].call == items[k].call
  }

  predicate TasksAgree(tasks: seq<Task>, items: Items) {
    forall i :: 0 <= i < |tasks| ==> TaskAgrees(tasks[i], items)
  }

  predicate TaskAgrees(t: Task, items: Items) {
    t.AddOut? && Key(t.d, Inbound, t.m) in items ==> items[Key(t.d, Inbound, t.m)].call == t.call
  }

  ghost predicate Linked(s: State) {
    && Paired(s.log.link, s.log.used)
    && TimersLinked(s.pool.timers, s.log.link)
    && ItemsLinked(s.items, s.log.link)
    && IDsSpent(s.log.used, s.nextID)
    && DeliveredLinked(s.log.delivered, s.log.link)
    && TasksLinked(s.tasks, s.log.link)
    && CallsAgree(s.items, s.log.link)
    && TasksAgree(s.tasks, s.items)
    && AllClaimedOnce(s.tasks, s.log.used, s.log.link)
  }

  // ---------- claims ----------

  /** Only one thread is ever about to add a given outbound item. */
  lemma SoleClaimant(s: State, st: Step, k: Key)
    requires Enabled(s, st) && st.Run? && ClaimOf(s.tasks[st.i]) == ForKey(k)
    requires AllClaimedOnce(s.tasks, s.log.used, s.log.link)
    ensures k in s.log.used && k !in s.log.link
    ensures Sum(Others(s, st), Claims(k)) == 0
    ensures forall j :: 0 <= j < |Others(s, st)| ==> ClaimOf(Others(s, st)[j]) != ForKey(k)
  {
    assert ClaimedOnce(s.tasks, s.log.used, s.log.link, k);
    SumAtLeast(s.tasks, st.i, Claims(k));
    SumOthers(s, st, Claims(k));
    var rest := Others(s, st);
    forall j | 0 <= j < |rest|
      ensures ClaimOf(rest[j]) != ForKey(k)
    {
      SumAtLeast(rest, j, Claims(k));
    }
  }

  predicate NoClaims(work: seq<Task>) {
    forall i :: 0 <= i < |work| ==> ClaimOf(work[i]) == NoKey
  }

  // Work without claims does not change who claims what.
  lemma ClaimsStep(s: State, st: Step)
    requires Enabled(s, st)
    requires AllClaimedOnce(s.tasks, s.log.used, s.log.link)
    requires NoClaims(Perform(s, st).work)
    ensures AllClaimedOnce(Apply(s, st).tasks, s.log.used, s.log.link)
  {
    forall k
      ensures ClaimedOnce(Apply(s, st).tasks, s.log.used, s.log.link, k)
    {
      assert ClaimedOnce(s.tasks, s.log.used, s.log.link, k);
      SumStep(s, st, Claims(k));
      SumZero(Perform(s, st).work, Claims(k));
    }
  }

  lemma TasksLinkedStep(s: State, st: Step, link: Links)
    requires Enabled(s, st)
    requires TasksLinked(Others(s, st), link) && TasksLinked(Perform(s, st).work, link)
    ensures TasksLinked(Apply(s, st).tasks, link)
  {
    hide Perform, Others;
  }

  lemma OthersLinked(s: State, st: Step)
    requires Enabled(s, st) && TasksLinked(s.tasks, s.log.link)
    ensures TasksLinked(Others(s, st), s.log.link)
  {
    hide TaskLinked;
  }

  // ---------- steps that add no item ----------

  predicate SameRoutes(items: Items, items': Items) {
    forall k :: k in items' ==>
      k in items && items'[k].dest == items[k].dest && items'[k].remapID == items[k].remapID &&
      items'[k].isOriginator == items[k].isOriginator && items'[k].call == items[k].call
  }

  /** An outcome that adds no item and leaves work along existing links. */
  predicate Quiet(s: State, o: Outcome) {
    && o.s.log.link == s.log.link && o.s.log.used == s.log.used && o.s.nextID == s.nextID
    && SameRoutes(s.items, o.s.items)
    && TimersLinked(o.s.pool.timers, s.log.link)
    && (forall p :: p in o.s.log.delivered ==> p in s.log.delivered || (p.0 in s.log.link && s.log.link[p.0] == p.1))
    && TasksLinked(o.work, s.log.link) && NoClaims(o.work)
  }

  lemma QuietAgrees(s: State, st: Step)
    requires Linked(s) && Enabled(s, st)
    requires Quiet(s, Perform(s, st))
    ensures CallsAgree(Apply(s, st).items, s.log.link)
    ensures TasksAgree(Apply(s, st).tasks, Apply(s, st).items)
  {
    hide AllClaimedOnce, Paired, IDsSpent, Perform, TasksLinked, TimersLinked, DeliveredLinked;
  }

  lemma QuietStep(s: State, st: Step)
    requires Linked(s) && Enabled(s, st)
    requires Quiet(s, Perform(s, st))
    ensures Linked(Apply(s, st))
  {
    hide AllClaimedOnce, Paired, IDsSpent, Perform, Others, CallsAgree, TasksAgree;
    QuietAgrees(s, st);
    ClaimsStep(s, st);
    OthersLinked(s, st);
    TasksLinkedStep(s, st, s.log.link);
  }

  lemma PoolLinked(p: Pool, t: TimerId, link: Links)
    requires TimersLinked(p.timers, link)
    ensures TimersLinked(Stop(p, t).timers, link)
    ensures TimersLinked(RunTrigger(p, t).timers, link)
    ensures TimersLinked(Abandon(p, t).timers, link)
    ensures TimersLinked(Release(p, t).timers, link)
    ensures t in p.timers ==> TimersLinked(Fire(p, t).timers, link)
  {
  }

  lemma QuietGet(s: State, k: Key, stop: bool, work: seq<Task>)
    requires TimersLinked(s.pool.timers, s.log.link)
    requires k in s.items
    requires TasksLinked(work, s.log.link) && NoClaims(work)
    ensures Quiet(s, Outcome(GetItem(s, k, stop), work))
  {
    hide TimersLinked, Stop, TasksLinked, NoClaims;
    PoolLinked(s.pool, s.items[k].timer, s.log.link);
  }

  lemma QuietRecv(s: State, k: Key, finished: bool, src: Key)
    requires TimersLinked(s.pool.timers, s.log.link) && (k in s.items ==> k in s.log.link)
    requires TaskLinked(s.log.link, Recv(k, finished, src))
    ensures Quiet(s, DoRecv(s, k, finished, src))
  {
    hide Quiet, GetItem, TimersLinked, TimedOut;
    if k in s.items {
      QuietGet(s, k, finished, DoRecv(s, k, finished, src).work);
    } else {
      QuietSame(s, [Fail(src)]);
    }
  }

  lemma QuietSame(s: State, work: seq<Task>)
    requires TimersLinked(s.pool.timers, s.log.link)
    requires TasksLinked(work, s.log.link) && NoClaims(work)
    ensures Quiet(s, Outcome(s, work))
  {
  }

  lemma QuietReadFrame(s: State, k: Key, finishes: bool)
    requires TimersLinked(s.pool.timers, s.log.link) && ItemsLinked(s.items, s.log.link)
    ensures Quiet(s, DoReadFrame(s, k, finishes))
  {
    hide Quiet, GetItem, TimersLinked, TimedOut;
    if k in s.items {
      QuietGet(s, k, finishes, DoReadFrame(s, k, finishes).work);
    } else {
      QuietSame(s, []);
    }
  }

  lemma QuietFail(s: State, k: Key)
    requires TimersLinked(s.pool.timers, s.log.link) && k in s.log.link
    ensures Quiet(s, DoFail(s, k))
  {
    hide Quiet, GetItem, TimersLinked, Stops;
    if k in s.items {
      QuietGet(s, k, true, DoFail(s, k).work);
    } else {
      QuietSame(s, []);
    }
  }

  lemma QuietSendCh(s: State, k: Key, finished: bool, src: Key, ch: Choice)
    requires TimersLinked(s.pool.timers, s.log.link) && TaskLinked(s.log.link, SendCh(k, finished, src))
    ensures Quiet(s, DoSendCh(s, k, finished, src, ch))
  {
    hide TimersLinked;
  }

  lemma QuietEntomb(s: State, k: Key)
    requires TimersLinked(s.pool.timers, s.log.link) && k in s.log.link
    ensures Quiet(s, DoEntomb(s, k))
  {
    hide TimersLinked;
  }

  lemma QuietDelete(s: State, k: Key, settle: bool)
    requires TimersLinked(s.pool.timers, s.log.link)
    ensures Quiet(s, DoDelete(s, k, settle))
  {
    hide TimersLinked, Abandon;
    if k in s.items {
      PoolLinked(s.pool, s.items[k].timer, s.log.link);
    }
  }

  lemma QuietTimer(s: State, t: TimerId)
    requires TimersLinked(s.pool.timers, s.log.link)
    ensures Quiet(s, DoOnTimer(s, t))
    ensures Quiet(s, Outcome(s.(pool := Release(s.pool, t)), []))
    ensures t in s.pool.timers ==> Quiet(s, Outcome(s.(pool := Fire(s.pool, t)), [OnTimer(t)]))
  {
    hide Release, Fire, RunTrigger;
    PoolLinked(s.pool, t, s.log.link);
  }

  predicate AddsItem(t: Task) {
    t.Resolve? || t.CheckRemote? || t.AddIn? || t.AddOut?
  }

  lemma QuietTask(s: State, t: Task, ch: Choice)
    requires TimersLinked(s.pool.timers, s.log.link) && ItemsLinked(s.items, s.log.link) && TaskLinked(s.log.link, t)
    requires !AddsItem(t)
    ensures Quiet(s, Do(s, t, ch))
  {
    hide DoRecv, DoSendOn, DoSendCh, DoEntomb, DoDelete, DoFail, DoOnTimer, DoCheck, Release, Quiet;
    match t
    case SendOn(k, src) => QuietSendOn(s, k, src, ch);
    case Recv(k, finished, src) => QuietRecv(s, k, finished, src);
    case SendCh(k, finished, src) => QuietSendCh(s, k, finished, src, ch);
    case Fail(k) => QuietFail(s, k);
    case Entomb(k) => QuietEntomb(s, k);
    case Delete(k) => QuietDelete(s, k, true);
    case CollectTomb(k) => QuietDelete(s, k, false);
    case OnTimer(tm) => QuietTimer(s, tm);
    case ReleaseTimer(tm) => QuietTimer(s, tm);
    case _ => QuietOther(s, t, ch);
  }

  lemma QuietSendOn(s: State, k: Key, src: Key, ch: Choice)
    requires TimersLinked(s.pool.timers, s.log.link) && TaskLinked(s.log.link, SendOn(k, src))
    ensures Quiet(s, DoSendOn(s, k, src, ch))
  {
    hide Quiet, TimersLinked;
    QuietSame(s, DoSendOn(s, k, src, ch).work);
  }

  lemma QuietOther(s: State, t: Task, ch: Choice)
    requires TimersLinked(s.pool.timers, s.log.link) && (t.Started? || t.End? || t.Dec? || t.Check?)
    ensures Quiet(s, Do(s, t, ch))
  {
    hide TimersLinked, Advance;
  }

  lemma QuietEvent(s: State, st: Step)
    requires TimersLinked(s.pool.timers, s.log.link) && ItemsLinked(s.items, s.log.link)
    requires Enabled(s, st) && !st.Run?
    ensures Quiet(s, Perform(s, st))
  {
    hide DoReadFrame, Fire;
    match st
    case ReadFrame(k, finishes) => QuietReadFrame(s, k, finishes);
    case Expire(t) => QuietTimer(s, t);
    case _ =>
  }

  // ---------- the steps of handleCallReq that claim keys and add items ----------

  // A thread passes its claim on to its next task, or takes up a new one.
  lemma ClaimKept(s: State, st: Step, next: Task, used: set<Key>)
    requires Enabled(s, st) && Perform(s, st).work == [next]
    requires AllClaimedOnce(s.tasks, s.log.used, s.log.link)
    requires s.log.used <= used
    requires forall k ::
      Claims(k)(next) <= Taken(s, st, Claims(k)) + One(k in used && k !in s.log.used && k !in s.log.link)
    ensures AllClaimedOnce(Apply(s, st).tasks, used, s.log.link)
  {
    forall k
      ensures ClaimedOnce(Apply(s, st).tasks, used, s.log.link, k)
    {
      assert ClaimedOnce(s.tasks, s.log.used, s.log.link, k);
      SumStep(s, st, Claims(k));
      SumOne(next, Claims(k));
    }
  }

  lemma AgreeSame(s: State, st: Step)
    requires Enabled(s, st) && TasksAgree(s.tasks, s.items)
    requires Perform(s, st).s.items == s.items
    requires |Perform(s, st).work| == 1 && !Perform(s, st).work[0].AddOut?
    ensures TasksAgree(Apply(s, st).tasks, s.items)
  {
    hide Perform;
  }

  lemma FreshUnlinked(link: Links, used: set<Key>, k: Key)
    requires Paired(link, used) && k !in used
    ensures k !in link && Unlinked(link, k)
    ensures Paired(link, used + {k})
  {
  }

  lemma LinkedResolve(s: State, st: Step)
    requires Linked(s) && Enabled(s, st) && st.Run? && s.tasks[st.i].Resolve?
    ensures Linked(Apply(s, st))
  {
    hide AllClaimedOnce, Others, Paired, Unlinked, CallsAgree, TasksAgree, TimersLinked, DeliveredLinked, ItemsLinked;
    var t, o := s.tasks[st.i], Perform(s, st);
    var k := Key(t.r, Outbound, t.id);
    if k in s.items || !st.choice.ok {
      QuietStep(s, st);
    } else {
      FreshUnlinked(s.log.link, s.log.used, k);
      ClaimKept(s, st, o.work[0], o.s.log.used);
      AgreeSame(s, st);
      OthersLinked(s, st);
      TasksLinkedStep(s, st, s.log.link);
    }
  }

  lemma LinkedCheckRemote(s: State, st: Step)
    requires Linked(s) && Enabled(s, st) && st.Run? && s.tasks[st.i].CheckRemote?
    ensures Linked(Apply(s, st))
  {
    hide AllClaimedOnce, Others, Paired, Unlinked, CallsAgree, TasksAgree, TimersLinked, DeliveredLinked, ItemsLinked;
    var t, o := s.tasks[st.i], Perform(s, st);
    assert TaskLinked(s.log.link, t);
    if Conn(s, t.d) == Active {
      ClaimKept(s, st, o.work[0], s.log.used);
      AgreeSame(s, st);
      OthersLinked(s, st);
      TasksLinkedStep(s, st, s.log.link);
    } else {
      QuietStep(s, st);
    }
  }

  // Two new links, first from the inbound side and then back.
  lemma PairIn(link: Links, used: set<Key>, kin: Key, ko: Key)
    requires Paired(link, used)
    requires kin !in used && ko in used && ko !in link && Unlinked(link, ko)
    requires kin.dir == Inbound && ko.dir == Outbound
    ensures Paired(link[kin := ko], used + {kin})
    ensures kin !in link
  {
  }

  lemma PairOut(link: Links, used: set<Key>, kin: Key, ko: Key)
    requires Paired(link, used)
    requires kin in link && link[kin] == ko && ko !in link
    requires kin.dir == Inbound && ko.dir == Outbound
    ensures Paired(link[ko := kin], used + {ko})
  {
  }

  // Adding an item links it and arms a timer for it.
  lemma AddLinked(s: State, k: Key, item: Item, to: Key)
    requires ItemsLinked(s.items, s.log.link) && TimersLinked(s.pool.timers, s.log.link)
    requires DeliveredLinked(s.log.delivered, s.log.link)
    requires k !in s.log.link && Target(k, item) == to && item.isOriginator == (k.dir == Outbound)
    ensures var s' := AddItem(s, k, item, to);
      ItemsLinked(s'.items, s'.log.link) && TimersLinked(s'.pool.timers, s'.log.link) &&
      DeliveredLinked(s'.log.delivered, s'.log.link)
  {
  }

  // Tasks of other threads keep their links when a new one is added.
  lemma OthersKeepLinks(tasks: seq<Task>, link: Links, k: Key, to: Key)
    requires TasksLinked(tasks, link) && k !in link
    requires forall i :: 0 <= i < |tasks| ==> ClaimOf(tasks[i]) != ForKey(to)
    ensures TasksLinked(tasks, link[k := to])
  {
    forall i | 0 <= i < |tasks|
      ensures TaskLinked(link[k := to], tasks[i])
    {
      assert TaskLinked(link, tasks[i]);
      assert ClaimOf(tasks[i]) != ForKey(to);
    }
  }

  lemma ClaimsAddIn(s: State, st: Step, kin: Key, ko: Key)
    requires Enabled(s, st) && st.Run? && s.tasks[st.i].AddIn? && kin !in s.log.used
    requires AllClaimedOnce(s.tasks, s.log.used, s.log.link)
    ensures AllClaimedOnce(Apply(s, st).tasks, s.log.used + {kin}, s.log.link[kin := ko])
  {
    hide AddItem;
    var next := Perform(s, st).work[0];
    var tasks, used, link := Apply(s, st).tasks, s.log.used + {kin}, s.log.link[kin := ko];
    forall k
      ensures ClaimedOnce(tasks, used, link, k)
    {
      assert ClaimedOnce(s.tasks, s.log.used, s.log.link, k);
      SumStep(s, st, Claims(k));
      SumOne(next, Claims(k));
    }
  }

  lemma ClaimsAddOut(s: State, st: Step, ko: Key, to: Key)
    requires Enabled(s, st) && st.Run? && s.tasks[st.i].AddOut? && ClaimOf(s.tasks[st.i]) == ForKey(ko)
    requires AllClaimedOnce(s.tasks, s.log.used, s.log.link)
    ensures AllClaimedOnce(Apply(s, st).tasks, s.log.used + {ko}, s.log.link[ko := to])
  {
    hide AddItem;
    var tasks, used, link := Apply(s, st).tasks, s.log.used + {ko}, s.log.link[ko := to];
    forall k
      ensures ClaimedOnce(tasks, used, link, k)
    {
      assert ClaimedOnce(s.tasks, s.log.used, s.log.link, k);
      SumStep(s, st, Claims(k));
      SumOne(Perform(s, st).work[0], Claims(k));
      SumAtLeast(s.tasks, st.i, Claims(k));
    }
  }

  lemma AgreeAddIn(s: State, st: Step, kin: Key, ko: Key)
    requires Linked(s) && Enabled(s, st) && st.Run? && s.tasks[st.i].AddIn?
    requires kin == Key(s.tasks[st.i].d, Inbound, NextID(s, s.tasks[st.i].d) + 1) && kin !in s.log.used
    requires ko == Key(s.tasks[st.i].r, Outbound, s.tasks[st.i].id) && ko !in s.items
    ensures CallsAgree(Apply(s, st).items, s.log.link[kin := ko])
    ensures TasksAgree(Apply(s, st).tasks, Apply(s, st).items)
  {
    hide AllClaimedOnce, IDsSpent, TimersLinked, DeliveredLinked, GetAndStart;
  }

  lemma AgreeAddOut(s: State, st: Step, kin: Key, ko: Key)
    requires Linked(s) && Enabled(s, st) && st.Run? && s.tasks[st.i].AddOut?
    requires kin == Key(s.tasks[st.i].d, Inbound, s.tasks[st.i].m)
    requires ko == Key(s.tasks[st.i].r, Outbound, s.tasks[st.i].id)
    ensures CallsAgree(Apply(s, st).items, s.log.link[ko := kin])
    ensures TasksAgree(Apply(s, st).tasks, Apply(s, st).items)
  {
    hide AllClaimedOnce, IDsSpent, TimersLinked, DeliveredLinked, GetAndStart;
    assert TaskLinked(s.log.link, s.tasks[st.i]) && TaskAgrees(s.tasks[st.i], s.items);
  }

  lemma LinkedAddIn(s: State, st: Step)
    requires Linked(s) && Enabled(s, st) && st.Run? && s.tasks[st.i].AddIn?
    ensures Linked(Apply(s, st))
  {
    hide AllClaimedOnce, Others, Paired, Unlinked, ItemsLinked, TimersLinked, DeliveredLinked, GetAndStart,
      CallsAgree, TasksAgree;
    LinkedParts(s);
    var t := s.tasks[st.i];
    var m := NextID(s, t.d) + 1;
    var kin, ko := Key(t.d, Inbound, m), Key(t.r, Outbound, t.id);
    assert TaskLinked(s.log.link, t);
    SoleClaimant(s, st, ko);
    PairIn(s.log.link, s.log.used, kin, ko);
    AddLinked(s.(nextID := s.nextID[t.d := m]), kin, Item(t.r, t.id, false, false, t.call, st.choice.timer), ko);
    AgreeAddIn(s, st, kin, ko);
    ClaimsAddIn(s, st, kin, ko);
    OthersLinked(s, st);
    OthersKeepLinks(Others(s, st), s.log.link, kin, ko);
    TasksLinkedStep(s, st, s.log.link[kin := ko]);
  }

  lemma LinkedAddOut(s: State, st: Step)
    requires Linked(s) && Enabled(s, st) && st.Run? && s.tasks[st.i].AddOut?
    ensures Linked(Apply(s, st))
  {
    hide AllClaimedOnce, Others, Paired, Unlinked, ItemsLinked, TimersLinked, DeliveredLinked, GetAndStart,
      CallsAgree, TasksAgree;
    LinkedParts(s);
    var t := s.tasks[st.i];
    var kin, ko := Key(t.d, Inbound, t.m), Key(t.r, Outbound, t.id);
    assert TaskLinked(s.log.link, t);
    SoleClaimant(s, st, ko);
    PairOut(s.log.link, s.log.used, kin, ko);
    AddLinked(s, ko, Item(t.d, t.m, false, true, t.call, st.choice.timer), kin);
    AgreeAddOut(s, st, kin, ko);
    ClaimsAddOut(s, st, ko, kin);
    OthersLinked(s, st);
    OthersKeepLinks(Others(s, st), s.log.link, ko, kin);
    TasksLinkedStep(s, st, s.log.link[ko := kin]);
  }

  // ---------- every step, every run ----------

  lemma LinkedInit(maxTombs: nat)
    ensures Linked(Init(maxTombs))
  {
    var used: set<Key>, link: Links := {}, map[];
    forall k
      ensures ClaimedOnce([], used, link, k)
    {
    }
  }

  lemma LinkedStep(s: State, st: Step)
    requires Linked(s) && Enabled(s, st)
    ensures Linked(Apply(s, st))
  {
    hide Linked, Apply, Do, Paired, AllClaimedOnce, Quiet, TimersLinked, ItemsLinked;
    LinkedParts(s);
    if !st.Run? {
      QuietEvent(s, st);
      QuietStep(s, st);
    } else if !AddsItem(s.tasks[st.i]) {
      QuietTask(s, s.tasks[st.i], st.choice);
      QuietStep(s, st);
    } else if s.tasks[st.i].Resolve? {
      LinkedResolve(s, st);
    } else if s.tasks[st.i].CheckRemote? {
      LinkedCheckRemote(s, st);
    } else if s.tasks[st.i].AddIn? {
      LinkedAddIn(s, st);
    } else {
      LinkedAddOut(s, st);
    }
  }

  lemma LinkedParts(s: State)
    requires Linked(s)
    ensures TimersLinked(s.pool.timers, s.log.link) && ItemsLinked(s.items, s.log.link)
      && TasksLinked(s.tasks, s.log.link)
    ensures Paired(s.log.link, s.log.used) && DeliveredLinked(s.log.delivered, s.log.link)
    ensures AllClaimedOnce(s.tasks, s.log.used, s.log.link) && IDsSpent(s.log.used, s.nextID)
    ensures CallsAgree(s.items, s.log.link) && TasksAgree(s.tasks, s.items)
    ensures forall k :: k in s.items ==> k in s.log.link
  {
  }

  lemma {:induction false} LinkedRun(s: State, steps: seq<Step>, s': State)
    requires Linked(s) && Reaches(s, steps, s')
    ensures Linked(s')
    decreases |steps|
  {
    hide Linked, Apply;
    if steps == [] {
    } else {
      LinkedStep(s, steps[0]);
      LinkedRun(Apply(s, steps[0]), steps[1..], s');
    }
  }

  /** No cross-talk, in every run: frames that match the item at src are only ever
      forwarded to one key, frames that match the item there come back to src, and no
      other key forwards to the same place. */
  lemma NoCrossTalk(maxTombs: nat, steps: seq<Step>, s: State, src: Key, dst: Key)
    requires Reaches(Init(maxTombs), steps, s)
    requires (src, dst) in s.log.delivered
    ensures forall dst' :: (src, dst') in s.log.delivered ==> dst' == dst
    ensures forall src' :: (src', dst) in s.log.delivered ==> src' == src
    ensures forall src' :: (dst, src') in s.log.delivered ==> src' == src
    ensures src in s.items ==> Target(src, s.items[src]) == dst
    ensures dst in s.items ==> Target(dst, s.items[dst]) == src
    ensures src in s.items && dst in s.items ==> s.items[src].call == s.items[dst].call
  {
    hide Linked;
    LinkedInit(maxTombs);
    LinkedRun(Init(maxTombs), steps, s);
    LinkedParts(s);
    assert s.log.link[src] == dst;
  }
}
