/** What a relayer counts: pending calls, tombstones, and the End of each call. */
module RelayPending {
  import opened Bags
  import opened CloseMachine
  import opened RelayTimers
  import opened RelayModel
  import opened RelayCounting
  import opened RelayLinks

  // ---------- what is counted ----------

  function LiveOn(r: RelayerId): (p: (Key, Item) -> bool) {
    (k: Key, item: Item) => k.r == r && !item.tomb
  }

  function LiveAt(r: RelayerId, d: Dir): (p: (Key, Item) -> bool) {
    (k: Key, item: Item) => k.r == r && k.dir == d && !item.tomb
  }

  function TombAt(r: RelayerId, d: Dir): (p: (Key, Item) -> bool) {
    (k: Key, item: Item) => k.r == r && k.dir == d && item.tomb
  }

  // The live item that will end the call.
  function OpenFor(call: CallId): (p: (Key, Item) -> bool) {
    (k: Key, item: Item) => item.isOriginator && !item.tomb && item.call == call
  }

  // Calls counted as pending at r whose item is not added yet.
  function Reserved(t: Task, r: RelayerId): (n: nat) {
    match t
    case Resolve(r', _, _) => One(r' == r)
    case CheckRemote(r', _, _, _) => One(r' == r)
    case AddIn(r', _, _, d) => One(r' == r) + One(d == r)
    case AddOut(r', _, _, _, _) => One(r' == r)
    case _ => 0
  }

  // Calls given up at r and still counted as pending.
  function Removed(t: Task, r: RelayerId): (n: nat) {
    One(t == Dec(r))
  }

  // Threads that will end the call themselves.
  function Owes(t: Task, call: CallId): (n: nat) {
    match t
    case Started(_, _, c) => One(c == call)
    case Resolve(_, _, c) => One(c == call)
    case CheckRemote(_, _, c, _) => One(c == call)
    case AddIn(_, _, c, _) => One(c == call)
    case AddOut(_, _, c, _, _) => One(c == call)
    case End(c) => One(c == call)
    case _ => 0
  }

  function ReservedAt(r: RelayerId): (w: Task -> nat) {
    (t: Task) => Reserved(t, r)
  }

  function RemovedAt(r: RelayerId): (w: Task -> nat) {
    (t: Task) => Removed(t, r)
  }

  function HeldAt(r: RelayerId): (w: Task -> nat) {
    (t: Task) => Reserved(t, r) + Removed(t, r)
  }

  function Owing(call: CallId): (w: Task -> nat) {
    (t: Task) => Owes(t, call)
  }

  // ---------- the invariant ----------

  predicate PendingExact(s: State, r: RelayerId) {
    Pending(s, r) == Count(s.items, LiveOn(r)) + Sum(s.tasks, HeldAt(r))
  }

  predicate EndExact(s: State, call: CallId) {
    s.log.ended[call] + Count(s.items, OpenFor(call)) + Sum(s.tasks, Owing(call)) == One(call in s.log.calls)
  }

  predicate TombsExact(s: State, r: RelayerId, d: Dir) {
    Tombs(s, r, d) == Count(s.items, TombAt(r, d)) <= s.maxTombs + 1
  }

  // The collector only ever meets tombstones.
  predicate CollectsTombs(tasks: seq<Task>, items: Items) {
    forall i :: 0 <= i < |tasks| ==> CollectsTomb(tasks[i], items)
  }

  predicate CollectsTomb(t: Task, items: Items) {
    t.CollectTomb? && t.key in items ==> items[t.key].tomb
  }

  ghost predicate Counted(s: State) {
    && CollectsTombs(s.tasks, s.items)
    && (forall r :: PendingExact(s, r))
    && (forall call :: EndExact(s, call))
    && (forall r, d :: TombsExact(s, r, d))
  }

  // ---------- one outcome ----------

  /** An outcome moves pending by as much as it moves live items and held tasks. */
  predicate BalancesPending(s: State, taken: nat, o: Outcome, r: RelayerId) {
    Pending(o.s, r) + Count(s.items, LiveOn(r)) + taken ==
    Pending(s, r) + Count(o.s.items, LiveOn(r)) + Sum(o.work, HeldAt(r))
  }

  predicate BalancesEnd(s: State, taken: nat, o: Outcome, call: CallId) {
    o.s.log.ended[call] + Count(o.s.items, OpenFor(call)) + Sum(o.work, Owing(call)) + One(call in s.log.calls) ==
    s.log.ended[call] + Count(s.items, OpenFor(call)) + taken + One(call in o.s.log.calls)
  }

  predicate BalancesTombs(s: State, o: Outcome, r: RelayerId, d: Dir) {
    && o.s.maxTombs == s.maxTombs
    && Tombs(o.s, r, d) + Count(s.items, TombAt(r, d)) == Tombs(s, r, d) + Count(o.s.items, TombAt(r, d))
    && (Tombs(o.s, r, d) <= Tombs(s, r, d) || Tombs(o.s, r, d) <= s.maxTombs + 1)
  }

  // A task that adds an item finds its key free.
  predicate AddsFresh(s: State, t: Task) {
    && (t.AddIn? ==> Key(t.d, Inbound, NextID(s, t.d) + 1) !in s.items)
    && (t.AddOut? ==> Key(t.r, Outbound, t.id) !in s.items)
  }

  // Tasks that hold nothing and owe nothing.
  predicate Weightless(t: Task) {
    t.SendOn? || t.Recv? || t.SendCh? || t.Fail? || t.Entomb? || t.Delete? || t.CollectTomb? || t.ReleaseTimer?
      || t.OnTimer? || t.Check?
  }

  // The counts are left alone.
  predicate CountsKept(s: State, o: Outcome) {
    && o.s.items == s.items && o.s.pending == s.pending && o.s.tombs == s.tombs && o.s.maxTombs == s.maxTombs
    && o.s.log.ended == s.log.ended && o.s.log.calls == s.log.calls
    && forall i :: 0 <= i < |o.work| ==> Weightless(o.work[i]) && !o.work[i].CollectTomb?
  }

  lemma FramesKeepCounts(s: State, k: Key, finished: bool, src: Key, ch: Choice)
    ensures CountsKept(s, DoRecv(s, k, finished, src))
    ensures CountsKept(s, DoSendCh(s, k, finished, src, ch))
    ensures CountsKept(s, DoFail(s, k))
  {
    hide Stop, Stops, TimedOut;
  }

  // Forwarding, timers and checkExchanges leave the counts alone.
  lemma ForwardsOnly(s: State, t: Task, ch: Choice)
    requires Weightless(t) && !t.Entomb? && !t.Delete? && !t.CollectTomb?
    ensures CountsKept(s, Do(s, t, ch))
  {
    hide DoRecv, DoSendCh, DoFail, RunTrigger, Release, Advance;
    match t
    case Recv(k, finished, src) => FramesKeepCounts(s, k, finished, src, ch);
    case SendCh(k, finished, src) => FramesKeepCounts(s, k, finished, src, ch);
    case Fail(k) => FramesKeepCounts(s, k, false, k, ch);
    case _ =>
  }

  lemma EntombPending(s: State, k: Key, r: RelayerId)
    ensures BalancesPending(s, 0, DoEntomb(s, k), r)
  {
    hide Count, Sum;
    var o := DoEntomb(s, k);
    if o.s.items != s.items {
      CountPut(s.items, k, s.items[k].(tomb := true), LiveOn(r));
    }
    SumWork(o.work, HeldAt(r));
  }

  lemma DeletePending(s: State, k: Key, settle: bool, r: RelayerId)
    requires settle || CollectsTomb(CollectTomb(k), s.items)
    ensures BalancesPending(s, 0, DoDelete(s, k, settle), r)
  {
    hide Abandon, Count;
    var o := DoDelete(s, k, settle);
    if k in s.items {
      CountAt(s.items, k, LiveOn(r));
    }
    SumWork(o.work, HeldAt(r));
  }

  lemma AddPendingBalance(s: State, t: Task, ch: Choice, r: RelayerId)
    requires (t.AddIn? || t.AddOut?) && AddsFresh(s, t)
    ensures BalancesPending(s, HeldAt(r)(t), Do(s, t, ch), r)
  {
    hide GetAndStart, Count;
    var o := Do(s, t, ch);
    if t.AddIn? {
      var k := Key(t.d, Inbound, NextID(s, t.d) + 1);
      CountPut(s.items, k, Item(t.r, t.id, false, false, t.call, ch.timer), LiveOn(r));
    } else {
      CountPut(s.items, Key(t.r, Outbound, t.id), Item(t.d, t.m, false, true, t.call, ch.timer), LiveOn(r));
    }
    SumWork(o.work, HeldAt(r));
  }

  lemma TaskPending(s: State, t: Task, ch: Choice, r: RelayerId)
    requires AddsFresh(s, t) && CollectsTomb(t, s.items)
    ensures BalancesPending(s, HeldAt(r)(t), Do(s, t, ch), r)
  {
    hide Count, DoEntomb, DoDelete, DoAddIn, DoAddOut, DoRecv, DoSendCh, DoFail, DoOnTimer, DoCheck, Release;
    if t.AddIn? || t.AddOut? {
      AddPendingBalance(s, t, ch, r);
    } else if t.Entomb? {
      EntombPending(s, t.key, r);
    } else if t.Delete? || t.CollectTomb? {
      DeletePending(s, t.key, t.Delete?, r);
    } else if Weightless(t) {
      ForwardsOnly(s, t, ch);
      SumZero(Do(s, t, ch).work, HeldAt(r));
    } else {
      StartPending(s, t, ch, r);
    }
  }

  lemma StartPending(s: State, t: Task, ch: Choice, r: RelayerId)
    requires t.Started? || t.Resolve? || t.CheckRemote? || t.End? || t.Dec?
    ensures BalancesPending(s, HeldAt(r)(t), Do(s, t, ch), r)
  {
    hide Count, Sum, DoEntomb, DoDelete, DoAddIn, DoAddOut, DoRecv, DoSendCh, DoSendOn, DoFail, DoOnTimer, DoCheck,
      Release;
    SumWork(Do(s, t, ch).work, HeldAt(r));
  }

  lemma EventPending(s: State, st: Step, r: RelayerId)
    requires Enabled(s, st) && !st.Run?
    ensures BalancesPending(s, 0, Perform(s, st), r)
  {
    hide Count, Sum, Stop, Fire;
    SumWork(Perform(s, st).work, HeldAt(r));
  }

  // ---------- End ----------

  lemma EntombEnd(s: State, k: Key, call: CallId)
    ensures BalancesEnd(s, 0, DoEntomb(s, k), call)
  {
    hide Count;
    var o := DoEntomb(s, k);
    if o.s.items != s.items {
      CountPut(s.items, k, s.items[k].(tomb := true), OpenFor(call));
    }
    SumWork(o.work, Owing(call));
  }

  lemma DeleteEnd(s: State, k: Key, settle: bool, call: CallId)
    requires settle || CollectsTomb(CollectTomb(k), s.items)
    ensures BalancesEnd(s, 0, DoDelete(s, k, settle), call)
  {
    hide Abandon, Count;
    var o := DoDelete(s, k, settle);
    if k in s.items {
      CountAt(s.items, k, OpenFor(call));
    }
    SumWork(o.work, Owing(call));
  }

  lemma AddEnd(s: State, t: Task, ch: Choice, call: CallId)
    requires (t.AddIn? || t.AddOut?) && AddsFresh(s, t)
    ensures BalancesEnd(s, Owing(call)(t), Do(s, t, ch), call)
  {
    hide GetAndStart, Count;
    var o := Do(s, t, ch);
    if t.AddIn? {
      var k := Key(t.d, Inbound, NextID(s, t.d) + 1);
      CountPut(s.items, k, Item(t.r, t.id, false, false, t.call, ch.timer), OpenFor(call));
    } else {
      CountPut(s.items, Key(t.r, Outbound, t.id), Item(t.d, t.m, false, true, t.call, ch.timer), OpenFor(call));
    }
    SumWork(o.work, Owing(call));
  }

  lemma TaskEnd(s: State, t: Task, ch: Choice, call: CallId)
    requires AddsFresh(s, t) && CollectsTomb(t, s.items)
    ensures BalancesEnd(s, Owing(call)(t), Do(s, t, ch), call)
  {
    hide Count, DoEntomb, DoDelete, DoAddIn, DoAddOut, DoRecv, DoSendCh, DoFail, DoOnTimer, DoCheck, Release;
    if t.AddIn? || t.AddOut? {
      AddEnd(s, t, ch, call);
    } else if t.Entomb? {
      EntombEnd(s, t.key, call);
    } else if t.Delete? || t.CollectTomb? {
      DeleteEnd(s, t.key, t.Delete?, call);
    } else if Weightless(t) {
      ForwardsOnly(s, t, ch);
      SumZero(Do(s, t, ch).work, Owing(call));
    } else {
      StartEnd(s, t, ch, call);
    }
  }

  lemma StartEnd(s: State, t: Task, ch: Choice, call: CallId)
    requires t.Started? || t.Resolve? || t.CheckRemote? || t.End? || t.Dec?
    ensures BalancesEnd(s, Owing(call)(t), Do(s, t, ch), call)
  {
    hide Count, Sum, DoEntomb, DoDelete, DoAddIn, DoAddOut, DoRecv, DoSendCh, DoSendOn, DoFail, DoOnTimer, DoCheck,
      Release;
    SumWork(Do(s, t, ch).work, Owing(call));
  }

  lemma EventEnd(s: State, st: Step, call: CallId)
    requires Enabled(s, st) && !st.Run?
    ensures BalancesEnd(s, 0, Perform(s, st), call)
  {
    hide Count, Stop, Fire;
    SumWork(Perform(s, st).work, Owing(call));
  }

  // ---------- tombstones ----------

  lemma EntombTombs(s: State, k: Key, r: RelayerId, d: Dir)
    ensures BalancesTombs(s, DoEntomb(s, k), r, d)
  {
    hide Count;
    if DoEntomb(s, k).s.items != s.items {
      CountPut(s.items, k, s.items[k].(tomb := true), TombAt(r, d));
    }
  }

  lemma DeleteTombs(s: State, k: Key, settle: bool, r: RelayerId, d: Dir)
    ensures BalancesTombs(s, DoDelete(s, k, settle), r, d)
  {
    hide Abandon, Count;
    if k in s.items {
      CountAt(s.items, k, TombAt(r, d));
    }
  }

  lemma AddTombs(s: State, t: Task, ch: Choice, r: RelayerId, d: Dir)
    requires (t.AddIn? || t.AddOut?) && AddsFresh(s, t)
    ensures BalancesTombs(s, Do(s, t, ch), r, d)
  {
    hide GetAndStart, Count;
    if t.AddIn? {
      var k := Key(t.d, Inbound, NextID(s, t.d) + 1);
      CountPut(s.items, k, Item(t.r, t.id, false, false, t.call, ch.timer), TombAt(r, d));
    } else {
      CountPut(s.items, Key(t.r, Outbound, t.id), Item(t.d, t.m, false, true, t.call, ch.timer), TombAt(r, d));
    }
  }

  lemma TaskTombs(s: State, t: Task, ch: Choice, r: RelayerId, d: Dir)
    requires AddsFresh(s, t)
    ensures BalancesTombs(s, Do(s, t, ch), r, d)
  {
    hide Count, DoEntomb, DoDelete, DoAddIn, DoAddOut, DoRecv, DoSendCh, DoFail, DoOnTimer, DoCheck, Release;
    if t.AddIn? || t.AddOut? {
      AddTombs(s, t, ch, r, d);
    } else if t.Entomb? {
      EntombTombs(s, t.key, r, d);
    } else if t.Delete? || t.CollectTomb? {
      DeleteTombs(s, t.key, t.Delete?, r, d);
    } else if Weightless(t) {
      ForwardsOnly(s, t, ch);
    }
  }

  lemma EventTombs(s: State, st: Step, r: RelayerId, d: Dir)
    requires Enabled(s, st) && !st.Run?
    ensures BalancesTombs(s, Perform(s, st), r, d)
  {
    hide Count, Stop, Fire;
  }

  // ---------- the collector ----------

  // Tombstones stay tombstones, and keys that hold an item now held it before or are new.
  predicate KeepsTombs(items: Items, items': Items, link: Links) {
    forall k :: k in items' && k in link ==> k in items && (items[k].tomb ==> items'[k].tomb)
  }

  lemma CollectsStep(s: State, st: Step)
    requires Enabled(s, st) && TasksLinked(s.tasks, s.log.link) && CollectsTombs(s.tasks, s.items)
    requires KeepsTombs(s.items, Perform(s, st).s.items, s.log.link)
    requires CollectsTombs(Perform(s, st).work, Perform(s, st).s.items)
    ensures CollectsTombs(Apply(s, st).tasks, Apply(s, st).items)
  {
    hide Perform;
    forall i | 0 <= i < |Others(s, st)|
      ensures CollectsTomb(Others(s, st)[i], Perform(s, st).s.items)
    {
      var j := if st.Run? && i >= st.i then i + 1 else i;
      assert Others(s, st)[i] == s.tasks[j];
      assert TaskLinked(s.log.link, s.tasks[j]) && CollectsTomb(s.tasks[j], s.items);
    }
  }

  predicate Collects(s: State, o: Outcome) {
    KeepsTombs(s.items, o.s.items, s.log.link) && CollectsTombs(o.work, o.s.items)
  }

  lemma EntombCollects(s: State, k: Key)
    ensures Collects(s, DoEntomb(s, k))
  {
  }

  lemma DeleteCollects(s: State, k: Key, settle: bool)
    ensures Collects(s, DoDelete(s, k, settle))
  {
    hide Abandon;
  }

  // A task that adds an item adds it at a key that never held one.
  predicate AddsUnlinked(s: State, t: Task) {
    && (t.AddIn? ==> Key(t.d, Inbound, NextID(s, t.d) + 1) !in s.log.link)
    && (t.AddOut? ==> Key(t.r, Outbound, t.id) !in s.log.link)
  }

  lemma AddCollects(s: State, t: Task, ch: Choice)
    requires (t.AddIn? || t.AddOut?) && AddsUnlinked(s, t)
    ensures Collects(s, Do(s, t, ch))
  {
    hide GetAndStart;
  }

  lemma TaskCollects(s: State, t: Task, ch: Choice)
    requires AddsUnlinked(s, t)
    ensures Collects(s, Do(s, t, ch))
  {
    hide DoEntomb, DoDelete, DoAddIn, DoAddOut, DoRecv, DoSendCh, DoFail, DoOnTimer, DoCheck, Release;
    if t.AddIn? || t.AddOut? {
      AddCollects(s, t, ch);
    } else if t.Entomb? {
      EntombCollects(s, t.key);
    } else if t.Delete? || t.CollectTomb? {
      DeleteCollects(s, t.key, t.Delete?);
    } else if Weightless(t) {
      ForwardsOnly(s, t, ch);
    }
  }

  lemma EventCollects(s: State, st: Step)
    requires Enabled(s, st) && !st.Run?
    ensures Collects(s, Perform(s, st))
  {
    hide Stop, Fire;
  }

  // ---------- every step, every run ----------

  lemma AddsUnlinkedFresh(s: State, st: Step)
    requires Linked(s) && Enabled(s, st) && st.Run?
    ensures AddsUnlinked(s, s.tasks[st.i]) && AddsFresh(s, s.tasks[st.i])
  {
    hide Linked, AllClaimedOnce, TimersLinked, TasksLinked, TasksAgree, CallsAgree;
    LinkedParts(s);
    var t := s.tasks[st.i];
    if t.AddOut? {
      SoleClaimant(s, st, Key(t.r, Outbound, t.id));
    }
  }

  lemma CountedParts(s: State, r: RelayerId, d: Dir, call: CallId)
    requires Counted(s)
    ensures CollectsTombs(s.tasks, s.items) && PendingExact(s, r) && TombsExact(s, r, d) && EndExact(s, call)
  {
  }

  lemma CountedOne(s: State, st: Step, r: RelayerId, d: Dir, call: CallId)
    requires Linked(s) && Counted(s) && Enabled(s, st)
    ensures PendingExact(Apply(s, st), r) && TombsExact(Apply(s, st), r, d) && EndExact(Apply(s, st), call)
  {
    hide Linked, Counted, Perform, Others, Count, Sum, CollectsTombs;
    CountedParts(s, r, d, call);
    SumStep(s, st, HeldAt(r));
    SumStep(s, st, Owing(call));
    if st.Run? {
      var t := s.tasks[st.i];
      AddsUnlinkedFresh(s, st);
      CollectsAt(s, st);
      TaskPending(s, t, st.choice, r);
      TaskEnd(s, t, st.choice, call);
      TaskTombs(s, t, st.choice, r, d);
      assert Perform(s, st) == Do(s, t, st.choice) by { PerformRun(s, st); }
    } else {
      EventPending(s, st, r);
      EventEnd(s, st, call);
      EventTombs(s, st, r, d);
    }
  }

  lemma PerformRun(s: State, st: Step)
    requires Enabled(s, st) && st.Run?
    ensures Perform(s, st) == Do(s, s.tasks[st.i], st.choice)
  {
    hide Do;
  }

  lemma CollectsAt(s: State, st: Step)
    requires Enabled(s, st) && st.Run? && CollectsTombs(s.tasks, s.items)
    ensures CollectsTomb(s.tasks[st.i], s.items)
  {
  }

  lemma CollectsKept(s: State, st: Step)
    requires Linked(s) && Counted(s) && Enabled(s, st)
    ensures CollectsTombs(Apply(s, st).tasks, Apply(s, st).items)
  {
    hide Linked, Counted, Perform, Do, PendingExact, EndExact, TombsExact;
    LinkedParts(s);
    CountedParts(s, 0, Inbound, 0);
    if st.Run? {
      AddsUnlinkedFresh(s, st);
      TaskCollects(s, s.tasks[st.i], st.choice);
      PerformRun(s, st);
    } else {
      EventCollects(s, st);
    }
    CollectsStep(s, st);
  }

  lemma CountedStep(s: State, st: Step)
    requires Linked(s) && Counted(s) && Enabled(s, st)
    ensures Counted(Apply(s, st))
  {
    hide Linked, Apply, PendingExact, EndExact, TombsExact, CollectsTombs;
    var s' := Apply(s, st);
    CollectsKept(s, st);
    forall r
      ensures PendingExact(s', r)
    {
      CountedOne(s, st, r, Inbound, 0);
    }
    forall call
      ensures EndExact(s', call)
    {
      CountedOne(s, st, 0, Inbound, call);
    }
    forall r, d
      ensures TombsExact(s', r, d)
    {
      CountedOne(s, st, r, d, 0);
    }
  }

  lemma CountedInit(maxTombs: nat)
    ensures Counted(Init(maxTombs))
  {
    var s := Init(maxTombs);
    forall r
      ensures PendingExact(s, r)
    {
      assert Matching(s.items, LiveOn(r)) == {};
    }
    forall call
      ensures EndExact(s, call)
    {
      assert Matching(s.items, OpenFor(call)) == {};
    }
    forall r, d
      ensures TombsExact(s, r, d)
    {
      assert Matching(s.items, TombAt(r, d)) == {};
    }
  }

  lemma {:induction false} CountedRun(s: State, steps: seq<Step>, s': State)
    requires Linked(s) && Counted(s) && Reaches(s, steps, s')
    ensures Counted(s')
    decreases |steps|
  {
    hide Linked, Counted, Apply;
    if steps == [] {
    } else {
      LinkedStep(s, steps[0]);
      CountedStep(s, steps[0]);
      CountedRun(Apply(s, steps[0]), steps[1..], s');
    }
  }

  lemma Reachable(maxTombs: nat, steps: seq<Step>, s: State)
    requires Reaches(Init(maxTombs), steps, s)
    ensures Linked(s) && Counted(s)
  {
    hide Linked, Counted, Init;
    LinkedInit(maxTombs);
    CountedInit(maxTombs);
    LinkedRun(Init(maxTombs), steps, s);
    CountedRun(Init(maxTombs), steps, s);
  }

  /** In every run, a relayer's pending count is the number of its live inbound items,
      plus its live outbound items, plus the calls that have reserved a slot and not
      added their item yet, plus the calls that have been given up and are about to
      decrement it. It never goes below zero. */
  lemma PendingConserved(maxTombs: nat, steps: seq<Step>, s: State, r: RelayerId)
    requires Reaches(Init(maxTombs), steps, s)
    ensures Pending(s, r) ==
      Count(s.items, LiveAt(r, Inbound)) + Count(s.items, LiveAt(r, Outbound)) +
      Sum(s.tasks, ReservedAt(r)) + Sum(s.tasks, RemovedAt(r))
    ensures Pending(s, r) >= 0
  {
    hide Linked, Counted;
    Reachable(maxTombs, steps, s);
    CountedParts(s, r, Inbound, 0);
    forall k: Key, item: Item
      ensures LiveOn(r)(k, item) <==> LiveAt(r, Inbound)(k, item) || LiveAt(r, Outbound)(k, item)
    {
      assert k.dir == Inbound || k.dir == Outbound;
    }
    CountSplit(s.items, LiveOn(r), LiveAt(r, Inbound), LiveAt(r, Outbound));
    SumSplit(s.tasks, HeldAt(r), ReservedAt(r), RemovedAt(r));
  }

  /** In every run, End is called at most once for a call, only for a call that was
      started, and exactly once as soon as no thread and no live originator item is
      left to call it. */
  lemma EndOnce(maxTombs: nat, steps: seq<Step>, s: State, call: CallId)
    requires Reaches(Init(maxTombs), steps, s)
    ensures s.log.ended[call] <= One(call in s.log.calls)
    ensures call in s.log.calls ==>
      (s.log.ended[call] == 1 <==> Count(s.items, OpenFor(call)) == 0 && Sum(s.tasks, Owing(call)) == 0)
  {
    hide Linked, Counted;
    Reachable(maxTombs, steps, s);
    CountedParts(s, 0, Inbound, call);
  }

  lemma MaxKept(s: State, st: Step)
    requires Enabled(s, st)
    ensures Apply(s, st).maxTombs == s.maxTombs
  {
    hide Stop, Stops, Fire, Do;
    if st.Run? {
      DoMaxKept(s, s.tasks[st.i], st.choice);
    }
  }

  lemma DoMaxKept(s: State, t: Task, ch: Choice)
    ensures Do(s, t, ch).s.maxTombs == s.maxTombs
  {
    if Weightless(t) && !t.Entomb? && !t.Delete? && !t.CollectTomb? {
      hide Do;
      ForwardsOnly(s, t, ch);
    } else {
      hide Abandon, GetAndStart, DoRecv, DoSendOn, DoSendCh, DoFail, DoOnTimer, DoCheck, Release, Settle;
    }
  }

  lemma {:induction false} MaxStays(s: State, steps: seq<Step>, s': State)
    requires Reaches(s, steps, s')
    ensures s'.maxTombs == s.maxTombs
    decreases |steps|
  {
    hide Apply;
    if steps == [] {
    } else {
      MaxKept(s, steps[0]);
      MaxStays(Apply(s, steps[0]), steps[1..], s');
    }
  }

  /** In every run, the tombstone counters are exact and at most one over the configured
      limit. */
  lemma TombsBounded(maxTombs: nat, steps: seq<Step>, s: State, r: RelayerId, d: Dir)
    requires Reaches(Init(maxTombs), steps, s)
    ensures Tombs(s, r, d) == Count(s.items, TombAt(r, d)) <= maxTombs + 1
  {
    hide Linked, Counted;
    MaxStays(Init(maxTombs), steps, s);
    Reachable(maxTombs, steps, s);
    CountedParts(s, r, d, 0);
  }
}
