/** The relay as a step protocol (relay.go, relay_timer_pool.go, and the close
    machine of connection.go).

    Any number of relayers share the state. Each lock-protected or atomic operation
    is one step. A goroutine's remaining work is a bag of tasks; where a goroutine
    has several things left to do they may run in any order, which only adds
    behaviours. An item is added and its timer started in one step. */
module RelayModel {
  import opened Bags
  import opened CloseMachine
  import opened RelayTimers

  type CallId = nat

  datatype Item = Item(dest: RelayerId, remapID: nat, tomb: bool, isOriginator: bool, call: CallId, timer: TimerId)

  type Items = map<Key, Item>
  type Links = map<Key, Key>

  function Opposite(d: Dir): (r: Dir) {
    if d == Inbound then Outbound else Inbound
  }

  // Where a frame that matches this item is forwarded to.
  function Target(k: Key, item: Item): (r: Key) {
    Key(item.dest, Opposite(k.dir), item.remapID)
  }

  datatype Task =
    // handleCallReq, from the call started by the relay host to both items added
    | Started(r: RelayerId, id: nat, call: CallId)
    | Resolve(r: RelayerId, id: nat, call: CallId)
    | CheckRemote(r: RelayerId, id: nat, call: CallId, d: RelayerId)
    | AddIn(r: RelayerId, id: nat, call: CallId, d: RelayerId)
    | AddOut(r: RelayerId, id: nat, call: CallId, d: RelayerId, m: nat)
    | End(call: CallId)
    | Dec(r: RelayerId)
    // the frames of a call request, however many it is rewritten into
    | SendOn(key: Key, src: Key)
    // Receive on the destination of a frame that matched the item at src
    | Recv(key: Key, finished: bool, src: Key)
    | SendCh(key: Key, finished: bool, src: Key)
    | Fail(key: Key)
    | Entomb(key: Key)
    | Delete(key: Key)
    | CollectTomb(key: Key)
    | ReleaseTimer(timer: TimerId)
    | OnTimer(timer: TimerId)
    | Check(r: RelayerId, pc: Pc)

  /** What the proofs follow and the source does not keep: every key ever claimed for
      an item, where items forward to, the calls started and ended, which (source,
      destination) pairs frames were forwarded between, and whether checkExchanges took
      the branch that should never happen. */
  datatype History = History(used: set<Key>, link: Links, calls: set<CallId>, ended: multiset<CallId>,
                             delivered: set<(Key, Key)>, neverHappened: bool)

  datatype State = State(
    maxTombs: nat,
    items: Items,
    tombs: map<(RelayerId, Dir), int>,
    pending: map<RelayerId, int>,
    nextID: map<RelayerId, nat>,
    conn: map<RelayerId, ConnState>,
    stopped: set<RelayerId>,
    pool: Pool,
    log: History,
    tasks: seq<Task>)

  function Init(maxTombs: nat): (s: State) {
    State(maxTombs, map[], map[], map[], map[], map[], {},
          Pool(map[], {}, multiset{}, {}, false), History({}, map[], {}, multiset{}, {}, false), [])
  }

  // Untouched relayers are active with nothing pending.
  function Pending(s: State, r: RelayerId): (n: int) {
    if r in s.pending then s.pending[r] else 0
  }

  function Conn(s: State, r: RelayerId): (c: ConnState) {
    if r in s.conn then s.conn[r] else Active
  }

  function Tombs(s: State, r: RelayerId, d: Dir): (n: int) {
    if (r, d) in s.tombs then s.tombs[(r, d)] else 0
  }

  function NextID(s: State, r: RelayerId): (n: nat) {
    if r in s.nextID then s.nextID[r] else 0
  }

  function AddPending(s: State, r: RelayerId, n: int): (s': State) {
    s.(pending := s.pending[r := Pending(s, r) + n])
  }

  // ---------- tasks ----------

  /** What is not determined by the state: whether something succeeds, whether a call
      request has more frames to send, which destination is picked, which timer the pool
      returns, and whether the exchange sets of the connection are empty. */
  datatype Choice = Choice(ok: bool, more: bool, dest: RelayerId, timer: TimerId, inboundEmpty: bool,
    outboundEmpty: bool)

  /** The state a task leaves and the work that is then left to do. */
  datatype Outcome = Outcome(s: State, work: seq<Task>)

  function DoStarted(s: State, r: RelayerId, id: nat, call: CallId): (o: Outcome) {
    if Conn(s, r) == Active then Outcome(AddPending(s, r, 1), [Resolve(r, id, call)])
    else Outcome(s, [End(call)])
  }

  // getDestination: a duplicate ID, no destination or no connection abandons the call.
  function DoResolve(s: State, r: RelayerId, id: nat, call: CallId, ch: Choice): (o: Outcome) {
    var k := Key(r, Outbound, id);
    if k in s.items || !ch.ok then Outcome(s, [Dec(r), End(call)])
    else Outcome(s.(log := s.log.(used := s.log.used + {k})), [CheckRemote(r, id, call, ch.dest)])
  }

  function DoCheckRemote(s: State, r: RelayerId, id: nat, call: CallId, d: RelayerId): (o: Outcome) {
    if Conn(s, d) == Active then Outcome(AddPending(s, d, 1), [AddIn(r, id, call, d)])
    else Outcome(s, [Dec(r), End(call)])
  }

  // addRelayItem
  function AddItem(s: State, k: Key, item: Item, to: Key): (s': State) {
    s.(items := s.items[k := item],
       pool := GetAndStart(s.pool, item.timer, k),
       log := s.log.(used := s.log.used + {k}, link := s.log.link[k := to]))
  }

  function DoAddIn(s: State, r: RelayerId, id: nat, call: CallId, d: RelayerId, ch: Choice): (o: Outcome) {
    var m := NextID(s, d) + 1;
    var s1 := s.(nextID := s.nextID[d := m]);
    Outcome(AddItem(s1, Key(d, Inbound, m), Item(r, id, false, false, call, ch.timer), Key(r, Outbound, id)),
            [AddOut(r, id, call, d, m)])
  }

  function DoAddOut(s: State, r: RelayerId, id: nat, call: CallId, d: RelayerId, m: nat, ch: Choice): (o: Outcome) {
    var k, kin := Key(r, Outbound, id), Key(d, Inbound, m);
    Outcome(AddItem(s, k, Item(d, m, false, true, call, ch.timer), kin), [SendOn(kin, k)])
  }

  // The call request is sent on frame by frame: one, or (when arg2 is modified) any number,
  // after each of which rewriting may still fail. A frame that is not sent does not stop the rest.
  function DoSendOn(s: State, k: Key, src: Key, ch: Choice): (o: Outcome) {
    Outcome(s, if ch.more then [Recv(k, false, src), SendOn(k, src)] else if ch.ok then [] else [Fail(src)])
  }

  // items.Get; stops the item's timer if asked to.
  function GetItem(s: State, k: Key, stop: bool): (s': State)
    requires k in s.items
  {
    if stop then s.(pool := Stop(s.pool, s.items[k].timer)) else s
  }

  // The item is a tombstone, or its timer could not be stopped because it has fired.
  predicate TimedOut(s: State, k: Key, finished: bool)
    requires k in s.items
  {
    s.items[k].tomb || (finished && !Stops(s.pool, s.items[k].timer))
  }

  function DoRecv(s: State, k: Key, finished: bool, src: Key): (o: Outcome) {
    if k !in s.items then Outcome(s, [Fail(src)])
    else if TimedOut(s, k, finished) then Outcome(GetItem(s, k, finished), if finished then [Delete(src)] else [])
    else Outcome(GetItem(s, k, finished), [SendCh(k, finished, src)])
  }

  // The send buffer takes the frame, or it is full and the call is cancelled.
  function DoSendCh(s: State, k: Key, finished: bool, src: Key, ch: Choice): (o: Outcome) {
    if ch.ok then
      Outcome(s.(log := s.log.(delivered := s.log.delivered + {(src, k)})),
              if finished then [Delete(k), Delete(src)] else [])
    else Outcome(s, [Fail(k), Fail(src)])
  }

  function DoFail(s: State, k: Key): (o: Outcome) {
    if k !in s.items then Outcome(s, [])
    else Outcome(GetItem(s, k, true), if Stops(s.pool, s.items[k].timer) then [Entomb(k)] else [])
  }

  // What ending a live item owes: pending goes down, and the originator ends the call.
  function Settle(first: Task, k: Key, item: Item): (work: seq<Task>) {
    if item.isOriginator then [first, Dec(k.r), End(item.call)] else [first, Dec(k.r)]
  }

  function DoEntomb(s: State, k: Key): (o: Outcome) {
    if Tombs(s, k.r, k.dir) > s.maxTombs then Outcome(s, [Delete(k)])
    else if k !in s.items || s.items[k].tomb then Outcome(s, [])
    else
      var item := s.items[k];
      Outcome(s.(items := s.items[k := item.(tomb := true)],
                 tombs := s.tombs[(k.r, k.dir) := Tombs(s, k.r, k.dir) + 1]),
              Settle(CollectTomb(k), k, item))
  }

  // relayItems.Delete; the garbage collector of tombstones does not settle.
  function DoDelete(s: State, k: Key, settle: bool): (o: Outcome) {
    if k !in s.items then Outcome(s, [])
    else
      var item := s.items[k];
      Outcome(s.(items := s.items - {k},
                 tombs := if item.tomb then s.tombs[(k.r, k.dir) := Tombs(s, k.r, k.dir) - 1] else s.tombs,
                 pool := Abandon(s.pool, item.timer)),
              if settle && !item.tomb then Settle(ReleaseTimer(item.timer), k, item) else [ReleaseTimer(item.timer)])
  }

  // relayTimer.OnTimer, which triggers timeoutRelayItem
  function DoOnTimer(s: State, t: TimerId): (o: Outcome) {
    Outcome(s.(pool := RunTrigger(s.pool, t)),
            if t in s.pool.timers && s.pool.timers[t].items.ForKey? then [Entomb(s.pool.timers[t].items.key)] else [])
  }

  function DoCheck(s: State, r: RelayerId, pc: Pc, ch: Choice): (o: Outcome) {
    var sh := Shared(Conn(s, r), r in s.stopped, Pending(s, r) == 0, ch.inboundEmpty, ch.outboundEmpty);
    var (pc', state) := Advance(pc, sh);
    Outcome(s.(conn := s.conn[r := state],
               log := s.log.(neverHappened := s.log.neverHappened || pc' == ShouldNeverHappen)),
            if pc' == Exited then [] else [Check(r, pc')])
  }

  function Do(s: State, t: Task, ch: Choice): (o: Outcome) {
    match t
    case Started(r, id, call) => DoStarted(s, r, id, call)
    case Resolve(r, id, call) => DoResolve(s, r, id, call, ch)
    case CheckRemote(r, id, call, d) => DoCheckRemote(s, r, id, call, d)
    case AddIn(r, id, call, d) => DoAddIn(s, r, id, call, d, ch)
    case AddOut(r, id, call, d, m) => DoAddOut(s, r, id, call, d, m, ch)
    case End(call) => Outcome(s.(log := s.log.(ended := s.log.ended + multiset{call})), [])
    case Dec(r) => Outcome(AddPending(s, r, -1), [Check(r, ReadState)])
    case SendOn(k, src) => DoSendOn(s, k, src, ch)
    case Recv(k, finished, src) => DoRecv(s, k, finished, src)
    case SendCh(k, finished, src) => DoSendCh(s, k, finished, src, ch)
    case Fail(k) => DoFail(s, k)
    case Entomb(k) => DoEntomb(s, k)
    case Delete(k) => DoDelete(s, k, true)
    case CollectTomb(k) => DoDelete(s, k, false)
    case ReleaseTimer(tm) => Outcome(s.(pool := Release(s.pool, tm)), [])
    case OnTimer(tm) => DoOnTimer(s, tm)
    case Check(r, pc) => DoCheck(s, r, pc, ch)
  }

  // A new item gets a timer that is available, and message IDs are not reused.
  predicate CanDo(s: State, t: Task, ch: Choice) {
    match t
    case Resolve(r, id, call) => ch.ok && Key(r, Outbound, id) !in s.items ==> Key(r, Outbound, id) !in s.log.used
    case AddIn(r, id, call, d) => Available(s.pool, d, ch.timer)
    case AddOut(r, id, call, d, m) => Available(s.pool, r, ch.timer)
    case _ => true
  }

  // ---------- steps ----------

  datatype Step =
    | CallReq(r: RelayerId, id: nat, call: CallId, accepted: bool)
    | ReadFrame(key: Key, finishes: bool)
    | Expire(timer: TimerId)
    | Close(r: RelayerId)
    | StopExchanges(r: RelayerId)
    | Poke(r: RelayerId)
    | Run(i: nat, choice: Choice)

  predicate Enabled(s: State, st: Step) {
    match st
    case CallReq(_, _, call, _) => call !in s.log.calls
    // only responses and errors finish a call, and those are looked up inbound
    case ReadFrame(k, finishes) => finishes ==> k.dir == Inbound
    case Expire(t) => t in s.pool.timers && s.pool.timers[t].armed
    case Run(i, ch) => i < |s.tasks| && CanDo(s, s.tasks[i], ch)
    case _ => true
  }

  // handleNonCallReq up to the point where the frame is handed to the destination
  function DoReadFrame(s: State, k: Key, finishes: bool): (o: Outcome) {
    if k !in s.items then Outcome(s, [])
    else if TimedOut(s, k, finishes) then Outcome(GetItem(s, k, finishes), [])
    else Outcome(GetItem(s, k, finishes), [Recv(Target(k, s.items[k]), finishes, k)])
  }

  function Perform(s: State, st: Step): (o: Outcome)
    requires Enabled(s, st)
  {
    match st
    case CallReq(r, id, call, accepted) =>
      Outcome(s.(log := s.log.(calls := s.log.calls + {call})), [if accepted then Started(r, id, call) else End(call)])
    case ReadFrame(k, finishes) => DoReadFrame(s, k, finishes)
    case Expire(t) => Outcome(s.(pool := Fire(s.pool, t)), [OnTimer(t)])
    case Close(r) =>
      if Conn(s, r) == Active then Outcome(s.(conn := s.conn[r := StartClose]), [Check(r, ReadState)])
      else Outcome(s, [])
    case StopExchanges(r) => Outcome(s.(stopped := s.stopped + {r}), [])
    case Poke(r) => Outcome(s, [Check(r, ReadState)])
    case Run(i, ch) => Do(s, s.tasks[i], ch)
  }

  // The tasks still to be done once a step has taken its own.
  function Others(s: State, st: Step): (ts: seq<Task>)
    requires Enabled(s, st)
  {
    if st.Run? then Without(s.tasks, st.i) else s.tasks
  }

  function Apply(s: State, st: Step): (s': State)
    requires Enabled(s, st)
  {
    var o := Perform(s, st);
    o.s.(tasks := Others(s, st) + o.work)
  }

  /** s' is reached from s by these steps. */
  predicate Reaches(s: State, steps: seq<Step>, s': State)
    decreases |steps|
  {
    if steps == [] then s == s'
    else Enabled(s, steps[0]) && Reaches(Apply(s, steps[0]), steps[1..], s')
  }
}
