/** A connection's exchange sets and its graceful close as a step protocol
    (connection.go, mex.go, inbound.go, outbound.go).

    As in the relay model, each lock-protected or atomic operation is one step and the
    remaining work of all goroutines is a bag of tasks. */
module ConnectionModel {
  import opened Bags
  import opened CloseMachine

  datatype Side = Inbound | Outbound

  datatype MexId = MexId(side: Side, id: nat)

  /** `down` is shutdownAtomic, `claimed` is errChNotified, and `notes` counts the
      calls of errCh.Notify. */
  datatype Mex = Mex(ping: bool, down: bool, claimed: bool, notes: nat)

  datatype Task =
    // handleCallReq: check the state, add the exchange, check the state again
    | InCheck(id: nat)
    | InAdd(id: nat)
    | InRecheck(id: nat)
    // beginCall: the same, with an ID of its own
    | OutCheck
    | OutNext
    | OutAdd(id: nat)
    | OutRecheck(id: nat)
    // ping has no state check
    | PingNext
    | PingAdd(id: nat)
    | PingWait(id: nat)
    | Shutdown(mex: MexId)
    | ShutdownClaim(mex: MexId)
    | Notify(mex: MexId)
    | Remove(mex: MexId)
    // stoppedExchanges.CAS, then stopExchanges on both sets
    | StopOnce
    | StopSet(side: Side)
    | StopLoop(left: set<MexId>)
    | Check(pc: Pc)

  /** `dispatched` are the inbound calls handed to a handler, `begun` the outbound calls
      past beginCall's second check, and `doubleRemoved` says that the branch for
      removing an exchange multiple times was taken. */
  datatype State = State(
    state: ConnState, stopped: bool,
    active: set<MexId>, expired: set<MexId>, shut: set<Side>, mexes: map<MexId, Mex>,
    nextID: nat,
    dispatched: set<MexId>, begun: set<MexId>, stopChCloses: nat, doubleRemoved: bool,
    tasks: seq<Task>)

  function Init(): (s: State) {
    State(Active, false, {}, {}, {}, map[], 0, {}, {}, 0, false, [])
  }

  function On(side: Side, ms: set<MexId>): (r: set<MexId>) {
    set m | m in ms && m.side == side
  }

  datatype Choice = Choice(mex: MexId, relayIdle: bool)

  datatype Outcome = Outcome(s: State, work: seq<Task>)

  // newExchange: refused if the set has shut down or the ID is active.
  predicate Refused(s: State, m: MexId) {
    m.side in s.shut || m in s.active
  }

  function AddMex(s: State, m: MexId, ping: bool): (s': State) {
    s.(active := s.active + {m}, mexes := s.mexes[m := Mex(ping, false, false, 0)])
  }

  function DoAdd(s: State, m: MexId, ping: bool, added: Task, refused: seq<Task>): (o: Outcome) {
    if Refused(s, m) then Outcome(s, refused) else Outcome(AddMex(s, m, ping), [added])
  }

  function DoNextID(s: State, ping: bool): (o: Outcome) {
    var id := s.nextID + 1;
    Outcome(s.(nextID := id), [if ping then PingAdd(id) else OutAdd(id)])
  }

  // Close may have been called between the first check and the exchange being added.
  function DoRecheck(s: State, m: MexId): (o: Outcome) {
    if s.state != Active then Outcome(s, [Shutdown(m)])
    else if m.side == Inbound then Outcome(s.(dispatched := s.dispatched + {m}), [])
    else Outcome(s.(begun := s.begun + {m}), [])
  }

  function DoShutdown(s: State, m: MexId): (o: Outcome) {
    if m !in s.mexes || s.mexes[m].down then Outcome(s, [])
    else Outcome(s.(mexes := s.mexes[m := s.mexes[m].(down := true)]), [ShutdownClaim(m)])
  }

  function Claim(s: State, m: MexId): (s': State)
    requires m in s.mexes
  {
    s.(mexes := s.mexes[m := s.mexes[m].(claimed := true)])
  }

  function DoShutdownClaim(s: State, m: MexId): (o: Outcome) {
    if m !in s.mexes || s.mexes[m].claimed then Outcome(s, [Remove(m)])
    else Outcome(Claim(s, m), [Notify(m), Remove(m)])
  }

  function DoNotify(s: State, m: MexId): (o: Outcome) {
    if m !in s.mexes then Outcome(s, [])
    else Outcome(s.(mexes := s.mexes[m := s.mexes[m].(notes := s.mexes[m].notes + 1)]), [])
  }

  // removeExchange
  function DoRemove(s: State, m: MexId): (o: Outcome) {
    if m in s.active then Outcome(s.(active := s.active - {m}), [Check(ReadState)])
    else if m in s.expired then Outcome(s.(expired := s.expired - {m}), [Check(ReadState)])
    else Outcome(s.(doubleRemoved := true), [])
  }

  // expireExchange
  function DoExpire(s: State, m: MexId): (o: Outcome) {
    if m in s.active || m in s.expired then
      Outcome(s.(active := s.active - {m}, expired := s.expired + {m}), [Check(ReadState)])
    else Outcome(s, [Check(ReadState)])
  }

  // stopExchanges up to the loop over a copy of the exchanges
  function DoStopSet(s: State, side: Side): (o: Outcome) {
    if side in s.shut then Outcome(s, [])
    else Outcome(s.(shut := s.shut + {side}), [StopLoop(On(side, s.active))])
  }

  // The copy is visited in any order.
  function DoStopLoop(s: State, left: set<MexId>, ch: Choice): (o: Outcome) {
    if ch.mex !in left then Outcome(s, if left == {} then [] else [StopLoop(left)])
    else if ch.mex !in s.mexes || s.mexes[ch.mex].claimed then Outcome(s, [StopLoop(left - {ch.mex})])
    else Outcome(Claim(s, ch.mex), [StopLoop(left - {ch.mex}), Notify(ch.mex)])
  }

  function DoCheck(s: State, pc: Pc, ch: Choice): (o: Outcome) {
    var sh := Shared(s.state, s.stopped, ch.relayIdle, On(Inbound, s.active) == {}, On(Outbound, s.active) == {});
    var (pc', state) := Advance(pc, sh);
    Outcome(s.(state := state, stopChCloses := s.stopChCloses + One(ClosesStopCh(pc))),
            if pc' == Exited then [] else [Check(pc')])
  }

  function Do(s: State, t: Task, ch: Choice): (o: Outcome) {
    match t
    case InCheck(id) => Outcome(s, if s.state == Active then [InAdd(id)] else [])
    case InAdd(id) => DoAdd(s, MexId(Inbound, id), false, InRecheck(id), [StopOnce])
    case InRecheck(id) => DoRecheck(s, MexId(Inbound, id))
    case OutCheck => Outcome(s, if s.state == Active then [OutNext] else [])
    case OutNext => DoNextID(s, false)
    case OutAdd(id) => DoAdd(s, MexId(Outbound, id), false, OutRecheck(id), [])
    case OutRecheck(id) => DoRecheck(s, MexId(Outbound, id))
    case PingNext => DoNextID(s, true)
    case PingAdd(id) => DoAdd(s, MexId(Outbound, id), true, PingWait(id), [StopOnce])
    case PingWait(id) => Outcome(s, [Remove(MexId(Outbound, id))])
    case Shutdown(m) => DoShutdown(s, m)
    case ShutdownClaim(m) => DoShutdownClaim(s, m)
    case Notify(m) => DoNotify(s, m)
    case Remove(m) => DoRemove(s, m)
    case StopOnce =>
      if s.stopped then Outcome(s, []) else Outcome(s.(stopped := true), [StopSet(Outbound), StopSet(Inbound)])
    case StopSet(side) => DoStopSet(s, side)
    case StopLoop(left) => DoStopLoop(s, left, ch)
    case Check(pc) => DoCheck(s, pc, ch)
  }

  // ---------- steps ----------

  /** connectionError and protocolError are a Close, a Stop and a Poke. */
  datatype Step =
    | CallReq(id: nat)
    | BeginCall
    | Ping
    | ShutdownMex(mex: MexId)
    | ExpireMex(mex: MexId)
    | Close
    | Stop
    | Poke
    | Run(i: nat, choice: Choice)

  // The peer may send an ID again while its exchange is active or once the set has shut
  // down, and is then refused; it does not reuse one whose exchange has come and gone.
  predicate CanDo(s: State, t: Task) {
    t.InAdd? ==> Refused(s, MexId(Inbound, t.id)) || MexId(Inbound, t.id) !in s.mexes
  }

  // Only calls are shut down, and only inbound ones expire.
  predicate Enabled(s: State, st: Step) {
    match st
    case ShutdownMex(m) => m in s.mexes && !s.mexes[m].ping
    case ExpireMex(m) => m in s.mexes && m.side == Inbound
    case Run(i, _) => i < |s.tasks| && CanDo(s, s.tasks[i])
    case _ => true
  }

  function Perform(s: State, st: Step): (o: Outcome)
    requires Enabled(s, st)
  {
    match st
    case CallReq(id) => Outcome(s, [InCheck(id)])
    case BeginCall => Outcome(s, [OutCheck])
    case Ping => Outcome(s, [PingNext])
    case ShutdownMex(m) => Outcome(s, [Shutdown(m)])
    case ExpireMex(m) => DoExpire(s, m)
    case Close => if s.state == Active then Outcome(s.(state := StartClose), [Check(ReadState)]) else Outcome(s, [])
    case Stop => Outcome(s, [StopOnce])
    case Poke => Outcome(s, [Check(ReadState)])
    case Run(i, ch) => Do(s, s.tasks[i], ch)
  }

  function Others(s: State, st: Step): (ts: seq<Task>)
    requires Enabled(s, st)
  {
    if st.Run? then Without(s.tasks, st.i) else s.tasks
  }

  function Apply(s: State, st: Step): (s': State)
    requires Enabled(s, st)
  {
    var o := Perform(s, st);
    o.s.(tasks := Others(s, st) + o.work)
  }

  predicate Reaches(s: State, steps: seq<Step>, s': State)
    decreases |steps|
  {
    if steps == [] then s == s'
    else Enabled(s, steps[0]) && Reaches(Apply(s, steps[0]), steps[1..], s')
  }

  // ---------- weights ----------

  function Taken(s: State, st: Step, w: Task -> nat): (n: nat)
    requires Enabled(s, st)
  {
    if st.Run? then w(s.tasks[st.i]) else 0
  }

  lemma SumStep(s: State, st: Step, w: Task -> nat)
    requires Enabled(s, st)
    ensures Sum(Apply(s, st).tasks, w) == Sum(s.tasks, w) - Taken(s, st, w) + Sum(Perform(s, st).work, w)
    ensures Taken(s, st, w) <= Sum(s.tasks, w)
  {
    if st.Run? {
      SumWithout(s.tasks, st.i, w);
    }
    SumConcat(Others(s, st), Perform(s, st).work, w);
  }
}
