/** The steps of Connection.checkExchanges (connection.go:791-849), one read or
    write of shared state at a time. */
module CloseMachine {

  datatype ConnState = Active | StartClose | InboundClosed | Closed {
    function Rank(): (n: nat) {
      match this case Active => 1 case StartClose => 2 case InboundClosed => 3 case Closed => 4
    }
  }

  /** Where a thread in checkExchanges is. `orig` is the state it read on entry;
      at MoveStopped, RelayCheck and later points the source's curState is fixed by
      the program point, and `cur` is kept only where it is not. */
  datatype Pc =
    | ReadState
    | LoadStopped(orig: ConnState)
    | MoveStopped(orig: ConnState)
    | RelayCheck(orig: ConnState)
    | InboundCount(orig: ConnState)
    | MoveInbound(orig: ConnState)
    | RelayRecheck(orig: ConnState)
    | OutboundCount(orig: ConnState)
    | MoveClosed(orig: ConnState)
    | Finish(orig: ConnState, cur: ConnState)
    | ShouldNeverHappen
    | Exited

  /** What a step may look at. */
  datatype Shared = Shared(state: ConnState, stopped: bool, relayIdle: bool, inboundEmpty: bool, outboundEmpty: bool)

  function AfterStopped(orig: ConnState, cur: ConnState): (pc: Pc) {
    if cur == StartClose then RelayCheck(orig) else AfterInbound(orig, cur)
  }

  function AfterInbound(orig: ConnState, cur: ConnState): (pc: Pc) {
    if cur == InboundClosed then RelayRecheck(orig) else Finish(orig, cur)
  }

  /** One step: the next program point and the connection state it leaves. */
  function Advance(pc: Pc, sh: Shared): (r: (Pc, ConnState)) {
    match pc
    case ReadState => (LoadStopped(sh.state), sh.state)
    case LoadStopped(orig) =>
      (if orig != Closed && sh.stopped then MoveStopped(orig) else AfterStopped(orig, orig), sh.state)
    case MoveStopped(orig) =>
      if sh.state == orig then (AfterStopped(orig, Closed), Closed) else (AfterStopped(orig, orig), sh.state)
    case RelayCheck(orig) => (if sh.relayIdle then InboundCount(orig) else Exited, sh.state)
    case InboundCount(orig) =>
      (if sh.inboundEmpty then MoveInbound(orig) else AfterInbound(orig, StartClose), sh.state)
    case MoveInbound(orig) =>
      if sh.state == StartClose then (AfterInbound(orig, InboundClosed), InboundClosed)
      else (AfterInbound(orig, StartClose), sh.state)
    case RelayRecheck(orig) => (if sh.relayIdle then OutboundCount(orig) else ShouldNeverHappen, sh.state)
    case OutboundCount(orig) =>
      (if sh.outboundEmpty then MoveClosed(orig) else Finish(orig, InboundClosed), sh.state)
    case MoveClosed(orig) =>
      if sh.state == InboundClosed then (Finish(orig, Closed), Closed) else (Finish(orig, InboundClosed), sh.state)
    case Finish(_, _) => (Exited, sh.state)
    case ShouldNeverHappen => (Exited, sh.state)
    case Exited => (Exited, sh.state)
  }

  // Finish closes stopCh when this thread's own move closed the connection.
  predicate ClosesStopCh(pc: Pc) {
    pc.Finish? && pc.orig != Closed && pc.cur == Closed
  }

  // ---------- checkExchanges run alone ----------

  // How far a thread is from its end.
  function Ahead(pc: Pc): (n: nat) {
    match pc
    case ReadState => 10
    case LoadStopped(_) => 9
    case MoveStopped(_) => 8
    case RelayCheck(_) => 7
    case InboundCount(_) => 6
    case MoveInbound(_) => 5
    case RelayRecheck(_) => 4
    case OutboundCount(_) => 3
    case MoveClosed(_) => 2
    case Finish(_, _) => 1
    case ShouldNeverHappen => 1
    case Exited => 0
  }

  lemma AdvanceEnds(pc: Pc, sh: Shared)
    requires pc != Exited
    ensures Ahead(Advance(pc, sh).0) < Ahead(pc)
  {
  }

  /** The state a thread leaves, and how often it closes stopCh, when nothing else changes
      what it looks at. */
  function RunCheck(pc: Pc, sh: Shared): (r: (ConnState, nat))
    decreases Ahead(pc)
  {
    if pc == Exited then (sh.state, 0)
    else
      AdvanceEnds(pc, sh);
      var (pc', state) := Advance(pc, sh);
      var (final, n) := RunCheck(pc', sh.(state := state));
      (final, n + if ClosesStopCh(pc) then 1 else 0)
  }

  /** What checkExchanges comes to when it runs alone. With stopped exchanges the connection
      closes at once. Otherwise it closes exactly if it was closing, its relay is idle, no
      outbound exchange is left and (unless they were drained before) no inbound one; and it
      becomes inbound-closed if only outbound exchanges are left. stopCh is closed just by
      the check that closes the connection. */
  lemma CheckAlone(sh: Shared)
    ensures var (final, n) := RunCheck(ReadState, sh);
      && (sh.stopped ==> final == Closed)
      && (!sh.stopped && sh.state != Closed ==>
            (final == Closed <==>
              && sh.state != Active && sh.relayIdle && sh.outboundEmpty
                && (sh.state == StartClose ==> sh.inboundEmpty)))
      && (!sh.stopped ==>
            (final == InboundClosed <==>
              || (sh.state == StartClose && sh.relayIdle && sh.inboundEmpty && !sh.outboundEmpty)
              || (sh.state == InboundClosed && !(sh.relayIdle && sh.outboundEmpty))))
      && (sh.state == Closed || final == sh.state || final == InboundClosed || final == Closed)
      && n == if sh.state != Closed && final == Closed then 1 else 0
  {
    var s1 := LoadStopped(sh.state);
    assert RunCheck(ReadState, sh) == RunCheck(s1, sh);
    if sh.state == Closed {
      LaterAlone(sh, sh.state);
    } else if sh.stopped {
      var closed := sh.(state := Closed);
      assert RunCheck(s1, sh) == RunCheck(MoveStopped(sh.state), sh) == RunCheck(Finish(sh.state, Closed), closed);
      assert RunCheck(Exited, closed) == (Closed, 0);
    } else if sh.state == StartClose {
      StartAlone(sh);
    } else {
      LaterAlone(sh, sh.state);
    }
  }

  lemma StartAlone(sh: Shared)
    requires sh.state == StartClose
    ensures RunCheck(RelayCheck(StartClose), sh) ==
      if !sh.relayIdle || !sh.inboundEmpty then (StartClose, 0)
      else if sh.outboundEmpty then (Closed, 1) else (InboundClosed, 0)
  {
    var count, move := InboundCount(StartClose), MoveInbound(StartClose);
    assert RunCheck(Exited, sh) == (StartClose, 0);
    if sh.relayIdle && sh.inboundEmpty {
      var moved := sh.(state := InboundClosed);
      assert RunCheck(RelayCheck(StartClose), sh) == RunCheck(count, sh) == RunCheck(move, sh);
      assert RunCheck(move, sh) == RunCheck(RelayRecheck(StartClose), moved);
      RecheckAlone(moved, StartClose);
    } else if sh.relayIdle {
      assert RunCheck(count, sh) == RunCheck(Finish(StartClose, StartClose), sh) == RunCheck(Exited, sh);
    }
  }

  lemma RecheckAlone(sh: Shared, orig: ConnState)
    requires sh.state == InboundClosed && (orig == StartClose || orig == InboundClosed)
    ensures RunCheck(RelayRecheck(orig), sh) == if sh.relayIdle && sh.outboundEmpty then (Closed, 1)
      else (InboundClosed, 0)
  {
    var count, move, closed := OutboundCount(orig), MoveClosed(orig), sh.(state := Closed);
    assert RunCheck(Exited, sh) == (InboundClosed, 0) && RunCheck(Exited, closed) == (Closed, 0);
    if sh.relayIdle && sh.outboundEmpty {
      assert RunCheck(RelayRecheck(orig), sh) == RunCheck(count, sh) == RunCheck(move, sh);
      assert RunCheck(move, sh) == RunCheck(Finish(orig, Closed), closed) == (Closed, 1);
    } else if sh.relayIdle {
      assert RunCheck(count, sh) == RunCheck(Finish(orig, InboundClosed), sh) == (InboundClosed, 0);
    } else {
      assert RunCheck(ShouldNeverHappen, sh) == (InboundClosed, 0);
    }
  }

  // From any other state nothing moves but an inbound-closed connection.
  lemma LaterAlone(sh: Shared, orig: ConnState)
    requires sh.state == orig != StartClose && (sh.stopped ==> orig == Closed)
    ensures RunCheck(LoadStopped(orig), sh) ==
      if orig == InboundClosed && sh.relayIdle && sh.outboundEmpty then (Closed, 1) else (orig, 0)
  {
    assert RunCheck(Exited, sh) == (orig, 0);
    if orig == InboundClosed {
      RecheckAlone(sh, orig);
    } else {
      assert RunCheck(LoadStopped(orig), sh) == RunCheck(Finish(orig, orig), sh) == RunCheck(Exited, sh);
    }
  }

  // ---------- threads that will close the connection ----------

  // A thread in checkExchanges that will close a drained connection in this state.
  predicate PcDrives(state: ConnState, pc: Pc) {
    match pc
    case ReadState => true
    case LoadStopped(orig) => orig == state
    case MoveStopped(orig) => orig == state
    case RelayCheck(_) => state == StartClose
    case InboundCount(_) => state == StartClose
    case MoveInbound(_) => state == StartClose
    case RelayRecheck(_) => state == InboundClosed
    case OutboundCount(_) => state == InboundClosed
    case MoveClosed(_) => state == InboundClosed
    case _ => false
  }

  lemma AdvanceDrives(pc: Pc, sh: Shared)
    requires sh.relayIdle && sh.inboundEmpty && sh.outboundEmpty && sh.state != Active && sh.state != Closed
    ensures var (pc', state) := Advance(pc, sh);
      state != Closed ==> if state == sh.state then PcDrives(sh.state, pc) ==>
        PcDrives(state, pc') else PcDrives(state, pc')
  {
  }

  lemma AdvanceStarts(pc: Pc, sh: Shared)
    ensures sh.state == Active ==> Advance(pc, sh).1 == Active || Advance(pc, sh).1 == Closed
    ensures sh.state == Closed ==> Advance(pc, sh).1 == Closed
  {
  }

  lemma ExitedDrives(state: ConnState)
    ensures !PcDrives(state, Exited)
  {
  }
}
