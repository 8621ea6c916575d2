/** A message exchange set as updated in place (mex.go:265-492), and the part of the
    connection's state it is. */
module ExchangeSet {
  import opened ConnectionModel
  import C = CloseMachine

  datatype AddError = Added | SetShutdown | DuplicateExchange

  /** The value of one messageExchangeSet. */
  datatype Exchanges = Exchanges(active: set<nat>, expired: set<nat>, shutdown: bool)

  function WithAdded(e: Exchanges, id: nat): (e': Exchanges) {
    if e.shutdown || id in e.active then e else e.(active := e.active + {id})
  }

  function WithRemoved(e: Exchanges, id: nat): (e': Exchanges) {
    if id in e.active then e.(active := e.active - {id}) else e.(expired := e.expired - {id})
  }

  function WithExpired(e: Exchanges, id: nat): (e': Exchanges) {
    if id in e.active || id in e.expired then e.(active := e.active - {id}, expired := e.expired + {id}) else e
  }

  class MessageExchangeSet {
    var exchanges: set<nat>
    var expiredExchanges: set<nat>
    var shutdown: bool
    // how often the callback for a removed exchange was called
    var onRemoved: nat

    ghost function View(): (e: Exchanges)
      reads this
    {
      Exchanges(exchanges, expiredExchanges, shutdown)
    }

    // Active and expired exchanges are apart.
    ghost predicate Valid()
      reads this
    {
      exchanges !! expiredExchanges
    }

    constructor ()
      ensures Valid() && View() == Exchanges({}, {}, false) && onRemoved == 0
    {
      exchanges, expiredExchanges, shutdown, onRemoved := {}, {}, false, 0;
    }

    /** Active and expired exchanges stay apart exactly if no ID is added that has expired
        and is not removed yet. */
    method AddExchange(id: nat) returns (res: AddError)
      modifies this
      ensures View() == WithAdded(old(View()), id) && onRemoved == old(onRemoved)
      ensures res == if old(shutdown) then SetShutdown else if id in old(exchanges) then DuplicateExchange else Added
      ensures Valid() <==> old(Valid()) && (res == Added ==> id !in old(expiredExchanges))
    {
      if shutdown { return SetShutdown; }
      if id in exchanges { return DuplicateExchange; }
      exchanges := exchanges + {id};
      res := Added;
    }

    method DeleteExchange(id: nat) returns (found: bool, timedOut: bool)
      modifies this
      ensures View() == WithRemoved(old(View()), id) && onRemoved == old(onRemoved)
      ensures found == (id in old(exchanges)) && timedOut == (!found && id in old(expiredExchanges))
      ensures old(Valid()) ==> Valid() && id !in exchanges && id !in expiredExchanges
    {
      if id in exchanges {
        exchanges := exchanges - {id};
        return true, false;
      }
      if id in expiredExchanges {
        expiredExchanges := expiredExchanges - {id};
        return false, true;
      }
      return false, false;
    }

    /** Removes an exchange, and calls back just if there was one to remove. */
    method RemoveExchange(id: nat)
      modifies this
      ensures View() == WithRemoved(old(View()), id) && (old(Valid()) ==> Valid())
      ensures onRemoved == old(onRemoved) + if old(id in exchanges || id in expiredExchanges) then 1 else 0
    {
      var found, expired := DeleteExchange(id);
      if !found && !expired { return; }
      onRemoved := onRemoved + 1;
    }

    /** Expires an exchange, and calls back whether or not there was one. */
    method ExpireExchange(id: nat)
      modifies this
      ensures View() == WithExpired(old(View()), id) && (old(Valid()) ==> Valid())
      ensures onRemoved == old(onRemoved) + 1
    {
      var found, expired := DeleteExchange(id);
      if found || expired {
        expiredExchanges := expiredExchanges + {id};
      }
      onRemoved := onRemoved + 1;
    }

    /** Shuts the set and returns a copy of the exchanges to notify, the first time. */
    method StopExchanges() returns (toNotify: set<nat>)
      modifies this
      ensures View() == old(View()).(shutdown := true) && onRemoved == old(onRemoved) && (old(Valid()) ==> Valid())
      ensures toNotify == if old(shutdown) then {} else exchanges
    {
      toNotify := if shutdown then {} else exchanges;
      shutdown := true;
    }
  }

  // ---------- the sets of the connection ----------

  function SetOf(s: State, side: Side): (e: Exchanges) {
    Exchanges(IdsOn(side, s.active), IdsOn(side, s.expired), side in s.shut)
  }

  function IdsOn(side: Side, ms: set<MexId>): (ids: set<nat>) {
    set m | m in ms && m.side == side :: m.id
  }

  lemma InSet(side: Side, ms: set<MexId>, id: nat)
    ensures id in IdsOn(side, ms) <==> MexId(side, id) in ms
  {
    if MexId(side, id) in ms {
      assert MexId(side, id).id in IdsOn(side, ms);
    }
  }

  // Adding and removing one exchange changes one side by one ID.
  lemma OneMore(side: Side, ms: set<MexId>, m: MexId)
    ensures IdsOn(side, ms + {m}) == IdsOn(side, ms) + if m.side == side then {m.id} else {}
    ensures IdsOn(side, ms - {m}) == IdsOn(side, ms) - if m.side == side then {m.id} else {}
  {
    var more, less := IdsOn(side, ms + {m}), IdsOn(side, ms - {m});
    var one: set<nat> := if m.side == side then {m.id} else {};
    var was := IdsOn(side, ms);
    hide IdsOn;
    forall id
      ensures (id in more <==> id in was + one) && (id in less <==> id in was - one)
    {
      InSet(side, ms, id);
      InSet(side, ms + {m}, id);
      InSet(side, ms - {m}, id);
    }
    assert more == was + one && less == was - one;
  }

  /** The connection's steps on exchanges are this set's operations on one side and leave
      the other side as it was. */
  lemma StepsOnSets(s: State, m: MexId, ping: bool, added: Task, refused: seq<Task>, side: Side)
    ensures SetOf(DoAdd(s, m, ping, added, refused).s, side) ==
      if side == m.side then WithAdded(SetOf(s, side), m.id) else SetOf(s, side)
    ensures SetOf(DoRemove(s, m).s, side) ==
      if side == m.side then WithRemoved(SetOf(s, side), m.id) else SetOf(s, side)
    ensures SetOf(DoExpire(s, m).s, side) ==
      if side == m.side then WithExpired(SetOf(s, side), m.id) else SetOf(s, side)
    ensures DoRemove(s, m).work == if m.id in SetOf(s, m.side).active +
      SetOf(s, m.side).expired then [Check(C.ReadState)] else []
    ensures DoExpire(s, m).work == [Check(C.ReadState)]
  {
    hide IdsOn;
    InSet(m.side, s.active, m.id);
    InSet(m.side, s.expired, m.id);
    OneMore(side, s.active, m);
    OneMore(side, s.expired, m);
  }

  /** So is stopping a set: one side is shut, and the exchanges it had are left to notify. */
  lemma StopOnSet(s: State, stopped: Side, side: Side)
    ensures SetOf(DoStopSet(s, stopped).s, side) ==
      if side == stopped then SetOf(s, side).(shutdown := true) else SetOf(s, side)
    ensures DoStopSet(s, stopped).work ==
      if SetOf(s, stopped).shutdown then []
        else [StopLoop(set id | id in SetOf(s, stopped).active :: MexId(stopped, id))]
  {
    hide IdsOn;
    var left := set id | id in IdsOn(stopped, s.active) :: MexId(stopped, id);
    forall m: MexId
      ensures m in On(stopped, s.active) <==> m in left
    {
      InSet(stopped, s.active, m.id);
    }
    assert On(stopped, s.active) == left;
  }
}
