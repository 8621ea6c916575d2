/** Relay timers and their pool (relay_timer_pool.go). */
module RelayTimers {

  type RelayerId = nat
  type TimerId = nat

  datatype Dir = Inbound | Outbound

  /** An entry of the inbound or outbound items of a relayer. */
  datatype Key = Key(r: RelayerId, dir: Dir, id: nat)

  datatype MaybeKey = NoKey | ForKey(key: Key)

  // Who may still use a timer; not part of the source's state.
  datatype Owner = Free | HeldBy(key: Key) | Releasing

  /** `armed` says the underlying Go timer is pending; `starts` counts Start calls. */
  datatype Timer = Timer(pool: RelayerId, active: bool, stopped: bool, released: bool, armed: bool,
                         items: MaybeKey, starts: nat, owner: Owner)

  /** All timers, with the ones waiting in a pool. `ran` and `stops` record which starts
      of a timer ran its trigger, and which were reported stopped, and `panicked` that a
      method was called on a timer in a state where the source panics. */
  datatype Pool = Pool(timers: map<TimerId, Timer>, pooled: set<TimerId>,
                       ran: multiset<(TimerId, nat)>, stops: set<(TimerId, nat)>, panicked: bool)

  // A timer may come from the relayer's pool or be new.
  predicate Available(p: Pool, r: RelayerId, t: TimerId) {
    t !in p.timers || (t in p.pooled && p.timers[t].pool == r)
  }

  function NewTimer(pool: RelayerId): (tm: Timer) {
    Timer(pool, false, false, false, false, NoKey, 0, Free)
  }

  function StartTimer(tm: Timer, k: Key): (tm': Timer) {
    tm.(active := true, stopped := false, released := false, armed := true, items := ForKey(k),
        starts := tm.starts + 1, owner := HeldBy(k))
  }

  // timeouts.Get followed by Start.
  function GetAndStart(p: Pool, t: TimerId, k: Key): (p': Pool) {
    var was := if t in p.timers then p.timers[t] else NewTimer(k.r);
    p.(timers := p.timers[t := StartTimer(was, k)],
       pooled := p.pooled - {t},
       panicked := p.panicked || was.active || was.armed)
  }

  // A stopped timer stays stopped; otherwise stopping succeeds if it has not fired.
  function StopResult(tm: Timer): (stopped: bool) {
    tm.stopped || tm.armed
  }

  function StopTimer(tm: Timer): (tm': Timer) {
    if tm.stopped || !tm.armed then tm
    else tm.(armed := false, stopped := true, active := false, items := NoKey)
  }

  function Stop(p: Pool, t: TimerId): (p': Pool) {
    if t !in p.timers then p.(panicked := true)
    else
      var tm := p.timers[t];
      p.(timers := p.timers[t := StopTimer(tm)],
         stops := if StopResult(tm) then p.stops + {(t, tm.starts)} else p.stops,
         panicked := p.panicked || tm.released)
  }

  predicate Stops(p: Pool, t: TimerId) {
    t in p.timers && StopResult(p.timers[t])
  }

  // The underlying timer expires; OnTimer is yet to run.
  function Fire(p: Pool, t: TimerId): (p': Pool)
    requires t in p.timers
  {
    p.(timers := p.timers[t := p.timers[t].(armed := false)])
  }

  function TriggerTimer(tm: Timer): (tm': Timer) {
    tm.(active := false, items := NoKey)
  }

  // OnTimer up to the call of the trigger.
  function RunTrigger(p: Pool, t: TimerId): (p': Pool) {
    if t !in p.timers || p.timers[t].items == NoKey then p.(panicked := true)
    else
      var tm := p.timers[t];
      p.(timers := p.timers[t := TriggerTimer(tm)],
         ran := p.ran + multiset{(t, tm.starts)},
         panicked := p.panicked || tm.released)
  }

  // The item that held the timer is gone; Release is yet to run.
  function Abandon(p: Pool, t: TimerId): (p': Pool) {
    if t !in p.timers then p
    else p.(timers := p.timers[t := p.timers[t].(owner := Releasing)])
  }

  function FreeTimer(tm: Timer): (tm': Timer) {
    tm.(released := true, owner := Free)
  }

  function Release(p: Pool, t: TimerId): (p': Pool) {
    if t !in p.timers then p.(panicked := true)
    else
      var tm := p.timers[t];
      p.(timers := p.timers[t := FreeTimer(tm)],
         pooled := p.pooled + {t},
         panicked := p.panicked || tm.released || tm.active)
  }

  // ---------- what a pool keeps ----------

  predicate Firing(p: Pool, t: TimerId) {
    t in p.timers && p.timers[t].active && !p.timers[t].armed
  }

  predicate TimerOk(p: Pool, t: TimerId)
    requires t in p.timers
  {
    var tm := p.timers[t];
    && (tm.armed ==> tm.active)
    && (tm.active ==> !tm.stopped && tm.owner.HeldBy? && tm.items == ForKey(tm.owner.key))
    && tm.released == (tm.owner == Free) == (t in p.pooled)
    && (tm.active ==> (t, tm.starts) !in p.stops)
    && (tm.active || tm.stopped ==> p.ran[(t, tm.starts)] == 0)
  }

  predicate PastStart(p: Pool, x: (TimerId, nat)) {
    x.0 in p.timers && x.1 <= p.timers[x.0].starts
  }

  // A start runs its trigger at most once, and not if it was reported stopped.
  predicate RunsOnce(ran: multiset<(TimerId, nat)>, stops: set<(TimerId, nat)>, x: (TimerId, nat)) {
    ran[x] + (if x in stops then 1 else 0) <= 1
  }

  ghost predicate PoolOk(p: Pool) {
    && (forall t :: t in p.timers ==> TimerOk(p, t))
    && (forall t :: t in p.pooled ==> t in p.timers)
    && (forall x :: x in p.ran || x in p.stops ==> PastStart(p, x))
    && (forall x :: RunsOnce(p.ran, p.stops, x))
    && !p.panicked
  }

  lemma StopOk(p: Pool, t: TimerId)
    requires PoolOk(p) && t in p.timers && p.timers[t].owner.HeldBy?
    ensures PoolOk(Stop(p, t))
    ensures Stops(p, t) ==> !Stop(p, t).timers[t].active
  {
    assert TimerOk(p, t);
    var p' := Stop(p, t);
    forall x
      ensures RunsOnce(p'.ran, p'.stops, x)
    {
      assert RunsOnce(p.ran, p.stops, x);
    }
  }

  lemma GetAndStartOk(p: Pool, t: TimerId, k: Key)
    requires PoolOk(p) && Available(p, k.r, t)
    ensures PoolOk(GetAndStart(p, t, k))
    ensures t in p.timers ==> p.timers[t].owner == Free
  {
    if t in p.timers {
      assert TimerOk(p, t);
    }
  }

  lemma FireOk(p: Pool, t: TimerId)
    requires PoolOk(p) && t in p.timers && p.timers[t].armed
    ensures PoolOk(Fire(p, t))
  {
    assert TimerOk(p, t);
  }

  lemma RunTriggerOk(p: Pool, t: TimerId)
    requires PoolOk(p) && Firing(p, t)
    ensures PoolOk(RunTrigger(p, t))
  {
    assert TimerOk(p, t);
    var p' := RunTrigger(p, t);
    forall x
      ensures RunsOnce(p'.ran, p'.stops, x)
    {
      assert RunsOnce(p.ran, p.stops, x);
    }
  }

  lemma AbandonOk(p: Pool, t: TimerId)
    requires PoolOk(p) && t in p.timers && p.timers[t].owner.HeldBy? && !p.timers[t].active
    ensures PoolOk(Abandon(p, t))
  {
    assert TimerOk(p, t);
  }

  lemma ReleaseOk(p: Pool, t: TimerId)
    requires PoolOk(p) && t in p.timers && p.timers[t].owner == Releasing
    ensures PoolOk(Release(p, t))
  {
    assert TimerOk(p, t);
  }
}
