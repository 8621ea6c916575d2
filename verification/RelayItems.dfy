/** The tables and timers a relayer updates in place (relay.go:74-203,
    relay_timer_pool.go), and the part of the relay's state they are. */
module RelayItems {
  import opened RelayTimers
  import opened RelayModel

  datatype MaybeItem = NoItem | Got(item: Item)

  /** The value of one relayItems. */
  datatype Table = Table(maxTombs: nat, tombs: int, items: map<nat, Item>)

  function Tombstones(items: map<nat, Item>): (ids: set<nat>) {
    set id | id in items && items[id].tomb
  }

  function Live(items: map<nat, Item>): (ids: set<nat>) {
    set id | id in items && !items[id].tomb
  }

  // The tomb counter is exact, and at most one over its limit.
  predicate TableOk(t: Table) {
    t.tombs == |Tombstones(t.items)| <= t.maxTombs + 1
  }

  function Without(t: Table, id: nat): (t': Table) {
    if id !in t.items then t
    else t.(items := t.items - {id}, tombs := if t.items[id].tomb then t.tombs - 1 else t.tombs)
  }

  function Entombed(t: Table, id: nat): (t': Table) {
    if id !in t.items || t.items[id].tomb then t
    else t.(items := t.items[id := t.items[id].(tomb := true)], tombs := t.tombs + 1)
  }

  function WithItem(t: Table, id: nat, item: Item): (t': Table) {
    t.(items := t.items[id := item])
  }

  function At(items: map<nat, Item>, id: nat): (m: MaybeItem) {
    if id in items then Got(items[id]) else NoItem
  }

  lemma WithItemOk(t: Table, id: nat, item: Item)
    requires TableOk(t)
    ensures TableOk(WithItem(t, id, item)) <==> item.tomb == (id in t.items && t.items[id].tomb)
    ensures !item.tomb ==> Live(WithItem(t, id, item).items) == Live(t.items) + {id}
  {
    var now := t.items[id := item];
    TombsAt(t.items, id);
    TombsAt(now, id);
    assert Tombstones(now) - {id} == Tombstones(t.items) - {id};
    if !item.tomb {
      LivePut(t.items, id, item);
    }
    hide Tombstones, Live;
  }

  lemma TombsAt(items: map<nat, Item>, id: nat)
    ensures |Tombstones(items)| == |Tombstones(items) - {id}| + if id in items && items[id].tomb then 1 else 0
  {
    if id in items && items[id].tomb {
      assert Tombstones(items) == (Tombstones(items) - {id}) + {id};
    } else {
      assert Tombstones(items) == Tombstones(items) - {id};
    }
  }

  lemma LivePut(items: map<nat, Item>, id: nat, item: Item)
    requires !item.tomb
    ensures Live(items[id := item]) == Live(items) + {id}
  {
  }

  lemma WithoutOk(t: Table, id: nat)
    requires TableOk(t)
    ensures TableOk(Without(t, id)) && Live(Without(t, id).items) == Live(t.items) - {id}
  {
    if id in t.items && t.items[id].tomb {
      assert Tombstones(t.items) == Tombstones(t.items - {id}) + {id};
    } else {
      assert Tombstones(t.items - {id}) == Tombstones(t.items);
      assert id !in t.items ==> Live(t.items) == Live(t.items) - {id};
    }
  }

  lemma EntombedOk(t: Table, id: nat)
    requires TableOk(t) && t.tombs <= t.maxTombs
    ensures TableOk(Entombed(t, id)) && Live(Entombed(t, id).items) == Live(t.items) - {id}
  {
    if id in t.items && !t.items[id].tomb {
      assert Tombstones(Entombed(t, id).items) == Tombstones(t.items) + {id};
    } else {
      assert Live(t.items) == Live(t.items) - {id};
    }
  }

  lemma LiveCount(items: map<nat, Item>)
    ensures |items| - |Tombstones(items)| == |Live(items)|
  {
    assert items.Keys == Tombstones(items) + Live(items);
    assert Tombstones(items) !! Live(items);
  }

  class Items {
    const maxTombs: nat
    var tombs: nat
    var items: map<nat, Item>

    ghost function View(): (t: Table)
      reads this
    {
      Table(maxTombs, tombs, items)
    }

    ghost predicate Valid()
      reads this
    {
      TableOk(View())
    }

    constructor (maxTombs: nat)
      ensures Valid() && View() == Table(if maxTombs == 0 then 30_000 else maxTombs, 0, map[])
    {
      this.maxTombs := if maxTombs == 0 then 30_000 else maxTombs;
      tombs, items := 0, map[];
    }

    method Count() returns (n: int)
      requires Valid()
      ensures n == |Live(items)|
    {
      LiveCount(items);
      n := |items| - tombs;
    }

    /** Adds or overwrites; the tomb counter stays exact exactly if what is overwritten is a
        tombstone just when the new item is one. */
    method Add(id: nat, item: Item)
      requires Valid()
      modifies this
      ensures View() == WithItem(old(View()), id, item)
      ensures Valid() <==> item.tomb == old(id in items && items[id].tomb)
      ensures !item.tomb ==> Live(items) == old(Live(items)) + {id}
    {
      WithItemOk(View(), id, item);
      items := items[id := item];
    }

    /** Returns the deleted item, whose timer is then released, and whether this completed a
        call, that is, removed a live item. */
    method Delete(id: nat) returns (was: MaybeItem, completed: bool)
      requires Valid()
      modifies this
      ensures Valid() && View() == Without(old(View()), id)
      ensures was == At(old(items), id)
      ensures completed == (id in old(Live(items))) && Live(items) == old(Live(items)) - {id}
    {
      WithoutOk(View(), id);
      if id !in items { return NoItem, false; }
      var item := items[id];
      items := items - {id};
      if item.tomb {
        tombs := tombs - 1;
      }
      return Got(item), !item.tomb;
    }

    /** Tombs a live item, or removes it when there are too many tombstones. Returns the
        item as it is left, whether this completed a call, and whether the tombstone is to
        be collected later. */
    method Entomb(id: nat) returns (now: MaybeItem, completed: bool, collect: bool)
      requires Valid()
      modifies this
      ensures Valid()
      ensures View() == if old(tombs) > maxTombs then Without(old(View()), id) else Entombed(old(View()), id)
      ensures now == if old(tombs) > maxTombs then At(old(items), id) else At(items, id)
      ensures completed == (id in old(Live(items))) && Live(items) == old(Live(items)) - {id}
      ensures collect == (id in old(Live(items)) && id in items)
    {
      if tombs > maxTombs {
        now, completed := Delete(id);
        return now, completed, false;
      }
      EntombedOk(View(), id);
      if id !in items { return NoItem, false, false; }
      if items[id].tomb { return Got(items[id]), false, false; }
      tombs := tombs + 1;
      items := items[id := items[id].(tomb := true)];
      return Got(items[id]), true, true;
    }
  }

  /** A relay timer. Its methods panic unless the caller keeps to what they require, which
      RelayTimerSafety.TimersSafe shows the relay does. */
  class RelayTimer {
    const pool: RelayerId
    var active: bool
    var stopped: bool
    var released: bool
    var armed: bool
    var items: MaybeKey
    var starts: nat
    ghost var owner: Owner

    ghost function View(): (tm: Timer)
      reads this
    {
      Timer(pool, active, stopped, released, armed, items, starts, owner)
    }

    // The underlying timer only runs for an active timer, which knows its item.
    ghost predicate Valid()
      reads this
    {
      (armed ==> active) && (active ==> !stopped && items.ForKey?)
    }

    constructor (pool: RelayerId)
      ensures Valid() && View() == NewTimer(pool)
    {
      this.pool := pool;
      active, stopped, released, armed, items, starts := false, false, false, false, NoKey, 0;
      owner := Free;
    }

    method Start(k: Key)
      requires Valid() && !released && !active
      modifies this
      ensures Valid() && View() == StartTimer(old(View()), k)
    {
      active, stopped, items := true, false, ForKey(k);
      armed, starts, owner := true, starts + 1, HeldBy(k);
    }

    method MarkInactive()
      modifies this
      ensures View() == TriggerTimer(old(View()))
    {
      active, items := false, NoKey;
    }

    method Stop() returns (ok: bool)
      requires Valid() && !released
      modifies this
      ensures Valid() && View() == StopTimer(old(View())) && ok == StopResult(old(View()))
      ensures ok ==> !active && !armed
    {
      if stopped { return true; }
      ok := armed;
      armed := false;
      if ok {
        stopped := true;
        MarkInactive();
      }
    }

    /** Runs once the underlying timer has fired; returns the item to time out. */
    method OnTimer() returns (k: MaybeKey)
      requires Valid() && !released && active && !armed
      modifies this
      ensures Valid() && View() == TriggerTimer(old(View())) && k == old(items) && k.ForKey?
    {
      k := items;
      MarkInactive();
    }

    method Release()
      requires Valid() && !released && !active
      modifies this
      ensures Valid() && View() == FreeTimer(old(View()))
    {
      released := true;
      owner := Free;
    }
  }

  // ---------- the tables of the relay ----------

  // One table of the relay's state.
  function TableOf(s: State, r: RelayerId, d: Dir): (t: Table) {
    Table(s.maxTombs, Tombs(s, r, d), ItemsOf(s.items, r, d))
  }

  function ItemsOf(items: RelayModel.Items, r: RelayerId, d: Dir): (t: map<nat, Item>) {
    map k | k in items && k.r == r && k.dir == d :: k.id := items[k]
  }

  lemma InTable(items: RelayModel.Items, r: RelayerId, d: Dir, id: nat)
    ensures id in ItemsOf(items, r, d) <==> Key(r, d, id) in items
    ensures Key(r, d, id) in items ==> ItemsOf(items, r, d)[id] == items[Key(r, d, id)]
  {
    if Key(r, d, id) in items {
      assert Key(r, d, id).id in ItemsOf(items, r, d);
    }
  }

  lemma RemoveFromTable(items: RelayModel.Items, k: Key, r: RelayerId, d: Dir)
    ensures ItemsOf(items - {k}, r, d) == ItemsOf(items, r, d) - if r == k.r && d == k.dir then {k.id} else {}
  {
    var was, now := ItemsOf(items, r, d), ItemsOf(items - {k}, r, d);
    var want := was - if r == k.r && d == k.dir then {k.id} else {};
    hide ItemsOf;
    forall id
      ensures (id in now <==> id in want) && (id in now ==> now[id] == want[id])
    {
      InTable(items, r, d, id);
      InTable(items - {k}, r, d, id);
    }
  }

  lemma PutInTable(items: RelayModel.Items, k: Key, item: Item, r: RelayerId, d: Dir)
    ensures ItemsOf(items[k := item], r, d) ==
      if r == k.r && d == k.dir then ItemsOf(items, r, d)[k.id := item] else ItemsOf(items, r, d)
  {
    var was, now := ItemsOf(items, r, d), ItemsOf(items[k := item], r, d);
    var want := if r == k.r && d == k.dir then was[k.id := item] else was;
    hide ItemsOf;
    forall id
      ensures (id in now <==> id in want) && (id in now ==> now[id] == want[id])
    {
      InTable(items, r, d, id);
      InTable(items[k := item], r, d, id);
    }
  }

  /** The protocol's step that deletes an item is the table's operation on one table and
      leaves every other table as it was; it leaves the release of the deleted item's timer
      to be done. */
  lemma DeleteOnTable(s: State, k: Key, settle: bool, r: RelayerId, d: Dir)
    ensures TableOf(DoDelete(s, k, settle).s, r, d) ==
      if r == k.r && d == k.dir then Without(TableOf(s, r, d), k.id) else TableOf(s, r, d)
    ensures forall t :: ReleaseTimer(t) in DoDelete(s, k, settle).work <==>
      At(TableOf(s, k.r, k.dir).items, k.id).Got? && t == At(TableOf(s, k.r, k.dir).items, k.id).item.timer
  {
    hide Abandon, ItemsOf;
    InTable(s.items, k.r, k.dir, k.id);
    RemoveFromTable(s.items, k, r, d);
    assert ItemsOf(s.items, r, d) - {} == ItemsOf(s.items, r, d);
  }

  /** Adding an item is the table's operation on one table. */
  lemma AddOnTable(s: State, k: Key, item: Item, to: Key, r: RelayerId, d: Dir)
    ensures TableOf(AddItem(s, k, item, to), r, d) ==
      if r == k.r && d == k.dir then WithItem(TableOf(s, r, d), k.id, item) else TableOf(s, r, d)
  {
    hide GetAndStart, ItemsOf;
    PutInTable(s.items, k, item, r, d);
  }

  /** So is the step that entombs one, unless there are too many tombstones already; it
      leaves a tombstone to be collected just when it makes one. */
  lemma EntombOnTable(s: State, k: Key, r: RelayerId, d: Dir)
    ensures TableOf(DoEntomb(s, k).s, r, d) ==
      if r == k.r && d == k.dir && Tombs(s, r, d) <= s.maxTombs then Entombed(TableOf(s, r, d), k.id)
      else TableOf(s, r, d)
    ensures CollectTomb(k) in DoEntomb(s, k).work <==>
      Tombs(s, k.r, k.dir) <= s.maxTombs && k.id in Live(TableOf(s, k.r, k.dir).items)
  {
    hide ItemsOf;
    InTable(s.items, k.r, k.dir, k.id);
    if k in s.items {
      PutInTable(s.items, k, s.items[k].(tomb := true), r, d);
    }
  }
}
