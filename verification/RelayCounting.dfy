/** Counting the items and the tasks of a relay state. */
module RelayCounting {
  import opened Bags
  import opened RelayTimers
  import opened RelayModel

  // How many items satisfy p.
  function Count(items: Items, p: (Key, Item) -> bool): (n: nat) {
    |Matching(items, p)|
  }

  function Matching(items: Items, p: (Key, Item) -> bool): (r: set<Key>) {
    set k | k in items && p(k, items[k])
  }

  // ---------- sums ----------

  // What the step's own task weighed.
  function Taken(s: State, st: Step, w: Task -> nat): (n: nat)
    requires Enabled(s, st)
  {
    if st.Run? then w(s.tasks[st.i]) else 0
  }

  lemma SumOthers(s: State, st: Step, w: Task -> nat)
    requires Enabled(s, st)
    ensures Sum(Others(s, st), w) == Sum(s.tasks, w) - Taken(s, st, w)
  {
    if st.Run? {
      SumWithout(s.tasks, st.i, w);
    }
  }

  /** A step replaces the weight of its own task by that of the work it leaves. */
  lemma SumStep(s: State, st: Step, w: Task -> nat)
    requires Enabled(s, st)
    ensures Sum(Apply(s, st).tasks, w) == Sum(s.tasks, w) - Taken(s, st, w) + Sum(Perform(s, st).work, w)
  {
    SumOthers(s, st, w);
    SumConcat(Others(s, st), Perform(s, st).work, w);
  }

  // ---------- counts ----------

  lemma CountAt(items: Items, k: Key, p: (Key, Item) -> bool)
    ensures Count(items, p) == Count(items - {k}, p) + One(k in items && p(k, items[k]))
  {
    if k in items && p(k, items[k]) {
      assert Matching(items, p) == Matching(items - {k}, p) + {k};
    } else {
      assert Matching(items, p) == Matching(items - {k}, p);
    }
  }

  lemma CountPut(items: Items, k: Key, item: Item, p: (Key, Item) -> bool)
    ensures Count(items[k := item], p) ==
      Count(items, p) + One(p(k, item)) - One(k in items && p(k, items[k]))
  {
    CountAt(items, k, p);
    CountAt(items[k := item], k, p);
    assert items[k := item] - {k} == items - {k};
  }

  lemma CountSplit(items: Items, p: (Key, Item) -> bool, q: (Key, Item) -> bool, r: (Key, Item) -> bool)
    requires forall k, item :: p(k, item) <==> q(k, item) || r(k, item)
    requires forall k, item :: !(q(k, item) && r(k, item))
    ensures Count(items, p) == Count(items, q) + Count(items, r)
  {
    assert Matching(items, p) == Matching(items, q) + Matching(items, r);
    assert Matching(items, q) !! Matching(items, r);
  }
}
