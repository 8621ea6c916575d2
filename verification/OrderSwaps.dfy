/** When trading two orders keeps the heap's own (score, order) order (peer_heap.go:100-108).

    swapOrder fixes the two slots one after the other, each as if it were the only one
    out of place. That is exact unless the entry sifted first runs into the other slot. */
module OrderSwaps {
  import opened HeapModel
  import opened PeerModel

  /** No entry comes before its parent: the order container/heap maintains. */
  predicate FullyOrdered(s: seq<Entry>) {
    forall j: nat :: 1 <= j < |s| ==> !Less(s[j], s[Parent(j)])
  }

  // ---------- paths in the heap ----------

  // a is d or an ancestor of d.
  predicate Above(a: nat, d: nat)
    decreases d
  {
    a == d || (a < d && Above(a, Parent(d)))
  }

  // The child of a on the way to d.
  function Toward(a: nat, d: nat): (c: nat)
    requires Above(a, d) && a != d
    ensures a < c <= d && Parent(c) == a && Above(c, d)
    decreases d
  {
    if Parent(d) == a then d else Toward(a, Parent(d))
  }

  lemma {:induction false} PathOrdered(s: seq<Entry>, a: nat, d: nat)
    requires FullyOrdered(s) && d < |s| && Above(a, d)
    ensures !Less(s[d], s[a])
    decreases d
  {
    if a == d {
    } else {
      PathOrdered(s, a, Parent(d));
      assert !Less(s[d], s[Parent(d)]);
    }
  }

  lemma {:induction false} ChildAbove(i: nat, c: nat, j: nat)
    requires 0 < c && Parent(c) == i && Above(c, j)
    ensures i != j && Above(i, j) && Toward(i, j) == c
    decreases j
  {
    if c == j {
    } else {
      ChildAbove(i, c, Parent(j));
    }
  }

  // An entry x sifted up from p gets as far as the child of j.
  predicate Rises(s: seq<Entry>, x: Entry, p: nat, j: nat)
    requires p < |s| && Above(j, p) && j != p
    decreases p
  {
    Parent(p) == j || (Less(x, s[Parent(p)]) && Rises(s, x, Parent(p), j))
  }

  // An entry x sifted down from i gets as far as the parent of j.
  predicate Sinks(s: seq<Entry>, x: Entry, i: nat, j: nat)
    requires j < |s| && Above(i, j) && i != j
    decreases j - i
  {
    Parent(j) == i ||
    var c := Toward(i, j);
    LesserChild(s, i, |s|) == c && Less(s[c], x) && Sinks(s, x, c, j)
  }

  lemma {:induction false} RisesSame(s: seq<Entry>, t: seq<Entry>, x: Entry, p: nat, j: nat)
    requires p < |s| == |t| && Above(j, p) && j != p
    requires forall k: nat :: j < k < p ==> s[k] == t[k]
    ensures Rises(s, x, p, j) == Rises(t, x, p, j)
    decreases p
  {
    if Parent(p) == j {
    } else {
      RisesSame(s, t, x, Parent(p), j);
    }
  }

  lemma {:induction false} SinksSame(s: seq<Entry>, t: seq<Entry>, x: Entry, y: Entry, i: nat, j: nat)
    requires j < |s| == |t| && Above(i, j) && i != j
    requires forall k: nat :: i < k < |s| && k != j ==> s[k] == t[k]
    requires x.score == y.score && x.order == y.order
    ensures Sinks(s, x, i, j) == Sinks(t, y, i, j)
    decreases j - i
  {
    if Parent(j) == i {
    } else {
      SinksSame(s, t, x, y, Toward(i, j), j);
    }
  }

  // ---------- sifting that does not look at slot j ----------

  lemma {:induction false} UpIgnores(s: seq<Entry>, p: nat, j: nat, y: Entry)
    requires p < |s| && j < |s| && p != j
    requires Above(j, p) && Rises(s, s[p], p, j) ==> !Less(s[p], s[j]) && !Less(s[p], y)
    ensures Up(s[j := y], p) == Up(s, p)[j := y]
    decreases p
  {
    var i := Parent(p);
    UpTurn(s, p);
    UpTurn(s[j := y], p);
    if i == j {
      assert Above(j, j) && Above(j, p) && Rises(s, s[p], p, j);
    } else if i == p || !Less(s[p], s[i]) {
    } else {
      var t := Swap(s, i, p);
      assert Swap(s[j := y], i, p) == t[j := y];
      if Above(j, i) {
        RisesSame(s, t, s[p], i, j);
      }
      UpIgnores(t, i, j, y);
    }
  }

  lemma {:induction false} DownIgnores(s: seq<Entry>, i: nat, j: nat, y: Entry)
    requires i < |s| && j < |s| && i != j
    requires Above(i, j) && Sinks(s, s[i], i, j) ==> !Less(s[j], s[i]) && !Less(y, s[i])
    ensures Down(s[j := y], i, |s|) == (Down(s, i, |s|).0[j := y], Down(s, i, |s|).1)
    decreases |s| - i
  {
    var n := |s|;
    if 2 * i + 1 >= n {
    } else {
      var c := LesserChild(s, i, n);
      if Parent(j) == i && j != 0 {
        assert Above(i, j) && Sinks(s, s[i], i, j);
      }
      if Less(s[c], s[i]) {
        var t := Swap(s, i, c);
        assert c != j;
        assert LesserChild(s[j := y], i, n) == c;
        assert Swap(s[j := y], i, c) == t[j := y];
        if Above(c, j) {
          ChildAbove(i, c, j);
          SinksSame(s, t, s[i], s[i], c, j);
        }
        DownIgnores(t, c, j, y);
      }
    }
  }

  lemma FixIgnores(s: seq<Entry>, i: nat, j: nat, y: Entry)
    requires i < |s| && j < |s| && i != j
    requires Above(j, i) && Rises(s, s[i], i, j) ==> !Less(s[i], s[j]) && !Less(s[i], y)
    requires Above(i, j) && Sinks(s, s[i], i, j) ==> !Less(s[j], s[i]) && !Less(y, s[i])
    ensures Fix(s[j := y], i) == Fix(s, i)[j := y]
  {
    hide Up, Down, Rises, Sinks, Less, Above;
    DownIgnores(s, i, j, y);
    if Down(s, i, |s|).1 == i {
      DownStays(s, i);
      UpIgnores(s, i, j, y);
    }
  }

  lemma DownStays(s: seq<Entry>, i: nat)
    requires i < |s| && Down(s, i, |s|).1 == i
    ensures Down(s, i, |s|) == (s, i)
  {
    DownTurn(s, i, |s|);
    hide Down;
  }

  // ---------- the heap's own order as a key ----------

  // (score, order) as one number, exact for orders up to top.
  function FullKey(top: nat): (key: Key) {
    (e: Entry) => e.score * (top + 1) + (if e.order < top then e.order else top)
  }

  lemma ScoreFirst(a: nat, b: nat, top: nat)
    requires a < b
    ensures a * (top + 1) + top < b * (top + 1)
  {
    MulAtLeast(b - a, top + 1);
    assert b * (top + 1) == a * (top + 1) + (b - a) * (top + 1);
  }

  lemma {:induction false} MulAtLeast(d: nat, m: nat)
    requires d > 0
    ensures d * m >= m
  {
  }

  lemma KeyFollowsLess(top: nat, a: Entry, b: Entry)
    ensures !Less(b, a) ==> FullKey(top)(a) <= FullKey(top)(b)
    ensures a.order <= top && b.order <= top && Less(b, a) ==> FullKey(top)(b) < FullKey(top)(a)
  {
    if a.score < b.score {
      ScoreFirst(a.score, b.score, top);
    } else if b.score < a.score {
      ScoreFirst(b.score, a.score, top);
    }
  }

  lemma FullRefined(top: nat)
    ensures Refined(FullKey(top))
  {
    forall a: Entry, b: Entry | !Less(b, a)
      ensures FullKey(top)(a) <= FullKey(top)(b)
    {
      KeyFollowsLess(top, a, b);
    }
  }

  predicate Bounded(s: seq<Entry>, top: nat) {
    forall e :: e in s ==> e.order <= top
  }

  lemma {:induction false} SomeBound(s: seq<Entry>) returns (top: nat)
    ensures Bounded(s, top)
  {
    if s == [] {
      top := 0;
    } else {
      top := SomeBound(s[1..]);
      top := if top < s[0].order then s[0].order else top;
      assert forall e :: e in s ==> e == s[0] || e in s[1..];
    }
  }

  lemma FullyIsOrdered(s: seq<Entry>, top: nat)
    requires Bounded(s, top)
    ensures FullyOrdered(s) <==> Ordered(FullKey(top), s, |s|)
  {
    hide Less, FullKey;
    forall j: nat | 1 <= j < |s|
      ensures !Less(s[j], s[Parent(j)]) <==> PairOk(FullKey(top), s, j)
    {
      KeyFollowsLess(top, s[Parent(j)], s[j]);
    }
  }

  // ---------- swaps that keep the order ----------

  lemma OneChanged(key: Key, t: seq<Entry>, j: nat, y: Entry)
    requires j < |t| && Ordered(key, t, |t|)
    ensures OrderedBut(key, t[j := y], |t|, j) && Bridged(key, t[j := y], |t|, j)
  {
    hide Parent;
    var u := t[j := y];
    forall k: nat | 1 <= k < |t| && k != j && Parent(k) != j
      ensures PairOk(key, u, k)
    {
      assert PairOk(key, t, k);
    }
    forall k: nat | j > 0 && 1 <= k < |t| && Parent(k) == j
      ensures key(u[Parent(j)]) <= key(u[k])
    {
      assert PairOk(key, t, k) && PairOk(key, t, j);
    }
  }

  // Fixing i first is right when that sift does not depend on what is in slot j.
  lemma IgnoredOrders(key: Key, s: seq<Entry>, i: nat, j: nat, x: Entry, y: Entry)
    requires Refined(key) && i < |s| && j < |s| && i != j && Ordered(key, s, |s|)
    requires Above(j, i) && Rises(s[i := x], x, i, j) ==> !Less(x, s[j]) && !Less(x, y)
    requires Above(i, j) && Sinks(s[i := x], x, i, j) ==> !Less(s[j], x) && !Less(y, x)
    ensures Ordered(key, Fix(Fix(s[i := x][j := y], i), j), |s|)
  {
    hide Ordered, OrderedBut, Bridged, Fix, Rises, Sinks, Above, Less;
    var s1 := s[i := x];
    OneChanged(key, s, i, x);
    FixOrders(key, s1, i);
    FixIgnores(s1, i, j, y);
    OneChanged(key, Fix(s1, i), j, y);
    FixOrders(key, Fix(s1, i)[j := y], j);
  }

  lemma OrderedStays(key: Key, s: seq<Entry>, j: nat)
    requires Refined(key) && j < |s| && Ordered(key, s, |s|)
    ensures Ordered(key, Fix(s, j), |s|)
  {
    OrderedGivesParts(key, s, j);
    FixOrders(key, s, j);
  }

  lemma SameKeysOrdered(key: Key, s: seq<Entry>, t: seq<Entry>)
    requires |s| == |t| && Ordered(key, s, |s|)
    requires forall k: nat :: k < |s| ==> key(s[k]) == key(t[k])
    ensures Ordered(key, t, |t|)
  {
    forall k: nat | 1 <= k < |t|
      ensures PairOk(key, t, k)
    {
      assert PairOk(key, s, k);
    }
  }

  // A small entry below j rises through entries as large as the one in slot j, and
  // changes places with that one in the end.
  lemma {:induction false} RisesOver(key: Key, s: seq<Entry>, p: nat, j: nat)
    requires Refined(key) && p < |s| && Above(j, p) && j != p && key(s[p]) < key(s[j])
    requires forall k: nat :: j < k < p && Above(k, p) ==> key(s[k]) == key(s[j])
    requires Ordered(key, Swap(s, p, j), |s|)
    ensures Ordered(key, Up(s, p), |s|)
    decreases p
  {
    hide Ordered, OrderedBut, Bridged, AboveChildren;
    var i := Parent(p);
    assert Above(i, p) && Above(j, i);
    assert key(s[i]) == key(s[j]);
    assert Less(s[p], s[i]);
    var t := Swap(s, i, p);
    if i == j {
      assert t == Swap(s, p, j);
      OrderedUp(key, t, j);
    } else {
      SameKeysOrdered(key, Swap(s, p, j), Swap(t, i, j));
      forall k: nat | j < k < i && Above(k, i)
        ensures key(t[k]) == key(t[j])
      {
        assert Above(k, p);
      }
      RisesOver(key, t, i, j);
    }
  }

  lemma OrderedUp(key: Key, s: seq<Entry>, j: nat)
    requires Refined(key) && j < |s| && Ordered(key, s, |s|)
    ensures Ordered(key, Up(s, j), |s|)
  {
    OrderedGivesParts(key, s, j);
    forall k: nat | 1 <= k < |s| && Parent(k) == j
      ensures key(s[j]) <= key(s[k])
    {
      assert PairOk(key, s, k);
    }
    UpOrders(key, s, j, |s|);
  }

  // An entry no child comes before is sifted up, if at all.
  lemma FixIsUp(s: seq<Entry>, i: nat)
    requires i < |s| && (forall k: nat :: 1 <= k < |s| && Parent(k) == i ==> !Less(s[k], s[i]))
    ensures Fix(s, i) == Up(s, i)
  {
    hide Up, Down;
    DownTurn(s, i, |s|);
  }

  // ---------- the two ways it goes wrong ----------

  /** Slot j is above i, and the entry that gets the smaller order passes it: the child of
      j on the way to i lies strictly between the two. */
  predicate PassesUp(s: seq<Entry>, i: nat, j: nat)
    requires i < |s| && j < |s|
  {
    Above(j, i) && j != i && Less(s[j], s[Toward(j, i)]) && Less(s[Toward(j, i)], s[i])
  }

  // Every slot strictly between i and j holds the lesser child of its parent.
  predicate LesserPath(s: seq<Entry>, i: nat, j: nat)
    requires j < |s| && Above(i, j) && i != j
    decreases j - i
  {
    Parent(j) == i ||
    var c := Toward(i, j);
    LesserChild(s, i, |s|) == c && LesserPath(s, c, j)
  }

  /** Slot j is below i, and the entry that gets the larger order passes it: it sinks
      through lesser children to the parent of j, which lies strictly between the two. */
  predicate PassesDown(s: seq<Entry>, i: nat, j: nat)
    requires i < |s| && j < |s|
  {
    && Above(i, j) && i != j && LesserPath(s, i, j)
    && Less(s[i], s[Parent(j)]) && Less(s[Parent(j)], s[j])
  }

  predicate Passes(s: seq<Entry>, i: nat, j: nat)
    requires i < |s| && j < |s|
  {
    s[i].score == s[j].score && (PassesUp(s, i, j) || PassesDown(s, i, j))
  }

  // In an ordered heap it is enough to compare with the slot next to j.
  lemma {:induction false} RisesIff(s: seq<Entry>, x: Entry, p: nat, j: nat)
    requires FullyOrdered(s) && p < |s| && Above(j, p) && j != p
    ensures Toward(j, p) != p ==> (Rises(s, x, p, j) <==> Less(x, s[Toward(j, p)]))
    decreases p
  {
    hide FullyOrdered;
    var q := Parent(p);
    if q == j {
    } else {
      RisesIff(s, x, q, j);
      PathOrdered(s, Toward(j, q), q);
    }
  }

  lemma {:induction false} SinksIff(s: seq<Entry>, x: Entry, i: nat, j: nat)
    requires FullyOrdered(s) && j < |s| && Above(i, j) && i != j && i != Parent(j)
    ensures Sinks(s, x, i, j) <==> LesserPath(s, i, j) && Less(s[Parent(j)], x)
    decreases j - i
  {
    hide FullyOrdered;
    var c := Toward(i, j);
    AboveParent(c, j);
    PathOrdered(s, c, Parent(j));
    if c == Parent(j) {
    } else {
      SinksIff(s, x, c, j);
    }
  }

  lemma AboveParent(a: nat, d: nat)
    requires Above(a, d) && a != d
    ensures Above(a, Parent(d))
  {
  }

  // ---------- not passing keeps the order ----------

  lemma SameScoreOrder(top: nat, a: Entry, b: Entry)
    requires a.score == b.score && a.order == b.order
    ensures FullKey(top)(a) == FullKey(top)(b)
  {
  }

  lemma TradeApart(s: seq<Entry>, i: nat, j: nat, top: nat)
    requires i < |s| && j < |s| && i != j && FullyOrdered(s) && Bounded(s, top)
    requires (!Above(i, j) && !Above(j, i)) || s[i].score != s[j].score
    ensures Ordered(FullKey(top), Fix(Fix(Traded(s, i, j), i), j), |s|)
  {
    hide FullyOrdered, FullKey, Ordered, Rises, Sinks, Fix;
    FullRefined(top);
    FullyIsOrdered(s, top);
    if Above(j, i) {
      PathOrdered(s, j, i);
    }
    if Above(i, j) {
      PathOrdered(s, i, j);
    }
    IgnoredOrders(FullKey(top), s, i, j, s[i].(order := s[j].order), s[j].(order := s[i].order));
  }

  lemma {:induction false} TowardVia(a: nat, b: nat, d: nat)
    requires Above(a, b) && a != b && Above(b, d)
    ensures a < b <= d && Above(a, d) && Toward(a, d) == Toward(a, b)
    decreases d
  {
    if b == d {
    } else {
      TowardVia(a, b, Parent(d));
    }
  }

  lemma {:induction false} AboveTotal(a: nat, b: nat, d: nat)
    requires Above(a, d) && Above(b, d) && a <= b
    ensures Above(a, b)
    decreases d
  {
    if b == d || a == d {
    } else {
      AboveTotal(a, b, Parent(d));
    }
  }

  lemma {:induction false} AboveAtMost(a: nat, d: nat)
    requires Above(a, d)
    ensures a <= d
  {
  }

  // The path between two entries that are as one under the key.
  lemma PathLevel(s: seq<Entry>, i: nat, j: nat, k: nat, top: nat)
    requires FullyOrdered(s) && Bounded(s, top) && i < |s| && Above(j, i) && j < k < i && Above(k, i)
    requires !Less(s[Toward(j, i)], s[i])
    ensures FullKey(top)(s[k]) == FullKey(top)(s[i])
  {
    hide FullyOrdered, FullKey;
    AboveTotal(j, k, i);
    TowardVia(j, k, i);
    PathOrdered(s, Toward(j, k), k);
    PathOrdered(s, k, i);
    KeyFollowsLess(top, s[k], s[i]);
    KeyFollowsLess(top, s[i], s[k]);
  }

  // Slot j is above i and the way up to it is blocked, or level with i.
  lemma TradeUp(s: seq<Entry>, i: nat, j: nat, top: nat)
    requires i < |s| && j < |s| && i != j && FullyOrdered(s) && Bounded(s, top)
    requires s[i].score == s[j].score && Above(j, i) && !PassesUp(s, i, j)
    ensures Ordered(FullKey(top), Fix(Fix(Traded(s, i, j), i), j), |s|)
  {
    hide Ordered, Fix, FullKey, Rises, Sinks, FullyOrdered;
    FullRefined(top);
    FullyIsOrdered(s, top);
    PathOrdered(s, j, i);
    AboveAtMost(j, i);
    var x, y := s[i].(order := s[j].order), s[j].(order := s[i].order);
    if !Less(s[j], s[Toward(j, i)]) {
      RisesIff(s, x, i, j);
      RisesSame(s[i := x], s, x, i, j);
      if Above(i, j) {
        AboveAtMost(i, j);
      }
      IgnoredOrders(FullKey(top), s, i, j, x, y);
    } else {
      TradeLevel(s, i, j, top);
      OrderedStays(FullKey(top), Fix(Traded(s, i, j), i), j);
    }
  }

  lemma TradedFixIsUp(s: seq<Entry>, i: nat, j: nat)
    requires i < |s| && j < i && FullyOrdered(s) && s[i].score == s[j].score && Less(s[j], s[i])
    ensures Fix(Traded(s, i, j), i) == Up(Traded(s, i, j), i)
  {
    hide Fix, Up;
    var t := Traded(s, i, j);
    forall k: nat | 1 <= k < |s| && Parent(k) == i
      ensures !Less(t[k], t[i])
    {
      assert !Less(s[k], s[i]);
    }
    FixIsUp(t, i);
  }

  lemma TradeLevel(s: seq<Entry>, i: nat, j: nat, top: nat)
    requires i < |s| && j < |s| && FullyOrdered(s) && Bounded(s, top)
    requires s[i].score == s[j].score && Above(j, i) && j < i
    requires Less(s[j], s[Toward(j, i)]) && !Less(s[Toward(j, i)], s[i])
    ensures Ordered(FullKey(top), Fix(Traded(s, i, j), i), |s|)
  {
    hide Ordered, Fix, FullKey, FullyOrdered, Up;
    var key, t := FullKey(top), Traded(s, i, j);
    PathOrdered(s, Toward(j, i), i);
    TradedFixIsUp(s, i, j);
    FullRefined(top);
    FullyIsOrdered(s, top);
    SameScoreOrder(top, t[i], s[j]);
    SameScoreOrder(top, t[j], s[i]);
    KeyFollowsLess(top, s[i], s[j]);
    SameKeysOrdered(key, s, Swap(t, i, j));
    forall k: nat | j < k < i && Above(k, i)
      ensures key(t[k]) == key(t[j])
    {
      PathLevel(s, i, j, k, top);
    }
    RisesOver(key, t, i, j);
  }

  // Slot j is below i and the way down to it is blocked, or level with i.
  lemma TradeDown(s: seq<Entry>, i: nat, j: nat, top: nat)
    requires i < |s| && j < |s| && i != j && FullyOrdered(s) && Bounded(s, top)
    requires s[i].score == s[j].score && Above(i, j) && !PassesDown(s, i, j)
    ensures Ordered(FullKey(top), Fix(Fix(Traded(s, i, j), i), j), |s|)
  {
    hide Ordered, Fix, FullKey, Rises, Sinks, FullyOrdered;
    FullRefined(top);
    FullyIsOrdered(s, top);
    AboveAtMost(i, j);
    var x, y := s[i].(order := s[j].order), s[j].(order := s[i].order);
    if Less(s[i], s[Parent(j)]) {
      SinksIff(s, x, i, j);
      SinksSame(s[i := x], s, x, x, i, j);
      if Above(j, i) {
        AboveAtMost(j, i);
      }
      IgnoredOrders(FullKey(top), s, i, j, x, y);
    } else {
      LevelParts(s, i, j, top);
      FixOrders(FullKey(top), Traded(s, i, j), i);
      OrderedStays(FullKey(top), Fix(Traded(s, i, j), i), j);
    }
  }

  lemma LevelParts(s: seq<Entry>, i: nat, j: nat, top: nat)
    requires i < |s| && j < |s| && i < j && FullyOrdered(s) && Bounded(s, top)
    requires s[i].score == s[j].score && Above(i, j) && !Less(s[i], s[Parent(j)])
    ensures OrderedBut(FullKey(top), Traded(s, i, j), |s|, i) && Bridged(FullKey(top), Traded(s, i, j), |s|, i)
  {
    hide FullKey, Less, Parent, FullyOrdered;
    var key, t := FullKey(top), Traded(s, i, j);
    FullyIsOrdered(s, top);
    SameScoreOrder(top, t[j], s[i]);
    PathOrdered(s, i, j);
    KeyFollowsLess(top, s[i], s[j]);
    KeyFollowsLess(top, s[Parent(j)], s[i]);
    forall k: nat | 1 <= k < |s| && k != i && Parent(k) != i
      ensures PairOk(key, t, k)
    {
      assert PairOk(key, s, k);
    }
    forall k: nat | i > 0 && 1 <= k < |s| && Parent(k) == i
      ensures key(t[Parent(i)]) <= key(t[k])
    {
      assert PairOk(key, s, k) && PairOk(key, s, i);
    }
  }

  // ---------- passing breaks it ----------

  // Where everything is after the entry in slot p has risen into slot j.
  ghost predicate Risen(s: seq<Entry>, r: seq<Entry>, p: nat, j: nat)
    requires p < |s| == |r| && Above(j, p) && j != p
  {
    var c := Toward(j, p);
    && r[j] == s[p] && r[c] == s[j] && (c != p ==> r[Toward(c, p)] == s[c])
    && (forall k: nat :: k < |s| && (k < j || k > p || (Parent(k) == j && k != j && k != c)) ==> r[k] == s[k])
  }

  lemma RisenStep(s: seq<Entry>, r: seq<Entry>, p: nat, j: nat)
    requires p < |s| == |r| && Above(j, p) && j != p && j != Parent(p)
    requires Risen(Swap(s, Parent(p), p), r, Parent(p), j)
    ensures Risen(s, r, p, j)
  {
    var c := Toward(j, p);
    assert c == Toward(j, Parent(p));
    if c == Parent(p) {
      assert Toward(c, p) == p;
    } else {
      AboveParent(c, p);
      assert Toward(c, p) == Toward(c, Parent(p));
    }
  }

  lemma {:induction false} RisesTo(s: seq<Entry>, p: nat, j: nat)
    requires p < |s| && Above(j, p) && j != p && Rises(s, s[p], p, j)
    requires Less(s[p], s[j]) && (j > 0 ==> !Less(s[p], s[Parent(j)]))
    ensures Risen(s, Up(s, p), p, j)
    decreases p
  {
    hide Up;
    UpTurn(s, p);
    var i := Parent(p);
    var t := Swap(s, i, p);
    if i == j {
      UpTurn(t, j);
    } else {
      AboveParent(j, p);
      AboveAtMost(j, i);
      RisesSame(s, t, s[p], i, j);
      hide Risen, Less;
      RisesTo(t, i, j);
      RisenStep(s, Up(t, i), p, j);
    }
  }

  // Where everything is after the entry in slot i has sunk into slot j.
  ghost predicate Sunk(s: seq<Entry>, r: seq<Entry>, i: nat, j: nat)
    requires i < j < |s| == |r|
  {
    var q := Parent(j);
    && r[j] == s[i] && r[q] == s[j] && (q != i ==> r[Parent(q)] == s[q])
    && (forall k: nat :: k < |s| && (k < i || k > j) ==> r[k] == s[k])
  }

  lemma SunkStep(s: seq<Entry>, r: seq<Entry>, i: nat, c: nat, j: nat)
    requires i < c < j < |s| == |r| && Parent(c) == i && c <= Parent(j)
    requires Sunk(Swap(s, i, c), r, c, j)
    ensures Sunk(s, r, i, j)
  {
  }

  // The entry in slot i will sink into slot j and stay there.
  ghost predicate WillSink(s: seq<Entry>, i: nat, j: nat)
    requires i < j < |s| && Above(i, j)
  {
    && Sinks(s, s[i], i, j) && LesserChild(s, Parent(j), |s|) == j && Less(s[j], s[i])
    && (forall k: nat :: 1 <= k < |s| && Parent(k) == j ==> !Less(s[k], s[i]))
  }

  lemma LastTurn(s: seq<Entry>, j: nat)
    requires 0 < j < |s| && Above(Parent(j), j) && WillSink(s, Parent(j), j)
    ensures Down(s, Parent(j), |s|) == (Swap(s, Parent(j), j), j)
  {
    hide Down, Less;
    var t := Swap(s, Parent(j), j);
    DownTurn(s, Parent(j), |s|);
    DownTurn(t, j, |s|);
  }

  lemma FirstTurn(s: seq<Entry>, i: nat, j: nat)
    requires i < j < |s| && Above(i, j) && WillSink(s, i, j) && Parent(j) != i
    ensures var c := Toward(i, j); var t := Swap(s, i, c);
      c <= Parent(j) && WillSink(t, c, j) && Down(s, i, |s|) == Down(t, c, |s|)
  {
    hide Down, Less;
    DownTurn(s, i, |s|);
    StillSinks(s, i, j);
  }

  lemma StillSinks(s: seq<Entry>, i: nat, j: nat)
    requires i < j < |s| && Above(i, j) && WillSink(s, i, j) && Parent(j) != i
    ensures var c := Toward(i, j); c <= Parent(j) && WillSink(Swap(s, i, c), c, j)
  {
    hide Less;
    var c := Toward(i, j);
    var t := Swap(s, i, c);
    AboveParent(c, j);
    AboveAtMost(c, Parent(j));
    SinksSame(s, t, s[i], s[i], c, j);
    hide Sinks;
  }

  lemma {:induction false} SinksTo(s: seq<Entry>, i: nat, j: nat)
    requires i < j < |s| && Above(i, j) && WillSink(s, i, j)
    ensures Down(s, i, |s|).1 == j && Sunk(s, Down(s, i, |s|).0, i, j)
    decreases j - i
  {
    hide Down, Less, WillSink;
    if Parent(j) == i {
      LastTurn(s, j);
    } else {
      hide Sunk, Swap;
      FirstTurn(s, i, j);
      var c := Toward(i, j);
      SinksTo(Swap(s, i, c), c, j);
      SunkStep(s, Down(s, i, |s|).0, i, c, j);
    }
  }

  // An entry in order with its parent and children does not move.
  lemma FixStays(s: seq<Entry>, j: nat)
    requires j < |s| && (forall k: nat :: 1 <= k < |s| && Parent(k) == j ==> !Less(s[k], s[j]))
    requires j > 0 ==> !Less(s[j], s[Parent(j)])
    ensures Fix(s, j) == s
  {
    hide Fix, Up;
    FixIsUp(s, j);
    UpTurn(s, j);
  }

  lemma TradeUpBreaks(s: seq<Entry>, i: nat, j: nat)
    requires i < |s| && j < |s| && FullyOrdered(s) && s[i].score == s[j].score && PassesUp(s, i, j)
    ensures !FullyOrdered(Fix(Fix(Traded(s, i, j), i), j))
  {
    hide Fix, Up;
    AboveAtMost(j, i);
    var t, c := Traded(s, i, j), Toward(j, i);
    TradedFixIsUp(s, i, j);
    RisesIff(s, t[i], i, j);
    RisesSame(s, t, t[i], i, j);
    if j > 0 {
      assert !Less(s[j], s[Parent(j)]);
    }
    RisesTo(t, i, j);
    var r := Up(t, i);
    forall k: nat | 1 <= k < |s| && Parent(k) == j
      ensures !Less(r[k], r[j])
    {
      assert !Less(s[k], s[j]);
    }
    FixStays(r, j);
    assert Less(r[Toward(c, i)], r[c]);
  }

  lemma TradedWillSink(s: seq<Entry>, i: nat, j: nat)
    requires i < j < |s| && FullyOrdered(s) && s[i].score == s[j].score && PassesDown(s, i, j)
    ensures WillSink(Traded(s, i, j), i, j)
  {
    var t, q := Traded(s, i, j), Parent(j);
    SinksIff(s, t[i], i, j);
    SinksSame(s, t, t[i], t[i], i, j);
    hide Sinks, LesserPath, Above;
    forall k: nat | 1 <= k < |s| && (Parent(k) == q || Parent(k) == j)
      ensures !Less(s[k], s[Parent(k)])
    {
    }
  }

  lemma TradeDownBreaks(s: seq<Entry>, i: nat, j: nat)
    requires i < j < |s| && FullyOrdered(s) && s[i].score == s[j].score && PassesDown(s, i, j)
    ensures !FullyOrdered(Fix(Fix(Traded(s, i, j), i), j))
  {
    hide Fix, Down, WillSink;
    var t, q := Traded(s, i, j), Parent(j);
    TradedWillSink(s, i, j);
    SinksTo(t, i, j);
    var r := Down(t, i, |s|).0;
    FixIsDown(t, i);
    forall k: nat | 1 <= k < |s| && Parent(k) == j
      ensures !Less(r[k], r[j])
    {
      assert !Less(s[k], s[j]);
    }
    FixStays(r, j);
    AboveParent(i, j);
    AboveAtMost(i, q);
    assert Less(r[q], r[Parent(q)]);
  }

  lemma FixIsDown(s: seq<Entry>, i: nat)
    requires i < |s| && Down(s, i, |s|).1 > i
    ensures Fix(s, i) == Down(s, i, |s|).0
  {
  }

  /** Trading the orders of two slots of an ordered heap leaves it ordered if and only if
      the entry sifted first does not pass the other slot: the scores differ, or neither
      PassesUp nor PassesDown holds of the heap before the call. */
  lemma SwapOrderKeepsOrder(s: seq<Entry>, i: nat, j: nat)
    requires i < |s| && j < |s| && FullyOrdered(s)
    ensures FullyOrdered(SwapOrder(s, i, j)) <==> !Passes(s, i, j)
  {
    hide FullyOrdered, Fix, Less;
    if i == j {
    } else if Passes(s, i, j) {
      SwapOrderBreaks(s, i, j);
    } else {
      var top := SomeBound(s);
      if !(Above(i, j) || Above(j, i)) || s[i].score != s[j].score {
        TradeApart(s, i, j, top);
      } else if Above(j, i) {
        TradeUp(s, i, j, top);
      } else {
        TradeDown(s, i, j, top);
      }
      TradedBounded(s, i, j, top);
      FullyIsOrdered(SwapOrder(s, i, j), top);
    }
  }

  lemma SwapOrderBreaks(s: seq<Entry>, i: nat, j: nat)
    requires i < |s| && j < |s| && FullyOrdered(s) && i != j && Passes(s, i, j)
    ensures !FullyOrdered(SwapOrder(s, i, j))
  {
    hide FullyOrdered, Fix, Less;
    if PassesUp(s, i, j) {
      TradeUpBreaks(s, i, j);
    } else {
      AboveAtMost(i, j);
      TradeDownBreaks(s, i, j);
    }
  }

  lemma TradedBounded(s: seq<Entry>, i: nat, j: nat, top: nat)
    requires i < |s| && j < |s| && i != j && Bounded(s, top)
    ensures Bounded(SwapOrder(s, i, j), top)
  {
    hide Fix;
    var t := Traded(s, i, j);
    FixPermutes(t, i);
    FixPermutes(Fix(t, i), j);
    forall e | e in SwapOrder(s, i, j)
      ensures e.order <= top
    {
      assert e in multiset(SwapOrder(s, i, j));
    }
  }

  /** Adding a peer to an ordered heap: the push keeps the order, and the random trade of
      orders keeps it exactly when it does not pass the slot it trades with. */
  lemma AddKeepsOrder(h: State, e: Entry, jitter: nat, slot: nat)
    requires slot <= |h.entries| && FullyOrdered(h.entries)
    ensures var s := PushPeer(h, e, jitter).entries; var at := IndexOf(s, e.host);
      && FullyOrdered(s) && 0 <= at
      && (FullyOrdered(AddPeer(h, e, jitter, slot).entries) <==> !Passes(s, at, slot))
  {
    hide FullyOrdered, Push, SwapOrder, Passes, Ordered;
    AddedIsThere(h, e, jitter);
    PushKeepsOrder(h.entries, e.(order := h.order + 1 + jitter));
    var s := PushPeer(h, e, jitter).entries;
    SwapOrderKeepsOrder(s, IndexOf(s, e.host), slot);
  }

  lemma PushKeepsOrder(s: seq<Entry>, e: Entry)
    requires FullyOrdered(s)
    ensures FullyOrdered(Push(s, e))
  {
    hide FullyOrdered, Push, Ordered;
    var top := SomeBound(s + [e]);
    FullRefined(top);
    assert Bounded(s, top) by {
      assert forall x :: x in s ==> x in s + [e];
    }
    FullyIsOrdered(s, top);
    PushOrders(FullKey(top), s, e);
    PushPermutes(s, e);
    forall x | x in Push(s, e)
      ensures x in s + [e]
    {
      assert x in multiset(Push(s, e));
    }
    FullyIsOrdered(Push(s, e), top);
  }

  function Ties(orders: seq<nat>): (s: seq<Entry>) {
    seq(|orders|, i requires 0 <= i < |orders| => Entry("", 0, orders[i]))
  }

  /** The smallest heap it happens to: with equal scores and orders 1, 2, 3, 4, trading the
      orders of the last and the first entry leaves a parent of order 4 above a child of
      order 2. */
  lemma SwapOrderBreaksTies()
    ensures FullyOrdered(Ties([1, 2, 3, 4])) && Passes(Ties([1, 2, 3, 4]), 3, 0)
    ensures SwapOrder(Ties([1, 2, 3, 4]), 3, 0) == Ties([1, 4, 3, 2]) && !FullyOrdered(Ties([1, 4, 3, 2]))
  {
    assert Above(0, 1) && Above(0, 3) && Toward(0, 3) == 1;
    assert Traded(Ties([1, 2, 3, 4]), 3, 0) == Ties([4, 2, 3, 1]);
    FixLast();
    FixFirst();
    assert Less(Ties([1, 4, 3, 2])[3], Ties([1, 4, 3, 2])[Parent(3)]);
  }

  lemma FixLast()
    ensures Fix(Ties([4, 2, 3, 1]), 3) == Ties([1, 4, 3, 2])
  {
    var s1, s2, s3 := Ties([4, 2, 3, 1]), Ties([4, 1, 3, 2]), Ties([1, 4, 3, 2]);
    assert Swap(s1, 1, 3) == s2;
    assert Swap(s2, 0, 1) == s3;
    assert Up(s2, 1) == Up(s3, 0);
  }

  lemma FixFirst()
    ensures Fix(Ties([1, 4, 3, 2]), 0) == Ties([1, 4, 3, 2])
  {
    assert LesserChild(Ties([1, 4, 3, 2]), 0, 4) == 2;
  }
}
