/** The peer heap on values (peer_heap.go, with container/heap written out).

    Peers are ordered by score, ties by `order`. Swapping two orders does not
    always restore that order (OrderSwaps says when), so nothing here relies on
    it: every operation is shown to keep the heap order of each key that
    (score, order) refines. */
module HeapModel {

  datatype Entry = Entry(host: string, score: nat, order: nat)

  // peerHeap.Less
  predicate Less(a: Entry, b: Entry) {
    if a.score == b.score then a.order < b.order else a.score < b.score
  }

  function Parent(j: nat): (i: nat)
    ensures j == 0 ==> i == 0
    ensures j > 0 ==> i < j && (j == 2 * i + 1 || j == 2 * i + 2)
  {
    if j == 0 then 0 else (j - 1) / 2
  }

  function Swap(s: seq<Entry>, i: nat, j: nat): (r: seq<Entry>)
    requires i < |s| && j < |s|
    ensures |r| == |s|
  {
    s[i := s[j]][j := s[i]]
  }

  // ---------- container/heap ----------

  function Up(s: seq<Entry>, j: nat): (r: seq<Entry>)
    requires j < |s|
    ensures |r| == |s|
    ensures r[j + 1..] == s[j + 1..]
    decreases j
  {
    var i := Parent(j);
    if i == j || !Less(s[j], s[i]) then s else Up(Swap(s, i, j), i)
  }

  // One turn of the loop in up.
  lemma UpTurn(s: seq<Entry>, j: nat)
    requires j < |s|
    ensures var i := Parent(j);
            Up(s, j) == if i == j || !Less(s[j], s[i]) then s else Up(Swap(s, i, j), i)
  {
  }

  // The child of i that would be swapped with it, if i has any child below n.
  function LesserChild(s: seq<Entry>, i: nat, n: nat): (j: nat)
    requires 2 * i + 1 < n <= |s|
    ensures i < j < n && Parent(j) == i
  {
    if 2 * i + 2 < n && Less(s[2 * i + 2], s[2 * i + 1]) then 2 * i + 2 else 2 * i + 1
  }

  // The heap after sifting down, and where the entry came to rest.
  function Down(s: seq<Entry>, i: nat, n: nat): (r: (seq<Entry>, nat))
    requires i < n <= |s|
    ensures |r.0| == |s| && i <= r.1 < n
    ensures r.0[n..] == s[n..]
    decreases n - i
  {
    if 2 * i + 1 >= n then (s, i)
    else
      var j := LesserChild(s, i, n);
      if !Less(s[j], s[i]) then (s, i) else Down(Swap(s, i, j), j, n)
  }

  // One turn of the loop in down.
  lemma DownTurn(s: seq<Entry>, i: nat, n: nat)
    requires i < n <= |s|
    ensures 2 * i + 1 >= n ==> Down(s, i, n) == (s, i)
    ensures 2 * i + 1 < n ==>
              var j := LesserChild(s, i, n);
              Down(s, i, n) == if !Less(s[j], s[i]) then (s, i) else Down(Swap(s, i, j), j, n)
  {
  }

  // down and, if nothing moved, up, among the first n entries.
  function SiftAt(s: seq<Entry>, i: nat, n: nat): (r: seq<Entry>)
    requires i < n <= |s|
    ensures |r| == |s| && r[n..] == s[n..]
  {
    var (t, k) := Down(s, i, n);
    if k > i then t
    else
      assert Up(t, i)[n..] == Up(t, i)[i + 1..][n - i - 1..];
      Up(t, i)
  }

  function Fix(s: seq<Entry>, i: nat): (r: seq<Entry>)
    requires i < |s|
    ensures |r| == |s|
  {
    SiftAt(s, i, |s|)
  }

  function Push(s: seq<Entry>, e: Entry): (r: seq<Entry>)
    ensures |r| == |s| + 1
  {
    Up(s + [e], |s|)
  }

  // heap.Pop: the rest, and the entry that was at the root.
  function Pop(s: seq<Entry>): (r: (seq<Entry>, Entry))
    requires s != []
    ensures |r.0| == |s| - 1
  {
    var n := |s| - 1;
    var s1 := Swap(s, 0, n);
    var t := if n == 0 then s1 else Down(s1, 0, n).0;
    (t[..n], t[n])
  }

  function Remove(s: seq<Entry>, i: nat): (r: (seq<Entry>, Entry))
    requires i < |s|
    ensures |r.0| == |s| - 1
  {
    var n := |s| - 1;
    var t := if i == n then s else SiftAt(Swap(s, i, n), i, n);
    (t[..n], t[n])
  }

  // ---------- every operation permutes the entries ----------

  lemma SwapPermutes(s: seq<Entry>, i: nat, j: nat)
    requires i < |s| && j < |s|
    ensures multiset(Swap(s, i, j)) == multiset(s)
  {
  }

  lemma {:induction false} UpPermutes(s: seq<Entry>, j: nat)
    requires j < |s|
    ensures multiset(Up(s, j)) == multiset(s)
    decreases j
  {
    hide Swap, Less;
    UpTurn(s, j);
    var i := Parent(j);
    if i == j || !Less(s[j], s[i]) {
    } else {
      SwapPermutes(s, i, j);
      UpPermutes(Swap(s, i, j), i);
    }
  }

  lemma {:induction false} DownPermutes(s: seq<Entry>, i: nat, n: nat)
    requires i < n <= |s|
    ensures multiset(Down(s, i, n).0) == multiset(s)
    decreases n - i
  {
    hide Swap, Less, LesserChild;
    DownTurn(s, i, n);
    if 2 * i + 1 >= n {
    } else {
      var j := LesserChild(s, i, n);
      if Less(s[j], s[i]) {
        SwapPermutes(s, i, j);
        DownPermutes(Swap(s, i, j), j, n);
      }
    }
  }

  lemma SiftPermutes(s: seq<Entry>, i: nat, n: nat)
    requires i < n <= |s|
    ensures multiset(SiftAt(s, i, n)) == multiset(s)
  {
    hide Up, Down;
    DownPermutes(s, i, n);
    UpPermutes(Down(s, i, n).0, i);
  }

  lemma FixPermutes(s: seq<Entry>, i: nat)
    requires i < |s|
    ensures multiset(Fix(s, i)) == multiset(s)
  {
    hide SiftAt;
    SiftPermutes(s, i, |s|);
  }

  lemma PushPermutes(s: seq<Entry>, e: Entry)
    ensures multiset(Push(s, e)) == multiset(s) + multiset{e}
  {
    hide Up;
    UpPermutes(s + [e], |s|);
  }

  lemma LastSplit(s: seq<Entry>)
    requires s != []
    ensures multiset(s[..|s| - 1]) + multiset{s[|s| - 1]} == multiset(s)
  {
    assert s == s[..|s| - 1] + [s[|s| - 1]];
  }

  lemma PopPermutes(s: seq<Entry>)
    requires s != []
    ensures Pop(s).1 == s[0] && multiset(Pop(s).0) + multiset{s[0]} == multiset(s)
  {
    hide Down;
    var n := |s| - 1;
    var s1 := Swap(s, 0, n);
    SwapPermutes(s, 0, n);
    var t := if n == 0 then s1 else Down(s1, 0, n).0;
    if n > 0 {
      DownPermutes(s1, 0, n);
      assert t[n..][0] == s1[n..][0];
    }
    LastSplit(t);
  }

  lemma RemovePermutes(s: seq<Entry>, i: nat)
    requires i < |s|
    ensures Remove(s, i).1 == s[i] && multiset(Remove(s, i).0) + multiset{s[i]} == multiset(s)
  {
    hide SiftAt;
    var n := |s| - 1;
    if i == n {
      LastSplit(s);
    } else {
      var s1 := Swap(s, i, n);
      SwapPermutes(s, i, n);
      SiftPermutes(s1, i, n);
      var t := SiftAt(s1, i, n);
      assert t[n..][0] == s1[n..][0];
      LastSplit(t);
    }
  }

  // ---------- heap order under a key ----------

  type Key = Entry -> int

  /** A key that (score, order) refines: whoever is not after in the heap's own
      order is not after under the key. */
  ghost predicate Refined(key: Key) {
    forall a: Entry, b: Entry :: !Less(b, a) ==> key(a) <= key(b)
  }

  ghost predicate PairOk(key: Key, s: seq<Entry>, j: nat)
    requires j < |s|
  {
    key(s[Parent(j)]) <= key(s[j])
  }

  ghost predicate Ordered(key: Key, s: seq<Entry>, n: nat)
    requires n <= |s|
  {
    forall j: nat :: 1 <= j < n ==> PairOk(key, s, j)
  }

  // Ordered except for the entry at i and its neighbours.
  ghost predicate OrderedBut(key: Key, s: seq<Entry>, n: nat, i: nat)
    requires n <= |s|
  {
    forall j: nat :: 1 <= j < n && j != i && Parent(j) != i ==> PairOk(key, s, j)
  }

  // The neighbours of i are in order with each other.
  ghost predicate Bridged(key: Key, s: seq<Entry>, n: nat, i: nat)
    requires i < n <= |s|
  {
    i > 0 ==> forall j: nat :: 1 <= j < n && Parent(j) == i ==> key(s[Parent(i)]) <= key(s[j])
  }

  ghost predicate AboveChildren(key: Key, s: seq<Entry>, n: nat, i: nat)
    requires i < n <= |s|
  {
    forall j: nat :: 1 <= j < n && Parent(j) == i ==> key(s[i]) <= key(s[j])
  }

  lemma {:induction false} DownOrders(key: Key, s: seq<Entry>, i: nat, n: nat)
    requires Refined(key) && i < n <= |s|
    requires OrderedBut(key, s, n, i) && Bridged(key, s, n, i)
    ensures var (t, k) := Down(s, i, n);
            if k > i then Ordered(key, t, n) else t == s && AboveChildren(key, s, n, i)
    decreases n - i
  {
    if 2 * i + 1 >= n {
    } else {
      var j := LesserChild(s, i, n);
      LesserChildLeast(key, s, i, n);
      if Less(s[j], s[i]) {
        var s1 := Swap(s, i, j);
        DownStep(key, s, i, n, j);
        DownOrders(key, s1, j, n);
        var (t, k) := Down(s1, j, n);
        if k == j {
          OrderedFromParts(key, s1, n, j);
        }
      }
    }
  }

  lemma LesserChildLeast(key: Key, s: seq<Entry>, i: nat, n: nat)
    requires Refined(key) && 2 * i + 1 < n <= |s|
    ensures var c := LesserChild(s, i, n);
            forall j: nat :: 1 <= j < n && Parent(j) == i ==> key(s[c]) <= key(s[j])
  {
  }

  lemma DownStep(key: Key, s: seq<Entry>, i: nat, n: nat, j: nat)
    requires i < j < n <= |s| && Parent(j) == i && key(s[j]) <= key(s[i])
    requires OrderedBut(key, s, n, i) && Bridged(key, s, n, i)
    requires forall m: nat :: 1 <= m < n && Parent(m) == i ==> key(s[j]) <= key(s[m])
    ensures var s1 := Swap(s, i, j);
            OrderedBut(key, s1, n, j) && Bridged(key, s1, n, j) && PairOk(key, s1, j)
  {
    hide Parent;
    var s1 := Swap(s, i, j);
    forall m: nat | 1 <= m < n && m != j && Parent(m) != j
      ensures PairOk(key, s1, m)
    {
      if m != i && Parent(m) != i {
        assert PairOk(key, s, m);
      }
    }
    forall m: nat | 1 <= m < n && Parent(m) == j
      ensures key(s1[i]) <= key(s1[m])
    {
      assert PairOk(key, s, m);
    }
  }

  lemma OrderedFromParts(key: Key, s: seq<Entry>, n: nat, i: nat)
    requires i < n <= |s|
    requires OrderedBut(key, s, n, i) && AboveChildren(key, s, n, i) && (i > 0 ==> PairOk(key, s, i))
    ensures Ordered(key, s, n)
  {
  }

  lemma {:induction false} UpOrders(key: Key, s: seq<Entry>, j: nat, n: nat)
    requires Refined(key) && j < n <= |s|
    requires OrderedBut(key, s, n, j) && Bridged(key, s, n, j) && AboveChildren(key, s, n, j)
    ensures Ordered(key, Up(s, j), n)
    decreases j
  {
    hide Parent, Ordered, OrderedBut, Bridged, AboveChildren;
    var i := Parent(j);
    if i == j || !Less(s[j], s[i]) {
      OrderedFromParts(key, s, n, j);
    } else {
      UpStep(key, s, j, i, n);
      UpOrders(key, Swap(s, i, j), i, n);
    }
  }

  lemma UpStep(key: Key, s: seq<Entry>, j: nat, i: nat, n: nat)
    requires 0 < j < n <= |s| && i == Parent(j) && key(s[j]) <= key(s[i])
    requires OrderedBut(key, s, n, j) && Bridged(key, s, n, j) && AboveChildren(key, s, n, j)
    ensures var s1 := Swap(s, i, j);
            OrderedBut(key, s1, n, i) && Bridged(key, s1, n, i) && AboveChildren(key, s1, n, i)
  {
    hide Parent;
    var s1 := Swap(s, i, j);
    forall m: nat | 1 <= m < n && m != i && Parent(m) != i
      ensures PairOk(key, s1, m)
    {
      if Parent(m) != j {
        assert PairOk(key, s, m);
      }
    }
    forall m: nat | 1 <= m < n && Parent(m) == i
      ensures key(s1[i]) <= key(s1[m]) && (i > 0 ==> key(s1[Parent(i)]) <= key(s1[m]))
    {
      if m != j {
        assert PairOk(key, s, m);
      }
      if i > 0 {
        assert PairOk(key, s, i);
      }
    }
  }

  /** Sifting one misplaced entry restores the heap order of every refined key. */
  lemma SiftOrders(key: Key, s: seq<Entry>, i: nat, n: nat)
    requires Refined(key) && i < n <= |s|
    requires OrderedBut(key, s, n, i) && Bridged(key, s, n, i)
    ensures Ordered(key, SiftAt(s, i, n), n)
  {
    hide Ordered, OrderedBut, Bridged, AboveChildren;
    DownOrders(key, s, i, n);
    if Down(s, i, n).1 == i {
      UpOrders(key, s, i, n);
    }
  }

  lemma FixOrders(key: Key, s: seq<Entry>, i: nat)
    requires Refined(key) && i < |s|
    requires OrderedBut(key, s, |s|, i) && Bridged(key, s, |s|, i)
    ensures Ordered(key, Fix(s, i), |s|)
  {
    SiftOrders(key, s, i, |s|);
  }

  lemma PushOrders(key: Key, s: seq<Entry>, e: Entry)
    requires Refined(key) && Ordered(key, s, |s|)
    ensures Ordered(key, Push(s, e), |s| + 1)
  {
    var t := s + [e];
    forall j: nat | 1 <= j < |s|
      ensures PairOk(key, t, j)
    {
      assert PairOk(key, s, j);
    }
    UpOrders(key, t, |s|, |s| + 1);
  }

  lemma PopOrders(key: Key, s: seq<Entry>)
    requires Refined(key) && s != [] && Ordered(key, s, |s|)
    ensures Ordered(key, Pop(s).0, |s| - 1)
  {
    var n := |s| - 1;
    if n > 0 {
      var s1 := Swap(s, 0, n);
      forall j: nat | 1 <= j < n && Parent(j) != 0
        ensures PairOk(key, s1, j)
      {
        assert PairOk(key, s, j);
      }
      DownOrders(key, s1, 0, n);
      var (t, k) := Down(s1, 0, n);
      if k == 0 {
        OrderedFromParts(key, s1, n, 0);
      }
      OrderedPrefix(key, t, n);
    }
  }

  lemma OrderedPrefix(key: Key, t: seq<Entry>, n: nat)
    requires n <= |t| && Ordered(key, t, n)
    ensures Ordered(key, t[..n], n)
  {
    forall j: nat | 1 <= j < n
      ensures PairOk(key, t[..n], j)
    {
      assert PairOk(key, t, j);
    }
  }

  lemma RemoveOrders(key: Key, s: seq<Entry>, i: nat)
    requires Refined(key) && i < |s| && Ordered(key, s, |s|)
    ensures Ordered(key, Remove(s, i).0, |s| - 1)
  {
    hide Parent, Ordered, OrderedBut, Bridged, SiftAt;
    var n := |s| - 1;
    if i == n {
      OrderedPrefixOf(key, s, n);
    } else {
      var s1 := Swap(s, i, n);
      RemoveStep(key, s, i);
      SiftOrders(key, s1, i, n);
      OrderedPrefix(key, SiftAt(s1, i, n), n);
    }
  }

  lemma OrderedPrefixOf(key: Key, s: seq<Entry>, n: nat)
    requires n <= |s| && Ordered(key, s, |s|)
    ensures Ordered(key, s[..n], n)
  {
    OrderedPrefix(key, s, n);
  }

  lemma RemoveStep(key: Key, s: seq<Entry>, i: nat)
    requires i + 1 < |s| && Ordered(key, s, |s|)
    ensures var n := |s| - 1; var s1 := Swap(s, i, n);
            OrderedBut(key, s1, n, i) && Bridged(key, s1, n, i)
  {
    var n := |s| - 1;
    var s1 := Swap(s, i, n);
    forall j: nat | 1 <= j < n && j != i && Parent(j) != i
      ensures PairOk(key, s1, j)
    {
      assert PairOk(key, s, j);
    }
    forall j: nat | i > 0 && 1 <= j < n && Parent(j) == i
      ensures key(s1[Parent(i)]) <= key(s1[j])
    {
      assert PairOk(key, s, j) && PairOk(key, s, i);
    }
  }

  /** The root is least under every key the heap is ordered by. */
  lemma {:induction false} RootLeast(key: Key, s: seq<Entry>, i: nat)
    requires i < |s| && Ordered(key, s, |s|)
    ensures key(s[0]) <= key(s[i])
    decreases i
  {
    if i == 0 {
    } else {
      RootLeast(key, s, Parent(i));
      assert PairOk(key, s, i);
    }
  }
}
