/** The peer heap with its index fields (peer_heap.go, container/heap). */
module PeerHeap {
  import HM = HeapModel
  import PM = PeerModel

  class PeerScore {
    const hostPort: string
    var score: nat
    var index: int
    var order: nat
    var chosenCount: nat

    constructor (hostPort: string, score: nat)
      ensures this.hostPort == hostPort && this.score == score && index == -1 && order == 0 && chosenCount == 0
    {
      this.hostPort, this.score, index, order, chosenCount := hostPort, score, -1, 0, 0;
    }

    ghost function Entry(): (e: HM.Entry)
      reads this`score, this`order
    {
      HM.Entry(hostPort, score, order)
    }
  }

  class Heap {
    var peerScores: seq<PeerScore>
    var order: nat

    // Every peer knows its place, so no peer is in the heap twice.
    ghost predicate Valid()
      reads this, peerScores
    {
      forall i :: 0 <= i < |peerScores| ==> peerScores[i].index == i
    }

    ghost function Entries(): (s: seq<HM.Entry>)
      reads this, peerScores
      ensures |s| == |peerScores|
      ensures forall i :: 0 <= i < |s| ==> s[i] == peerScores[i].Entry()
    {
      seq(|peerScores|, i requires 0 <= i < |peerScores| reads this, peerScores => peerScores[i].Entry())
    }

    ghost function View(): (h: PM.State)
      reads this, peerScores
    {
      PM.State(Entries(), order)
    }

    constructor ()
      ensures Valid() && peerScores == [] && order == 0
    {
      peerScores, order := [], 0;
    }

    predicate Less(i: nat, j: nat)
      requires i < |peerScores| && j < |peerScores|
      reads this, peerScores
      ensures Less(i, j) == HM.Less(peerScores[i].Entry(), peerScores[j].Entry())
    {
      if peerScores[i].score == peerScores[j].score then peerScores[i].order < peerScores[j].order
      else peerScores[i].score < peerScores[j].score
    }

    ghost function Repr(): (r: set<PeerScore>)
      reads this
    {
      set p | p in peerScores
    }

    method Swap(i: nat, j: nat)
      requires Valid() && i < |peerScores| && j < |peerScores|
      modifies this`peerScores, Repr()`index
      ensures Valid() && Repr() == old(Repr()) && |peerScores| == |old(peerScores)|
      ensures peerScores == old(peerScores)[i := old(peerScores[j])][j := old(peerScores[i])]
      ensures Entries() == HM.Swap(old(Entries()), i, j)
    {
      ghost var was := peerScores;
      peerScores := peerScores[i := peerScores[j]][j := peerScores[i]];
      peerScores[i].index := i;
      peerScores[j].index := j;
      SameMembers(was, peerScores, i, j);
    }

    method Up(at: nat)
      requires Valid() && at < |peerScores|
      modifies this`peerScores, Repr()`index
      ensures Valid() && Repr() == old(Repr()) && |peerScores| == |old(peerScores)|
      ensures forall k :: at < k < |peerScores| ==> peerScores[k] == old(peerScores)[k]
      ensures Entries() == HM.Up(old(Entries()), at)
    {
      hide HM.Up, HM.Swap, HM.Less;
      var j := at;
      while true
        invariant 0 <= j <= at < |peerScores|
        invariant Valid() && Repr() == old(Repr()) && |peerScores| == |old(peerScores)|
        invariant forall k :: at < k < |peerScores| ==> peerScores[k] == old(peerScores)[k]
        invariant HM.Up(old(Entries()), at) == HM.Up(Entries(), j)
        decreases j
      {
        var i := HM.Parent(j);
        HM.UpTurn(Entries(), j);
        if i == j || !Less(j, i) { return; }
        Swap(i, j);
        j := i;
      }
    }

    method LesserChild(i: nat, n: nat) returns (j: nat)
      requires 2 * i + 1 < n <= |peerScores|
      ensures j == HM.LesserChild(Entries(), i, n)
    {
      j := 2 * i + 1;
      if j + 1 < n && Less(j + 1, j) {
        j := j + 1;
      }
    }

    method Down(at: nat, n: nat) returns (moved: bool)
      requires Valid() && at < n <= |peerScores|
      modifies this`peerScores, Repr()`index
      ensures Valid() && Repr() == old(Repr()) && |peerScores| == |old(peerScores)|
      ensures forall k :: n <= k < |peerScores| ==> peerScores[k] == old(peerScores)[k]
      ensures Entries() == HM.Down(old(Entries()), at, n).0
      ensures moved == (HM.Down(old(Entries()), at, n).1 > at)
    {
      hide HM.Down, HM.Swap, HM.Less, HM.Parent, HM.LesserChild;
      var i := at;
      while true
        invariant at <= i < n <= |peerScores|
        invariant Valid() && Repr() == old(Repr()) && |peerScores| == |old(peerScores)|
        invariant forall k :: n <= k < |peerScores| ==> peerScores[k] == old(peerScores)[k]
        invariant HM.Down(old(Entries()), at, n) == HM.Down(Entries(), i, n)
        decreases n - i
      {
        HM.DownTurn(Entries(), i, n);
        if 2 * i + 1 >= n { break; }
        var j := LesserChild(i, n);
        if !Less(j, i) { break; }
        Swap(i, j);
        i := j;
      }
      moved := i > at;
    }

    method SiftAt(i: nat, n: nat)
      requires Valid() && i < n <= |peerScores|
      modifies this`peerScores, Repr()`index
      ensures Valid() && Repr() == old(Repr()) && |peerScores| == |old(peerScores)|
      ensures forall k :: n <= k < |peerScores| ==> peerScores[k] == old(peerScores)[k]
      ensures Entries() == HM.SiftAt(old(Entries()), i, n)
    {
      hide HM.Down, HM.Up;
      var moved := Down(i, n);
      if !moved {
        Up(i);
      }
    }

    // heap.Fix; a peer that was taken out of the heap meanwhile has index -1,
    // for which both loops stop at once.
    method Fix(i: int)
      requires Valid() && -1 <= i < |peerScores|
      modifies this`peerScores, Repr()`index
      ensures Valid() && Repr() == old(Repr()) && |peerScores| == |old(peerScores)|
      ensures Entries() == if i == -1 then old(Entries()) else HM.Fix(old(Entries()), i)
    {
      hide HM.SiftAt;
      if i != -1 {
        SiftAt(i, |peerScores|);
      }
    }

    // heap.Push
    method Push(p: PeerScore)
      requires Valid() && p !in peerScores
      modifies this`peerScores, Repr()`index, p`index
      ensures Valid() && Repr() == old(Repr()) + {p} && |peerScores| == |old(peerScores)| + 1
      ensures Entries() == HM.Push(old(Entries()), p.Entry())
    {
      hide HM.Up;
      p.index := |peerScores|;
      peerScores := peerScores + [p];
      assert Entries() == old(Entries()) + [p.Entry()];
      assert Repr() == old(Repr()) + {p};
      Up(|peerScores| - 1);
    }

    // peerHeap.Pop, the last step of heap.Pop and heap.Remove
    method DropLast() returns (p: PeerScore)
      requires Valid() && peerScores != []
      modifies this`peerScores, Repr()`index
      ensures p == old(peerScores[|peerScores| - 1]) && p.index == -1
      ensures Valid() && peerScores == old(peerScores[..|peerScores| - 1])
      ensures p in old(Repr()) && p !in peerScores && Repr() == old(Repr()) - {p}
      ensures Entries() == old(Entries()[..|peerScores| - 1])
      ensures p.Entry() == old(Entries()[|peerScores| - 1])
    {
      var n := |peerScores|;
      p := peerScores[n - 1];
      p.index := -1;
      ghost var was := peerScores;
      peerScores := peerScores[..n - 1];
      assert forall q :: q in was ==> q == p || q in peerScores by {
        assert was == was[..n - 1] + [was[n - 1]];
      }
    }

    // heap.Pop
    method Pop() returns (p: PeerScore)
      requires Valid() && peerScores != []
      modifies this`peerScores, Repr()`index
      ensures p == old(peerScores[0]) && p.index == -1
      ensures Valid() && |peerScores| == |old(peerScores)| - 1
      ensures p in old(Repr()) && p !in peerScores && Repr() == old(Repr()) - {p}
      ensures (Entries(), p.Entry()) == HM.Pop(old(Entries()))
    {
      hide HM.Down, HM.Swap, HM.Less, HM.Parent;
      var n := |peerScores| - 1;
      Swap(0, n);
      if n > 0 {
        var moved := Down(0, n);
      }
      p := DropLast();
    }

    method MoveToEnd(i: nat)
      requires Valid() && i < |peerScores| - 1
      modifies this`peerScores, Repr()`index
      ensures Valid() && Repr() == old(Repr()) && |peerScores| == |old(peerScores)|
      ensures peerScores[|peerScores| - 1] == old(peerScores[i])
      ensures var n := |peerScores| - 1; Entries() == HM.SiftAt(HM.Swap(old(Entries()), i, n), i, n)
    {
      hide HM.SiftAt, HM.Swap, HM.Less, HM.Parent;
      var n := |peerScores| - 1;
      Swap(i, n);
      SiftAt(i, n);
    }

    // heap.Remove
    method Remove(i: nat) returns (p: PeerScore)
      requires Valid() && i < |peerScores|
      modifies this`peerScores, Repr()`index
      ensures p == old(peerScores[i]) && p.index == -1
      ensures Valid() && |peerScores| == |old(peerScores)| - 1
      ensures p in old(Repr()) && p !in peerScores && Repr() == old(Repr()) - {p}
      ensures (Entries(), p.Entry()) == HM.Remove(old(Entries()), i)
    {
      hide HM.SiftAt, HM.Swap;
      if i != |peerScores| - 1 {
        MoveToEnd(i);
      }
      p := DropLast();
    }

    // rnd is what the random source yields; Intn(n) is some number below n.
    method PushPeer(p: PeerScore, rnd: nat)
      requires Valid() && p !in peerScores
      modifies this, Repr()`index, p`index, p`order
      ensures Valid() && Repr() == old(Repr()) + {p} && |peerScores| == |old(peerScores)| + 1
      ensures View() == PM.PushPeer(old(View()), old(p.Entry()), rnd % (|old(peerScores)| / 2 + 1))
    {
      hide HM.Push;
      order := order + 1;
      var randRange := |peerScores| / 2 + 1;
      p.order := order + rnd % randRange;
      assert Entries() == old(Entries());
      Push(p);
    }

    method SwapOrder(i: nat, j: nat)
      requires Valid() && i < |peerScores| && j < |peerScores|
      modifies this`peerScores, Repr()`index, Repr()`order
      ensures Valid() && Repr() == old(Repr()) && |peerScores| == |old(peerScores)|
      ensures Entries() == PM.SwapOrder(old(Entries()), i, j)
    {
      hide HM.Fix;
      if i == j { return; }
      peerScores[i].order, peerScores[j].order := peerScores[j].order, peerScores[i].order;
      ghost var was := old(Entries());
      assert Entries() == was[i := was[i].(order := was[j].order)][j := was[j].(order := was[i].order)];
      Fix(i);
      Fix(j);
    }

    method AddPeer(p: PeerScore, rnd: nat, slot: nat)
      requires Valid() && forall q :: q in peerScores ==> q.hostPort != p.hostPort
      modifies this, Repr()`index, Repr()`order, p`index, p`order
      ensures Valid() && Repr() == old(Repr()) + {p}
      ensures View() == PM.AddPeer(old(View()), old(p.Entry()), rnd % (|old(peerScores)| / 2 + 1),
                                   slot % (|old(peerScores)| + 1))
    {
      hide HM.Push, PM.SwapOrder, PM.PushPeer;
      PushPeer(p, rnd);
      assert p in Repr();
      assert forall q :: q in peerScores ==> q in old(Repr()) + {p};
      IndexUnique(p);
      SwapOrder(p.index, slot % |peerScores|);
    }

    lemma IndexUnique(p: PeerScore)
      requires Valid() && p in peerScores
      requires forall q :: q in peerScores && q != p ==> q.hostPort != p.hostPort
      ensures PM.IndexOf(Entries(), p.hostPort) == p.index
    {
      var i := PM.IndexOf(Entries(), p.hostPort);
      var k :| 0 <= k < |peerScores| && peerScores[k] == p;
      assert Entries()[k].host == p.hostPort;
      assert peerScores[i].hostPort == p.hostPort;
    }

    method UpdatePeer(p: PeerScore)
      requires -1 <= p.index < |peerScores| && Valid()
      modifies this`peerScores, Repr()`index
      ensures Valid() && Repr() == old(Repr())
      ensures Entries() == if old(p.index) == -1 then old(Entries()) else HM.Fix(old(Entries()), old(p.index))
    {
      hide HM.Fix;
      Fix(p.index);
    }
  }

  lemma SameMembers(s: seq<PeerScore>, t: seq<PeerScore>, i: nat, j: nat)
    requires i < |s| && j < |s| && t == s[i := s[j]][j := s[i]]
    ensures (set p | p in s) == (set p | p in t)
  {
    forall p | p in s
      ensures p in t
    {
      var k :| 0 <= k < |s| && s[k] == p;
      assert t[if k == i then j else if k == j then i else k] == p;
    }
  }
}
