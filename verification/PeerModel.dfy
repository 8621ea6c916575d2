/** Peer selection on values (peer_heap.go, peer.go): jittered re-insertion,
    random order swaps, and choosing a peer while avoiding some. */
module PeerModel {
  import opened HeapModel

  datatype Option<T> = None | Some(value: T)

  datatype State = State(entries: seq<Entry>, order: nat)

  // pushPeer; `jitter` is what rng.Intn(randRange) returned.
  function PushPeer(h: State, e: Entry, jitter: nat): (r: State)
    ensures |r.entries| == |h.entries| + 1
  {
    State(Push(h.entries, e.(order := h.order + 1 + jitter)), h.order + 1)
  }

  function Traded(s: seq<Entry>, i: nat, j: nat): (t: seq<Entry>)
    requires i < |s| && j < |s|
    ensures |t| == |s|
  {
    s[i := s[i].(order := s[j].order)][j := s[j].(order := s[i].order)]
  }

  function SwapOrder(s: seq<Entry>, i: nat, j: nat): (r: seq<Entry>)
    requires i < |s| && j < |s|
    ensures |r| == |s|
  {
    if i == j then s else Fix(Fix(Traded(s, i, j), i), j)
  }

  // Where a peer is, or -1 once it has been taken out of the heap.
  function IndexOf(s: seq<Entry>, host: string): (i: int)
    ensures i == -1 || (0 <= i < |s| && s[i].host == host)
    ensures i == -1 <==> forall k :: 0 <= k < |s| ==> s[k].host != host
  {
    if s == [] then -1
    else if s[0].host == host then 0
    else
      var i := IndexOf(s[1..], host);
      if i == -1 then -1 else i + 1
  }

  lemma AddedIsThere(h: State, e: Entry, jitter: nat)
    ensures IndexOf(PushPeer(h, e, jitter).entries, e.host) >= 0
  {
    hide Push;
    var e' := e.(order := h.order + 1 + jitter);
    PushPermutes(h.entries, e');
    assert e' in multiset(PushPeer(h, e, jitter).entries);
  }

  // addPeer; `r` is the random slot whose order the new peer trades with.
  function AddPeer(h: State, e: Entry, jitter: nat, r: nat): (h': State)
    requires r <= |h.entries|
    ensures |h'.entries| == |h.entries| + 1
  {
    var h1 := PushPeer(h, e, jitter);
    AddedIsThere(h, e, jitter);
    var at := IndexOf(h1.entries, e.host);
    h1.(entries := SwapOrder(h1.entries, at, r))
  }

  // The pop loop of choosePeer: what is left, what was skipped, who was found.
  function PopUntil(s: seq<Entry>, ok: string -> bool): (r: (seq<Entry>, seq<Entry>, Option<Entry>))
    decreases |s|
  {
    if s == [] then (s, [], None)
    else
      var (rest, top) := Pop(s);
      if ok(top.host) then (rest, [], Some(top))
      else
        var (left, skipped, found) := PopUntil(rest, ok);
        (left, [top] + skipped, found)
  }

  lemma {:induction false} PopUntilFinds(s: seq<Entry>, ok: string -> bool)
    ensures var (rest, skipped, found) := PopUntil(s, ok);
            && (if found.Some? then ok(found.value.host) else rest == [])
            && (forall e :: e in skipped ==> !ok(e.host))
    decreases |s|
  {
    hide Pop;
    if s == [] {
    } else {
      PopUntilFinds(Pop(s).0, ok);
    }
  }

  function PushAll(s: seq<Entry>, es: seq<Entry>): (r: seq<Entry>)
    decreases |es|
  {
    if es == [] then s else PushAll(Push(s, es[0]), es[1..])
  }

  lemma {:induction false} PopUntilPermutes(s: seq<Entry>, ok: string -> bool)
    ensures var (rest, skipped, found) := PopUntil(s, ok);
            multiset(s) == multiset(rest) + multiset(skipped) +
              if found.Some? then multiset{found.value} else multiset{}
    decreases |s|
  {
    hide Pop;
    if s == [] {
    } else {
      PopPermutes(s);
      var (rest, top) := Pop(s);
      if !ok(top.host) {
        PopUntilPermutes(rest, ok);
        var skipped := PopUntil(rest, ok).1;
        assert multiset([top] + skipped) == multiset{top} + multiset(skipped);
      }
    }
  }

  lemma {:induction false} PushAllPermutes(s: seq<Entry>, es: seq<Entry>)
    ensures multiset(PushAll(s, es)) == multiset(s) + multiset(es)
    decreases |es|
  {
    hide Push;
    if es == [] {
    } else {
      PushPermutes(s, es[0]);
      assert es == [es[0]] + es[1..];
      PushAllPermutes(Push(s, es[0]), es[1..]);
    }
  }

  // One turn of each loop of choosePeer.
  lemma PopUntilTurn(s: seq<Entry>, ok: string -> bool)
    ensures s == [] ==> PopUntil(s, ok) == ([], [], None)
    ensures s != [] ==>
              var (rest, top) := Pop(s);
              PopUntil(s, ok) ==
                if ok(top.host) then (rest, [], Some(top))
                else (PopUntil(rest, ok).0, [top] + PopUntil(rest, ok).1, PopUntil(rest, ok).2)
  {
  }

  lemma PushAllTurn(s: seq<Entry>, es: seq<Entry>)
    ensures PushAll(s, es) == if es == [] then s else PushAll(Push(s, es[0]), es[1..])
  {
  }

  lemma ChooseSizes(s: seq<Entry>, ok: string -> bool)
    ensures var (rest, skipped, found) := PopUntil(s, ok);
            |PushAll(rest, skipped)| == |s| - if found.Some? then 1 else 0
  {
    var (rest, skipped, found) := PopUntil(s, ok);
    PopUntilPermutes(s, ok);
    PushAllPermutes(rest, skipped);
    assert |multiset(PushAll(rest, skipped))| == |PushAll(rest, skipped)|;
    assert |multiset(s)| == |s|;
  }

  function Choose(h: State, ok: string -> bool, jitter: nat): (r: (State, Option<Entry>)) {
    var (rest, skipped, found) := PopUntil(h.entries, ok);
    var h1 := h.(entries := PushAll(rest, skipped));
    if found.None? then (h1, None)
    else (PushPeer(h1, found.value, jitter), found)
  }

  // ---------- choosing a peer ----------

  function ScoreKey(): (key: Key) {
    (e: Entry) => e.score
  }

  lemma ScoreRefined()
    ensures Refined(ScoreKey())
  {
  }

  lemma {:induction false} PopUntilOrders(key: Key, s: seq<Entry>, ok: string -> bool)
    requires Refined(key) && Ordered(key, s, |s|)
    ensures var (rest, skipped, found) := PopUntil(s, ok);
            && Ordered(key, rest, |rest|)
            && (found.Some? ==> forall e :: e in s && ok(e.host) ==> key(found.value) <= key(e))
    decreases |s|
  {
    hide Pop;
    if s == [] {
    } else {
      var (rest, top) := Pop(s);
      PopPermutes(s);
      PopOrders(key, s);
      if ok(top.host) {
        forall e | e in s && ok(e.host)
          ensures key(top) <= key(e)
        {
          var i :| 0 <= i < |s| && s[i] == e;
          RootLeast(key, s, i);
        }
      } else {
        PopUntilOrders(key, rest, ok);
        forall e | e in s && ok(e.host)
          ensures e in rest
        {
          assert e in multiset(s) && e != top;
        }
      }
    }
  }

  lemma {:induction false} PushAllOrders(key: Key, s: seq<Entry>, es: seq<Entry>)
    requires Refined(key) && Ordered(key, s, |s|)
    ensures Ordered(key, PushAll(s, es), |PushAll(s, es)|)
    decreases |es|
  {
    if es == [] {
    } else {
      PushOrders(key, s, es[0]);
      PushAllOrders(key, Push(s, es[0]), es[1..]);
    }
  }

  // Choosing finds a peer exactly when some peer is eligible, and changes nothing
  // but the chosen peer's order.
  ghost predicate OnlyReordered(h: State, h': State, found: Option<Entry>, jitter: nat) {
    if found.None? then multiset(h'.entries) == multiset(h.entries) && h'.order == h.order
    else
      && multiset(h'.entries) + multiset{found.value} ==
         multiset(h.entries) + multiset{found.value.(order := h.order + 1 + jitter)}
      && h'.order == h.order + 1
  }

  lemma ChooseMembers(h: State, ok: string -> bool, jitter: nat)
    ensures var (h', found) := Choose(h, ok, jitter);
            && OnlyReordered(h, h', found, jitter)
            && (found.Some? <==> exists e :: e in h.entries && ok(e.host))
            && (found.Some? ==> found.value in h.entries && ok(found.value.host))
  {
    hide PopUntil, PushAll, Push;
    var (rest, skipped, found) := PopUntil(h.entries, ok);
    PopUntilFinds(h.entries, ok);
    PopUntilPermutes(h.entries, ok);
    PushAllPermutes(rest, skipped);
    if found.Some? {
      assert found.value in multiset(h.entries);
      PushPermutes(PushAll(rest, skipped), found.value.(order := h.order + 1 + jitter));
    } else {
      forall e | e in h.entries
        ensures !ok(e.host)
      {
        assert e in multiset(h.entries);
      }
    }
  }

  /** Choosing keeps the heap order of every refined key and takes a peer that is
      least under each of them among the eligible (so one of least score). */
  lemma ChooseLeast(h: State, ok: string -> bool, jitter: nat, key: Key)
    requires Refined(key) && Ordered(key, h.entries, |h.entries|)
    ensures var (h', found) := Choose(h, ok, jitter);
            && Ordered(key, h'.entries, |h'.entries|)
            && (found.Some? ==> forall e :: e in h.entries && ok(e.host) ==> key(found.value) <= key(e))
  {
    hide PopUntil, PushAll, Push, Ordered;
    var (rest, skipped, found) := PopUntil(h.entries, ok);
    PopUntilOrders(key, h.entries, ok);
    PushAllOrders(key, rest, skipped);
    var s1 := PushAll(rest, skipped);
    if found.Some? {
      PushOrders(key, s1, found.value.(order := h.order + 1 + jitter));
    }
  }

  // ---------- adding a peer ----------

  lemma OrderedGivesParts(key: Key, s: seq<Entry>, i: nat)
    requires i < |s| && Ordered(key, s, |s|)
    ensures OrderedBut(key, s, |s|, i) && Bridged(key, s, |s|, i)
  {
    hide Parent;
    forall j: nat | i > 0 && 1 <= j < |s| && Parent(j) == i
      ensures key(s[Parent(i)]) <= key(s[j])
    {
      assert PairOk(key, s, j) && PairOk(key, s, i);
    }
  }

  /** Trading orders keeps the score order, because it moves no score. */
  lemma SwapOrderKeepsScores(s: seq<Entry>, i: nat, j: nat)
    requires i < |s| && j < |s| && Ordered(ScoreKey(), s, |s|)
    ensures Ordered(ScoreKey(), SwapOrder(s, i, j), |s|)
  {
    if i != j {
      var key := ScoreKey();
      var s1 := Traded(s, i, j);
      forall k: nat | 1 <= k < |s1|
        ensures PairOk(key, s1, k)
      {
        assert PairOk(key, s, k);
      }
      OrderedGivesParts(key, s1, i);
      FixOrders(key, s1, i);
      OrderedGivesParts(key, Fix(s1, i), j);
      FixOrders(key, Fix(s1, i), j);
    }
  }

  lemma AddKeepsScores(h: State, e: Entry, jitter: nat, slot: nat)
    requires slot <= |h.entries| && Ordered(ScoreKey(), h.entries, |h.entries|)
    ensures var h' := AddPeer(h, e, jitter, slot); Ordered(ScoreKey(), h'.entries, |h'.entries|)
  {
    hide Ordered, SwapOrder, Push;
    ScoreRefined();
    PushOrders(ScoreKey(), h.entries, e.(order := h.order + 1 + jitter));
    AddedIsThere(h, e, jitter);
    var s := PushPeer(h, e, jitter).entries;
    SwapOrderKeepsScores(s, IndexOf(s, e.host), slot);
  }

  lemma UpdateKeepsScores(s: seq<Entry>, i: nat, score: nat)
    requires i < |s| && Ordered(ScoreKey(), s, |s|)
    ensures Ordered(ScoreKey(), Fix(s[i := s[i].(score := score)], i), |s|)
  {
    hide Parent;
    var key := ScoreKey();
    var s1 := s[i := s[i].(score := score)];
    ScoreRefined();
    OrderedGivesParts(key, s, i);
    forall j: nat | 1 <= j < |s| && j != i && Parent(j) != i
      ensures PairOk(key, s1, j)
    {
      assert PairOk(key, s, j);
    }
    FixOrders(key, s1, i);
  }
}
