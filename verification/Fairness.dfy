/** Bounded bypass (peer_heap.go:91-117, peer.go:177-215): however the heap was
    built, among equally scored peers none is passed over for long. */
module Fairness {
  import opened HeapModel
  import opened PeerModel

  // ---------- how a heap comes about ----------

  datatype Action =
    | Add(entry: Entry, jitter: nat, slot: nat)
    | Remove(index: nat)
    | Update(index: nat, score: nat)
    | Choose(ok: string -> bool, jitter: nat)

  // The random draws are within the ranges the source asks for.
  predicate Legal(h: State, a: Action) {
    match a
    case Add(_, jitter, slot) => jitter <= |h.entries| / 2 && slot <= |h.entries|
    case Remove(i) => i < |h.entries|
    case Update(i, _) => i < |h.entries|
    case Choose(_, jitter) => |h.entries| > 0 ==> jitter <= (|h.entries| - 1) / 2
  }

  function Apply(h: State, a: Action): (r: State)
    requires Legal(h, a)
  {
    match a
    case Add(e, jitter, slot) => AddPeer(h, e, jitter, slot)
    case Remove(i) => h.(entries := HeapModel.Remove(h.entries, i).0)
    case Update(i, score) => h.(entries := Fix(h.entries[i := h.entries[i].(score := score)], i))
    case Choose(ok, jitter) => PeerModel.Choose(h, ok, jitter).0
  }

  const EMPTY := State([], 0)

  // Every draw is legal and the heap never holds more than `most` peers.
  predicate LegalRun(h: State, acts: seq<Action>, most: nat)
    decreases |acts|
  {
    && |h.entries| <= most
    && (acts != [] ==> Legal(h, acts[0]) && LegalRun(Apply(h, acts[0]), acts[1..], most))
  }

  function RunFrom(h: State, acts: seq<Action>, most: nat): (r: State)
    requires LegalRun(h, acts, most)
    decreases |acts|
  {
    if acts == [] then h else RunFrom(Apply(h, acts[0]), acts[1..], most)
  }

  // The most an order can run ahead of the counter: the jitter in the largest heap.
  function Slack(most: nat): (n: nat) {
    if most == 0 then 0 else (most - 1) / 2
  }

  predicate OrdersAtMost(s: seq<Entry>, bound: nat) {
    forall i :: 0 <= i < |s| ==> s[i].order <= bound
  }

  lemma OrdersPermuted(s: seq<Entry>, t: seq<Entry>, bound: nat)
    requires OrdersAtMost(s, bound) && multiset(t) <= multiset(s)
    ensures OrdersAtMost(t, bound)
  {
    forall i | 0 <= i < |t|
      ensures t[i].order <= bound
    {
      assert t[i] in multiset(t);
      assert t[i] in s;
    }
  }

  lemma PushPeerOrders(h: State, e: Entry, jitter: nat, bound: nat)
    requires OrdersAtMost(h.entries, bound) && h.order + 1 + jitter <= bound
    ensures OrdersAtMost(PushPeer(h, e, jitter).entries, bound)
  {
    hide Push;
    var e' := e.(order := h.order + 1 + jitter);
    PushPermutes(h.entries, e');
    assert multiset(h.entries + [e']) == multiset(h.entries) + multiset{e'};
    OrdersPermuted(h.entries + [e'], PushPeer(h, e, jitter).entries, bound);
  }

  lemma SwapOrderOrders(s: seq<Entry>, i: nat, j: nat, bound: nat)
    requires i < |s| && j < |s| && OrdersAtMost(s, bound)
    ensures OrdersAtMost(SwapOrder(s, i, j), bound)
  {
    if i != j {
      var s1 := s[i := s[i].(order := s[j].order)][j := s[j].(order := s[i].order)];
      hide Fix;
      FixPermutes(s1, i);
      FixPermutes(Fix(s1, i), j);
      OrdersPermuted(s1, Fix(s1, i), bound);
      OrdersPermuted(Fix(s1, i), SwapOrder(s, i, j), bound);
    }
  }

  lemma AddOrders(h: State, e: Entry, jitter: nat, slot: nat, bound: nat)
    requires slot <= |h.entries| && OrdersAtMost(h.entries, bound) && h.order + 1 + jitter <= bound
    ensures OrdersAtMost(AddPeer(h, e, jitter, slot).entries, bound)
  {
    hide SwapOrder, PushPeer;
    var h1 := PushPeer(h, e, jitter);
    PushPeerOrders(h, e, jitter, bound);
    AddedIsThere(h, e, jitter);
    SwapOrderOrders(h1.entries, IndexOf(h1.entries, e.host), slot, bound);
  }

  lemma RemoveOrdersAtMost(s: seq<Entry>, i: nat, bound: nat)
    requires i < |s| && OrdersAtMost(s, bound)
    ensures OrdersAtMost(HeapModel.Remove(s, i).0, bound)
  {
    hide HeapModel.Remove;
    RemovePermutes(s, i);
    OrdersPermuted(s, HeapModel.Remove(s, i).0, bound);
  }

  lemma UpdateOrdersAtMost(s: seq<Entry>, i: nat, score: nat, bound: nat)
    requires i < |s| && OrdersAtMost(s, bound)
    ensures OrdersAtMost(Fix(s[i := s[i].(score := score)], i), bound)
  {
    hide Fix;
    var s1 := s[i := s[i].(score := score)];
    FixPermutes(s1, i);
    OrdersPermuted(s1, Fix(s1, i), bound);
  }

  /** No order runs ahead of the counter by more than the jitter of the largest heap. */
  lemma ApplyOrders(h: State, a: Action, most: nat)
    requires Legal(h, a) && |Apply(h, a).entries| <= most && |h.entries| <= most
    requires OrdersAtMost(h.entries, h.order + Slack(most))
    ensures var h' := Apply(h, a); OrdersAtMost(h'.entries, h'.order + Slack(most))
  {
    hide AddPeer, HeapModel.Remove, Fix, PeerModel.Choose, OrdersAtMost;
    var slack := Slack(most);
    match a {
      case Add(e, jitter, slot) =>
        OrdersWeaken(h.entries, h.order + slack, h.order + 1 + slack);
        AddOrders(h, e, jitter, slot, h.order + 1 + slack);
        AddPeerOrder(h, e, jitter, slot);
      case Remove(i) =>
        RemoveOrdersAtMost(h.entries, i, h.order + slack);
      case Update(i, score) =>
        UpdateOrdersAtMost(h.entries, i, score, h.order + slack);
      case Choose(ok, jitter) =>
        ChooseOrders(h, ok, jitter, slack);
    }
  }

  lemma OrdersWeaken(s: seq<Entry>, a: nat, b: nat)
    requires OrdersAtMost(s, a) && a <= b
    ensures OrdersAtMost(s, b)
  {
  }

  lemma AddPeerOrder(h: State, e: Entry, jitter: nat, slot: nat)
    requires slot <= |h.entries|
    ensures AddPeer(h, e, jitter, slot).order == h.order + 1
  {
    hide SwapOrder, Push;
  }

  lemma ChooseOrders(h: State, ok: string -> bool, jitter: nat, slack: nat)
    requires OrdersAtMost(h.entries, h.order + slack) && (h.entries != [] ==> jitter <= slack)
    ensures var h' := PeerModel.Choose(h, ok, jitter).0; OrdersAtMost(h'.entries, h'.order + slack)
  {
    hide PeerModel.Choose;
    ChooseMembers(h, ok, jitter);
    var (h', found) := PeerModel.Choose(h, ok, jitter);
    if found.None? {
      OrdersPermuted(h.entries, h'.entries, h.order + slack);
    } else {
      var e' := found.value.(order := h.order + 1 + jitter);
      assert multiset(h.entries + [e']) == multiset(h.entries) + multiset{e'};
      OrdersPermuted(h.entries + [e'], h'.entries, h.order + 1 + slack);
    }
  }

  lemma {:induction false} RunOrders(h: State, acts: seq<Action>, most: nat)
    requires LegalRun(h, acts, most) && OrdersAtMost(h.entries, h.order + Slack(most))
    ensures var r := RunFrom(h, acts, most);
            OrdersAtMost(r.entries, r.order + Slack(most)) && |r.entries| <= most
    decreases |acts|
  {
    if acts == [] {
    } else {
      ApplyOrders(h, acts[0], most);
      RunOrders(Apply(h, acts[0]), acts[1..], most);
    }
  }

  // ---------- selections with nobody avoided ----------

  function Anyone(): (ok: string -> bool) {
    (host: string) => true
  }

  // The hosts chosen by successive selections with the given jitters.
  function Chosen(h: State, jitters: seq<nat>): (hosts: seq<string>)
    decreases |jitters|
  {
    if jitters == [] then []
    else
      var (h', found) := PeerModel.Choose(h, Anyone(), jitters[0]);
      (if found.Some? then [found.value.host] else []) + Chosen(h', jitters[1..])
  }

  // ---------- the potential ----------

  function Below(e: Entry, score: nat, bound: nat): (r: bool) {
    e.score < score || (e.score == score && e.order <= bound)
  }

  function BelowKey(score: nat, bound: nat): (key: Key) {
    (e: Entry) => if Below(e, score, bound) then 0 else 1
  }

  lemma BelowRefined(score: nat, bound: nat)
    ensures Refined(BelowKey(score, bound))
  {
  }

  function Weight(e: Entry, score: nat, bound: nat): (n: nat) {
    if Below(e, score, bound) then 1 else 0
  }

  function Count(s: seq<Entry>, score: nat, bound: nat): (n: nat)
    ensures n <= |s|
  {
    if s == [] then 0 else Weight(s[0], score, bound) + Count(s[1..], score, bound)
  }

  lemma {:induction false} CountSplit(s: seq<Entry>, t: seq<Entry>, score: nat, bound: nat)
    ensures Count(s + t, score, bound) == Count(s, score, bound) + Count(t, score, bound)
  {
    if s == [] {
      assert s + t == t;
    } else {
      assert (s + t)[1..] == s[1..] + t;
      CountSplit(s[1..], t, score, bound);
    }
  }

  function Without(s: seq<Entry>, i: nat): (r: seq<Entry>)
    requires i < |s|
    ensures |r| == |s| - 1 && multiset(r) == multiset(s) - multiset{s[i]}
  {
    assert s == s[..i] + ([s[i]] + s[i + 1..]);
    s[..i] + s[i + 1..]
  }

  lemma CountWithout(s: seq<Entry>, i: nat, score: nat, bound: nat)
    requires i < |s|
    ensures Count(s, score, bound) == Weight(s[i], score, bound) + Count(Without(s, i), score, bound)
  {
    assert s == s[..i] + s[i..];
    CountSplit(s[..i], s[i..], score, bound);
    CountSplit(s[..i], s[i + 1..], score, bound);
    assert s[i..][1..] == s[i + 1..];
  }

  lemma {:induction false} CountPermuted(s: seq<Entry>, t: seq<Entry>, score: nat, bound: nat)
    requires multiset(s) == multiset(t)
    ensures Count(s, score, bound) == Count(t, score, bound)
    decreases |s|
  {
    hide Count, Without, Weight;
    if s == [] {
      assert |multiset(t)| == 0;
      assert t == s;
    } else {
      assert s[0] in multiset(t);
      var i :| 0 <= i < |t| && t[i] == s[0];
      CountPermuted(Without(s, 0), Without(t, i), score, bound);
      CountWithout(t, i, score, bound);
      CountWithout(s, 0, score, bound);
    }
  }

  // Selections that may still put a peer back below the bound, plus peers below it.
  function Potential(h: State, score: nat, bound: nat): (n: nat) {
    (if bound > h.order then bound - h.order else 0) + Count(h.entries, score, bound)
  }

  ghost predicate SameScore(s: seq<Entry>, score: nat) {
    forall e :: e in s ==> e.score == score
  }

  /** One selection that does not choose x keeps x below the bound and lowers the potential. */
  lemma SelectStep(h: State, jitter: nat, score: nat, bound: nat, x: Entry)
    requires x in h.entries && x.order <= bound && SameScore(h.entries, score)
    requires Ordered(BelowKey(score, bound), h.entries, |h.entries|)
    ensures var (h', found) := PeerModel.Choose(h, Anyone(), jitter);
            && found.Some?
            && (found.value != x ==>
                  && x in h'.entries && SameScore(h'.entries, score)
                  && Ordered(BelowKey(score, bound), h'.entries, |h'.entries|)
                  && Potential(h', score, bound) < Potential(h, score, bound))
  {
    hide PeerModel.Choose, Ordered, Refined, Count;
    var key := BelowKey(score, bound);
    BelowRefined(score, bound);
    ChooseLeast(h, Anyone(), jitter, key);
    ChooseMembers(h, Anyone(), jitter);
    var (h', found) := PeerModel.Choose(h, Anyone(), jitter);
    assert Anyone()(x.host);
    var e := found.value;
    assert key(e) <= key(x) == 0;
    if e != x {
      var e' := e.(order := h.order + 1 + jitter);
      StillThere(h, h', e, e', x, score);
      CountTrade(h.entries, h'.entries, e, e', score, bound);
    }
  }

  lemma CountTrade(s: seq<Entry>, t: seq<Entry>, e: Entry, e': Entry, score: nat, bound: nat)
    requires multiset(t) + multiset{e} == multiset(s) + multiset{e'}
    ensures Count(t, score, bound) + Weight(e, score, bound) == Count(s, score, bound) + Weight(e', score, bound)
  {
    assert multiset(t + [e]) == multiset(s + [e']);
    CountPermuted(t + [e], s + [e'], score, bound);
    CountSplit(t, [e], score, bound);
    CountSplit(s, [e'], score, bound);
  }

  lemma StillThere(h: State, h': State, e: Entry, e': Entry, x: Entry, score: nat)
    requires multiset(h'.entries) + multiset{e} == multiset(h.entries) + multiset{e'}
    requires x in h.entries && e != x && SameScore(h.entries, score) && e'.score == score
    ensures x in h'.entries && SameScore(h'.entries, score)
  {
    assert x in multiset(h.entries) + multiset{e'};
    assert x in multiset(h'.entries);
    forall y | y in h'.entries
      ensures y.score == score
    {
      assert y in multiset(h'.entries);
      assert y in multiset(h.entries) + multiset{e'};
    }
  }

  lemma {:induction false} Bypass(h: State, jitters: seq<nat>, score: nat, bound: nat, x: Entry)
    requires x in h.entries && x.order <= bound && SameScore(h.entries, score)
    requires Ordered(BelowKey(score, bound), h.entries, |h.entries|)
    requires |jitters| >= Potential(h, score, bound)
    ensures x.host in Chosen(h, jitters)
    decreases |jitters|
  {
    HasWeight(h.entries, x, score, bound);
    SelectStep(h, jitters[0], score, bound, x);
    var (h', found) := PeerModel.Choose(h, Anyone(), jitters[0]);
    if found.value == x {
    } else {
      Bypass(h', jitters[1..], score, bound, x);
    }
  }

  lemma {:induction false} HasWeight(s: seq<Entry>, x: Entry, score: nat, bound: nat)
    requires x in s && Below(x, score, bound)
    ensures Count(s, score, bound) >= 1
  {
    if s[0] == x {
    } else {
      HasWeight(s[1..], x, score, bound);
    }
  }

  /** In any reachable heap of n equally scored peers that never held more than N,
      every peer is chosen within n + (N - 1) / 2 consecutive selections. */
  lemma BoundedBypass(acts: seq<Action>, most: nat, score: nat, jitters: seq<nat>, x: Entry)
    requires LegalRun(EMPTY, acts, most)
    requires var h := RunFrom(EMPTY, acts, most);
             x in h.entries && SameScore(h.entries, score) && |jitters| >= |h.entries| + Slack(most)
    ensures x.host in Chosen(RunFrom(EMPTY, acts, most), jitters)
  {
    var h := RunFrom(EMPTY, acts, most);
    RunOrders(EMPTY, acts, most);
    var bound := h.order + Slack(most);
    var key := BelowKey(score, bound);
    forall j: nat | 1 <= j < |h.entries|
      ensures PairOk(key, h.entries, j)
    {
      assert h.entries[j] in h.entries && h.entries[Parent(j)] in h.entries;
    }
    Bypass(h, jitters, score, bound, x);
  }
}
