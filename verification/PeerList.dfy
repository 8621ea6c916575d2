/** The peer list (peer.go): peers by host:port, and the heap they are chosen from. */
module PeerList {
  import HM = HeapModel
  import PM = PeerModel
  import opened PeerHeap

  // getHost (retry.go): everything before the first colon.
  function GetHost(hostPort: string): (host: string)
    ensures host <= hostPort && ':' !in host
    ensures |host| < |hostPort| ==> hostPort[|host|] == ':'
  {
    if hostPort == "" || hostPort[0] == ':' then ""
    else [hostPort[0]] + GetHost(hostPort[1..])
  }

  // canChoosePeer
  function CanChoose(prev: set<string>, avoidHost: bool): (ok: string -> bool) {
    (hostPort: string) => hostPort !in prev && (avoidHost ==> GetHost(hostPort) !in prev)
  }

  function Hosts(s: seq<HM.Entry>): (hps: set<string>) {
    set e | e in s :: e.host
  }

  // A host:port is new if it was not selected before, and so is a host.
  predicate SomeNew(hps: set<string>, prev: set<string>) {
    exists hp :: hp in hps && hp !in prev
  }

  predicate SomeNewHost(hps: set<string>, prev: set<string>) {
    exists hp :: hp in hps && hp !in prev && GetHost(hp) !in prev
  }

  /** Whether this peer is among those a selection that avoids `prev` picks from: those on new
      hosts if there are any, else the new host:ports if there are any, else everyone. */
  predicate InTier(hps: set<string>, prev: set<string>, hp: string) {
    && (SomeNew(hps, prev) ==> hp !in prev)
    && (SomeNewHost(hps, prev) ==> GetHost(hp) !in prev)
  }

  /** The peers one selection may take. */
  predicate Eligible(prev: set<string>, avoidHost: bool, hp: string) {
    hp !in prev && (avoidHost ==> GetHost(hp) !in prev)
  }

  lemma CanChooseIs(prev: set<string>, avoidHost: bool)
    ensures forall hp :: CanChoose(prev, avoidHost)(hp) <==> Eligible(prev, avoidHost, hp)
  {
  }

  // GetNew and Get on values, with the jitter of each selection.
  function GetNewModel(h: PM.State, prev: set<string>, j1: nat, j2: nat): (r: (PM.State, PM.Option<HM.Entry>)) {
    var (h1, found) := PM.Choose(h, CanChoose(prev, true), j1);
    if found.Some? then (h1, found) else PM.Choose(h1, CanChoose(prev, false), j2)
  }

  // Get takes the lock a second time for its last selection; `between` is the list then.
  function GetModel(h: PM.State, prev: set<string>, j1: nat, j2: nat, between: PM.State, j3: nat)
      : (r: (PM.State, PM.Option<HM.Entry>))
  {
    var (h1, found) := GetNewModel(h, prev, j1, j2);
    if found.Some? || h.entries == [] then (h1, found) else PM.Choose(between, CanChoose({}, false), j3)
  }

  lemma NewModelTurn(h: PM.State, prev: set<string>, j1: nat, j2: nat)
    ensures var (h1, found) := PM.Choose(h, CanChoose(prev, true), j1);
      GetNewModel(h, prev, j1, j2) == if found.Some? then (h1, found) else PM.Choose(h1, CanChoose(prev, false), j2)
  {
  }

  ghost predicate LeastEligible(s: seq<HM.Entry>, prev: set<string>, avoidHost: bool, e: HM.Entry) {
    && e in s && Eligible(prev, avoidHost, e.host)
    && forall d :: d in s && Eligible(prev, avoidHost, d.host) ==> e.score <= d.score
  }

  ghost predicate LeastInTier(s: seq<HM.Entry>, prev: set<string>, e: HM.Entry) {
    && e in s && InTier(Hosts(s), prev, e.host)
    && forall d :: d in s && InTier(Hosts(s), prev, d.host) ==> e.score <= d.score
  }

  ghost predicate Least(s: seq<HM.Entry>, e: HM.Entry) {
    e in s && forall d :: d in s ==> e.score <= d.score
  }

  /** One selection takes a least-scored eligible peer, if there is one. */
  lemma ChooseEligible(h: PM.State, s: seq<HM.Entry>, prev: set<string>, avoidHost: bool, jitter: nat)
    requires ScoreOrdered(h.entries) && multiset(h.entries) == multiset(s)
    ensures var (h', found) := PM.Choose(h, CanChoose(prev, avoidHost), jitter);
            && ScoreOrdered(h'.entries)
            && (found.Some? <==> exists e :: e in s && Eligible(prev, avoidHost, e.host))
            && (found.Some? ==> LeastEligible(s, prev, avoidHost, found.value))
            && (found.None? ==> multiset(h'.entries) == multiset(s))
  {
    var ok := CanChoose(prev, avoidHost);
    CanChooseIs(prev, avoidHost);
    hide PM.Choose, HM.Ordered, HM.Refined, CanChoose;
    PM.ScoreRefined();
    PM.ChooseLeast(h, ok, jitter, PM.ScoreKey());
    PM.ChooseMembers(h, ok, jitter);
    assert forall e :: e in h.entries <==> e in multiset(h.entries);
    assert forall e :: e in s <==> e in multiset(s);
    var (h', found) := PM.Choose(h, ok, jitter);
    if found.Some? {
      forall d | d in s && ok(d.host)
        ensures found.value.score <= d.score
      {
        assert PM.ScoreKey()(found.value) <= PM.ScoreKey()(d);
      }
    }
  }

  lemma HostsHave(s: seq<HM.Entry>)
    ensures forall e :: e in s ==> e.host in Hosts(s)
    ensures forall hp :: hp in Hosts(s) ==> exists e :: e in s && e.host == hp
  {
  }

  // The tier in terms of the two selections of GetNew.
  lemma TierIs(s: seq<HM.Entry>, prev: set<string>)
    ensures SomeNewHost(Hosts(s), prev) <==> exists e :: e in s && Eligible(prev, true, e.host)
    ensures SomeNew(Hosts(s), prev) <==> exists e :: e in s && Eligible(prev, false, e.host)
    ensures SomeNewHost(Hosts(s), prev) ==> SomeNew(Hosts(s), prev)
  {
    HostsHave(s);
    if e :| e in s && Eligible(prev, true, e.host) {
      assert e.host in Hosts(s);
    }
    if e :| e in s && Eligible(prev, false, e.host) {
      assert e.host in Hosts(s);
    }
  }

  /** GetNew finds a peer exactly if some host:port is new, and it is a least-scored one of
      those on new hosts or, if there are none, of the new host:ports. */
  lemma GetNewFromTier(h: PM.State, prev: set<string>, j1: nat, j2: nat)
    requires ScoreOrdered(h.entries)
    ensures var (h', found) := GetNewModel(h, prev, j1, j2);
            && ScoreOrdered(h'.entries)
            && (found.Some? <==> SomeNew(Hosts(h.entries), prev))
            && (found.Some? ==> LeastInTier(h.entries, prev, found.value))
            && (found.None? ==> multiset(h'.entries) == multiset(h.entries))
  {
    hide PM.Choose, ScoreOrdered, CanChoose, SomeNew, SomeNewHost;
    var s := h.entries;
    TierIs(s, prev);
    ChooseEligible(h, s, prev, true, j1);
    var (h1, found1) := PM.Choose(h, CanChoose(prev, true), j1);
    if found1.None? {
      ChooseEligible(h1, s, prev, false, j2);
    }
  }

  lemma EmptyNew(h: PM.State, prev: set<string>, j1: nat, j2: nat)
    requires h.entries == []
    ensures GetNewModel(h, prev, j1, j2) == (h, PM.None)
  {
  }

  // The last selection takes a least-scored peer of the whole list.
  lemma ChooseAny(h: PM.State, s: seq<HM.Entry>, jitter: nat)
    requires ScoreOrdered(h.entries) && multiset(h.entries) == multiset(s)
    ensures var (h', found) := PM.Choose(h, CanChoose({}, false), jitter);
            && ScoreOrdered(h'.entries)
            && (found.None? <==> s == [])
            && (found.Some? ==> Least(s, found.value))
  {
    hide PM.Choose, ScoreOrdered, CanChoose;
    ChooseEligible(h, s, {}, false, jitter);
    var found := PM.Choose(h, CanChoose({}, false), jitter).1;
    if s == [] {
      assert found.None?;
    } else {
      assert s[0] in s && Eligible({}, false, s[0].host);
      assert found.Some?;
    }
  }

  /** Get, whatever happens to the list between its two locks: it fails at once if the list
      is empty, takes a least-scored peer of the first tier if some host:port is new, and
      otherwise a least-scored peer of the list it then finds, failing only if that is empty. */
  lemma GetFromTier(h: PM.State, prev: set<string>, j1: nat, j2: nat, between: PM.State, j3: nat)
    requires ScoreOrdered(h.entries) && ScoreOrdered(between.entries)
    ensures var (h', found) := GetModel(h, prev, j1, j2, between, j3);
            && ScoreOrdered(h'.entries)
            && (if h.entries == [] then found.None?
                else if SomeNew(Hosts(h.entries), prev) then
                  found.Some? && LeastInTier(h.entries, prev, found.value)
                else
                  && (found.None? <==> between.entries == [])
                  && (found.Some? ==> Least(between.entries, found.value)))
  {
    hide PM.Choose, ScoreOrdered, LeastInTier, Least, GetNewModel, SomeNew, Hosts;
    GetNewFromTier(h, prev, j1, j2);
    ChooseAny(between, between.entries, j3);
    EmptyHosts(h.entries, prev);
  }

  lemma EmptyHosts(s: seq<HM.Entry>, prev: set<string>)
    ensures s == [] ==> !SomeNew(Hosts(s), prev)
  {
  }

  /** If nothing else happens to the list, Get finds a peer exactly if there is one, and it
      is a least-scored one of the first tier that is not empty. */
  lemma GetUndisturbed(h: PM.State, prev: set<string>, j1: nat, j2: nat, j3: nat)
    requires ScoreOrdered(h.entries)
    ensures var found := GetModel(h, prev, j1, j2, GetNewModel(h, prev, j1, j2).0, j3).1;
            && (found.None? <==> h.entries == [])
            && (found.Some? ==> LeastInTier(h.entries, prev, found.value))
  {
    hide PM.Choose, ScoreOrdered, GetNewModel, SomeNew, SomeNewHost, Hosts;
    GetNewFromTier(h, prev, j1, j2);
    EmptyHosts(h.entries, prev);
    TierIs(h.entries, prev);
    var (h1, found) := GetNewModel(h, prev, j1, j2);
    if found.None? {
      ChooseAny(h1, h.entries, j3);
    }
  }

  ghost predicate ScoreOrdered(s: seq<HM.Entry>) {
    HM.Ordered(PM.ScoreKey(), s, |s|)
  }

  ghost predicate Keyed(m: map<string, PeerScore>) {
    forall hp :: hp in m ==> m[hp].hostPort == hp
  }

  lemma KeyedAt(m: map<string, PeerScore>, hostPort: string)
    requires Keyed(m) && hostPort in m
    ensures m[hostPort].hostPort == hostPort && m == m[hostPort := m[hostPort]]
  {
  }

  lemma KeyedValue(m: map<string, PeerScore>, p: PeerScore)
    requires Keyed(m) && p in m.Values
    ensures p.hostPort in m.Keys
  {
  }

  lemma KeyedAdd(m: map<string, PeerScore>, p: PeerScore)
    requires Keyed(m) && p.hostPort !in m
    ensures var m' := m[p.hostPort := p]; Keyed(m') && m'.Values == m.Values + {p}
    ensures forall q :: q in m.Values ==> q.hostPort != p.hostPort
  {
    var m' := m[p.hostPort := p];
    forall q | q in m.Values
      ensures q in m'.Values
    {
      var hp :| hp in m && m[hp] == q;
      assert m'[hp] == q;
    }
    assert m'[p.hostPort] == p;
  }

  lemma KeyedRemove(m: map<string, PeerScore>, hostPort: string)
    requires Keyed(m) && hostPort in m
    ensures var m' := m - {hostPort}; Keyed(m') && m'.Values == m.Values - {m[hostPort]}
    ensures m[hostPort] in m.Values
  {
    var m' := m - {hostPort};
    forall q | q in m.Values && q != m[hostPort]
      ensures q in m'.Values
    {
      var hp :| hp in m && m[hp] == q;
      assert m'[hp] == q;
    }
  }

  datatype GetError = NoError | ErrNoPeers | ErrNoNewPeers

  /** A change another goroutine makes to the list under its lock. */
  datatype ListOp =
    | AddOp(hostPort: string, score: nat, rnd: nat, slot: nat)
    | RemoveOp(hostPort: string)
    | UpdateOp(hostPort: string, score: nat)
    | ChooseOp(prev: set<string>, avoidHost: bool, rnd: nat)

  class PeerList {
    var peersByHostPort: map<string, PeerScore>
    const peerHeap: Heap

    ghost function Repr(): (r: set<object>)
      reads this, peerHeap
    {
      {this, peerHeap} + peerHeap.Repr()
    }

    // The map and the heap hold the same peers, each under its own host:port.
    ghost predicate Bijective()
      reads this, peerHeap, peerHeap.peerScores
    {
      peerHeap.Valid() && Keyed(peersByHostPort) && peerHeap.Repr() == peersByHostPort.Values
    }

    ghost predicate Valid()
      reads this, peerHeap, peerHeap.peerScores
    {
      Bijective() && ScoreOrdered(peerHeap.Entries())
    }

    constructor ()
      ensures Valid() && fresh(Repr()) && peersByHostPort == map[]
    {
      peersByHostPort := map[];
      peerHeap := new Heap();
      new;
    }

    /** Adds a peer unless its host:port is already there. */
    method Add(hostPort: string, score: nat, rnd: nat, slot: nat) returns (p: PeerScore)
      requires Valid()
      modifies Repr()
      ensures Valid() && fresh(Repr() - old(Repr()))
      ensures p.hostPort == hostPort && peersByHostPort == old(peersByHostPort)[hostPort := p]
      ensures old(hostPort in peersByHostPort) ==>
                peersByHostPort == old(peersByHostPort) && peerHeap.View() == old(peerHeap.View())
      ensures old(hostPort !in peersByHostPort) ==>
                && fresh(p)
                && peerHeap.View() == PM.AddPeer(old(peerHeap.View()), HM.Entry(hostPort, score, 0),
                                                 rnd % (|old(peerHeap.peerScores)| / 2 + 1),
                                                 slot % (|old(peerHeap.peerScores)| + 1))
    {
      hide PM.AddPeer, ScoreOrdered, Keyed, Heap.Valid, Heap.Entries;
      if hostPort in peersByHostPort {
        KeyedAt(peersByHostPort, hostPort);
        p := peersByHostPort[hostPort];
        return;
      }
      p := new PeerScore(hostPort, score);
      AddNew(p, rnd, slot);
    }

    method AddNew(p: PeerScore, rnd: nat, slot: nat)
      requires Valid() && p.hostPort !in peersByHostPort
      modifies Repr(), p`index, p`order
      ensures Valid() && Repr() == old(Repr()) + {p}
      ensures peersByHostPort == old(peersByHostPort)[p.hostPort := p]
      ensures peerHeap.View() ==
        PM.AddPeer(old(peerHeap.View()), old(p.Entry()), rnd % (|old(peerHeap.peerScores)| / 2 + 1),
                   slot % (|old(peerHeap.peerScores)| + 1))
    {
      hide PM.AddPeer, HM.Ordered, Keyed, Heap.Valid, Heap.Entries;
      KeyedAdd(peersByHostPort, p);
      PM.AddKeepsScores(peerHeap.View(), p.Entry(), rnd % (|peerHeap.peerScores| / 2 + 1),
        slot % (|peerHeap.peerScores| + 1));
      assert forall q :: q in peerHeap.peerScores ==> q in peersByHostPort.Values;
      peersByHostPort := peersByHostPort[p.hostPort := p];
      peerHeap.AddPeer(p, rnd, slot);
    }

    method Remove(hostPort: string) returns (found: bool)
      requires Valid()
      modifies Repr()
      ensures Valid() && Repr() <= old(Repr())
      ensures found == old(hostPort in peersByHostPort)
      ensures peersByHostPort == old(peersByHostPort) - {hostPort}
      ensures found ==>
                && old(peersByHostPort)[hostPort].index == -1
                && var i := old(peersByHostPort[hostPort].index);
                0 <= i < |old(peerHeap.peerScores)| && peerHeap.Entries() == HM.Remove(old(peerHeap.Entries()), i).0
    {
      hide HM.Remove;
      if hostPort !in peersByHostPort {
        return false;
      }
      RemovePresent(hostPort);
      found := true;
    }

    method RemovePresent(hostPort: string)
      requires Valid() && hostPort in peersByHostPort
      modifies Repr()
      ensures Valid() && Repr() <= old(Repr())
      ensures peersByHostPort == old(peersByHostPort) - {hostPort}
      ensures old(peersByHostPort)[hostPort].index == -1
      ensures var i := old(peersByHostPort[hostPort].index);
              0 <= i < |old(peerHeap.peerScores)| && peerHeap.Entries() == HM.Remove(old(peerHeap.Entries()), i).0
    {
      hide HM.Remove, HM.Ordered, Keyed, Heap.Entries;
      KeyedRemove(peersByHostPort, hostPort);
      var p := peersByHostPort[hostPort];
      assert p in peerHeap.Repr();
      PM.ScoreRefined();
      HM.RemoveOrders(PM.ScoreKey(), peerHeap.Entries(), p.index);
      peersByHostPort := peersByHostPort - {hostPort};
      var q := peerHeap.Remove(p.index);
    }

    /** A changed score moves only the changed peer's entry; a peer that was
        removed meanwhile is left alone. */
    method UpdatePeer(p: PeerScore, newScore: nat)
      requires Valid() && (p in peerHeap.peerScores || p.index == -1)
      modifies this, peerHeap, peerHeap.peerScores, p`score
      ensures Valid() && Repr() == old(Repr()) && peersByHostPort == old(peersByHostPort)
      ensures p.score == newScore
      ensures old(p.index) == -1 ==> peerHeap.View() == old(peerHeap.View())
      ensures old(p.index) != -1 && newScore != old(p.score) ==>
                var i, s := old(p.index), old(peerHeap.Entries());
                0 <= i < |s| && peerHeap.Entries() == HM.Fix(s[i := s[i].(score := newScore)], i)
    {
      hide HM.Fix, ScoreOrdered, Keyed, Heap.Entries;
      if p.score == newScore { return; }
      ghost var s := peerHeap.Entries();
      ghost var i := p.index;
      p.score := newScore;
      ScoreChanged(p, s, newScore);
      peerHeap.UpdatePeer(p);
    }

    // What the heap holds once the field of one peer has changed.
    lemma ScoreChanged(p: PeerScore, s: seq<HM.Entry>, newScore: nat)
      requires peerHeap.Valid() && (p in peerHeap.peerScores || p.index == -1) && p.score == newScore
      requires |s| == |peerHeap.peerScores| && ScoreOrdered(s)
      requires forall k :: 0 <= k < |s| ==>
        s[k].host == peerHeap.peerScores[k].hostPort && s[k].order == peerHeap.peerScores[k].order
      requires forall k :: 0 <= k < |s| && peerHeap.peerScores[k] != p ==> s[k].score == peerHeap.peerScores[k].score
      ensures -1 <= p.index < |s|
      ensures p.index == -1 ==> peerHeap.Entries() == s
      ensures p.index != -1 ==>
                && peerHeap.Entries() == s[p.index := s[p.index].(score := newScore)]
                && ScoreOrdered(HM.Fix(peerHeap.Entries(), p.index))
    {
      hide HM.Fix, HM.Ordered;
      if p.index != -1 {
        PM.UpdateKeepsScores(s, p.index, newScore);
        assert peerHeap.Entries() == s[p.index := s[p.index].(score := newScore)];
      } else {
        assert peerHeap.Entries() == s;
      }
    }

    // The pop loop of choosePeer.
    method PopUntil(prev: set<string>, avoidHost: bool) returns (p: PeerScore?, skipped: seq<PeerScore>)
      requires peerHeap.Valid()
      modifies peerHeap`peerScores, peerHeap.Repr()`index
      ensures peerHeap.Valid()
      ensures var (rest, es, found) := PM.PopUntil(old(peerHeap.Entries()), CanChoose(prev, avoidHost));
              && peerHeap.Entries() == rest
              && Shows(skipped, es)
              && (p == null <==> found.None?)
              && (p != null ==> found == PM.Some(p.Entry()))
      ensures Apart(skipped, peerHeap.Repr())
      ensures p != null ==> p !in peerHeap.Repr() && p !in skipped
      ensures old(peerHeap.Repr()) == peerHeap.Repr() + (set q | q in skipped) + if p == null then {} else {p}
    {
      hide PM.PopUntil, HM.Pop, Heap.Entries;
      p, skipped := null, [];
      ghost var es: seq<HM.Entry> := [];
      var ok := CanChoose(prev, avoidHost);
      ghost var goal := PM.PopUntil(peerHeap.Entries(), ok);
      assert es + goal.1 == goal.1;
      while |peerHeap.peerScores| > 0
        invariant peerHeap.Valid() && Shows(skipped, es) && Apart(skipped, peerHeap.Repr())
        invariant goal.0 == PM.PopUntil(peerHeap.Entries(), ok).0 && goal.2 == PM.PopUntil(peerHeap.Entries(), ok).2
        invariant goal.1 == es + PM.PopUntil(peerHeap.Entries(), ok).1
        invariant old(peerHeap.Repr()) == peerHeap.Repr() + (set q | q in skipped)
        decreases |peerHeap.peerScores|
      {
        PM.PopUntilTurn(peerHeap.Entries(), ok);
        ghost var was := peerHeap.Entries();
        var popped := peerHeap.Pop();
        if ok(popped.hostPort) {
          p := popped;
          assert es + [] == es;
          return;
        }
        ghost var ahead := PM.PopUntil(peerHeap.Entries(), ok).1;
        assert es + ([popped.Entry()] + ahead) == es + [popped.Entry()] + ahead;
        es := es + [popped.Entry()];
        skipped := skipped + [popped];
      }
      PM.PopUntilTurn(peerHeap.Entries(), ok);
      assert es + [] == es;
    }

    // The loop of choosePeer that puts the skipped peers back.
    method PushBack(skipped: seq<PeerScore>, ghost es: seq<HM.Entry>)
      requires peerHeap.Valid() && Shows(skipped, es) && Apart(skipped, peerHeap.Repr())
      modifies peerHeap`peerScores, peerHeap.Repr()`index, (set q | q in skipped)`index
      ensures peerHeap.Valid() && peerHeap.Entries() == PM.PushAll(old(peerHeap.Entries()), es)
      ensures peerHeap.Repr() == old(peerHeap.Repr()) + set q | q in skipped
    {
      hide PM.PushAll, HM.Push, Heap.Entries;
      var i := 0;
      assert es[0..] == es;
      ghost var goal := PM.PushAll(peerHeap.Entries(), es);
      while i < |skipped|
        invariant 0 <= i <= |skipped|
        invariant peerHeap.Valid() && Shows(skipped, es) && Apart(skipped[i..], peerHeap.Repr())
        invariant goal == PM.PushAll(peerHeap.Entries(), es[i..])
        invariant peerHeap.Repr() == old(peerHeap.Repr()) + set q | q in skipped[..i]
      {
        assert skipped[i..][0] == skipped[i];
        PM.PushAllTurn(peerHeap.Entries(), es[i..]);
        assert es[i..][1..] == es[i + 1..];
        ghost var rest := skipped[i + 1..];
        assert forall k :: 0 <= k < |rest| ==> rest[k] == skipped[i..][k + 1];
        assert skipped[..i + 1] == skipped[..i] + [skipped[i]];
        peerHeap.Push(skipped[i]);
        i := i + 1;
      }
      assert skipped[..i] == skipped;
      PM.PushAllTurn(peerHeap.Entries(), es[i..]);
    }

    method TakeOut(prev: set<string>, avoidHost: bool) returns (p: PeerScore?)
      requires peerHeap.Valid()
      modifies peerHeap`peerScores, peerHeap.Repr()`index
      ensures peerHeap.Valid()
      ensures var (rest, es, found) := PM.PopUntil(old(peerHeap.Entries()), CanChoose(prev, avoidHost));
              && peerHeap.Entries() == PM.PushAll(rest, es)
              && (p == null <==> found.None?)
              && (p != null ==> found == PM.Some(p.Entry()))
      ensures |peerHeap.peerScores| == |old(peerHeap.peerScores)| - if p == null then 0 else 1
      ensures p == null ==> peerHeap.Repr() == old(peerHeap.Repr())
      ensures p != null ==> p !in peerHeap.Repr() && old(peerHeap.Repr()) == peerHeap.Repr() + {p}
    {
      hide PM.PopUntil, PM.PushAll, Heap.Entries, Heap.Valid, CanChoose, Shows, Apart;
      ghost var es := PM.PopUntil(peerHeap.Entries(), CanChoose(prev, avoidHost)).1;
      PM.ChooseSizes(peerHeap.Entries(), CanChoose(prev, avoidHost));
      var skipped;
      p, skipped := PopUntil(prev, avoidHost);
      PushBack(skipped, es);
    }

    method PutBackChosen(p: PeerScore, rnd: nat)
      requires peerHeap.Valid() && p !in peerHeap.Repr()
      modifies peerHeap, peerHeap.Repr()`index, p`index, p`order, p`chosenCount
      ensures peerHeap.Valid() && peerHeap.Repr() == old(peerHeap.Repr()) + {p}
      ensures |peerHeap.peerScores| == |old(peerHeap.peerScores)| + 1
      ensures peerHeap.View() ==
        PM.PushPeer(old(peerHeap.View()), old(p.Entry()), rnd % (|old(peerHeap.peerScores)| / 2 + 1))
      ensures p.chosenCount == old(p.chosenCount) + 1
    {
      hide PM.PushPeer;
      peerHeap.PushPeer(p, rnd);
      ghost var s := peerHeap.Entries();
      p.chosenCount := p.chosenCount + 1;
      assert peerHeap.Entries() == s;
    }

    // choosePeer, told by the model.
    method Choose(prev: set<string>, avoidHost: bool, rnd: nat) returns (p: PeerScore?)
      requires Valid()
      modifies Repr()
      ensures Valid() && Repr() == old(Repr()) && peersByHostPort == old(peersByHostPort)
      ensures |peerHeap.peerScores| == |old(peerHeap.peerScores)|
      ensures forall q :: q in peerHeap.Repr() ==> q.score == old(q.score) && (q != p ==> q.order == old(q.order))
      ensures var (h, found) := PM.Choose(old(peerHeap.View()), CanChoose(prev, avoidHost), old(Jitter(rnd)));
              && peerHeap.View() == h
              && (p == null <==> found.None?)
              && (p != null ==>
                    && p in peerHeap.Repr() && found == PM.Some(old(p.Entry()))
                    && p.chosenCount == old(p.chosenCount) + 1)
    {
      hide PM.PopUntil, PM.PushAll, PM.PushPeer, HM.Ordered, HM.Refined, Keyed, Heap.Valid, Heap.Entries, CanChoose;
      PM.ScoreRefined();
      PM.ChooseLeast(peerHeap.View(), CanChoose(prev, avoidHost), Jitter(rnd), PM.ScoreKey());
      p := TakeOut(prev, avoidHost);
      if p != null {
        PutBackChosen(p, rnd);
      }
    }

    // The jitter a draw yields when the chosen peer is put back.
    ghost function Jitter(rnd: nat): (j: nat)
      reads peerHeap
    {
      var n := |peerHeap.peerScores|;
      if n == 0 then 0 else rnd % ((n - 1) / 2 + 1)
    }

    // Every peer of the list is in the heap, under its own host:port.
    lemma ListShows()
      requires Valid()
      ensures Hosts(peerHeap.Entries()) == peersByHostPort.Keys
      ensures forall q :: q in peersByHostPort.Values ==>
        q.Entry() in peerHeap.Entries() && q.hostPort in peersByHostPort
    {
      forall q | q in peersByHostPort.Values
        ensures q.Entry() in peerHeap.Entries() && q.hostPort in peersByHostPort
      {
        assert q in peerHeap.Repr();
        var i :| 0 <= i < |peerHeap.peerScores| && peerHeap.peerScores[i] == q;
        assert peerHeap.Entries()[i] == q.Entry();
      }
      forall hp | hp in peersByHostPort
        ensures hp in Hosts(peerHeap.Entries())
      {
        assert peersByHostPort[hp] in peersByHostPort.Values && peersByHostPort[hp].Entry().host == hp;
      }
      forall hp | hp in Hosts(peerHeap.Entries())
        ensures hp in peersByHostPort
      {
        var i :| 0 <= i < |peerHeap.peerScores| && peerHeap.Entries()[i].host == hp;
        assert peerHeap.peerScores[i] in peerHeap.Repr();
      }
    }

    /** choosePeer: takes a least-scored peer that was not selected before (nor its host, if
        hosts are to be avoided), or null if there is none, and leaves every other peer's
        order as it was. */
    method ChoosePeer(prev: set<string>, avoidHost: bool, rnd: nat) returns (p: PeerScore?)
      requires Valid()
      modifies Repr()
      ensures Valid() && Repr() == old(Repr()) && peersByHostPort == old(peersByHostPort)
      ensures |peerHeap.peerScores| == |old(peerHeap.peerScores)|
      ensures forall q :: q in peerHeap.Repr() ==> q.score == old(q.score) && (q != p ==> q.order == old(q.order))
      ensures var (h, found) := PM.Choose(old(peerHeap.View()), CanChoose(prev, avoidHost), old(Jitter(rnd)));
              peerHeap.View() == h && (p == null <==> found.None?)
      ensures p == null <==> forall hp :: hp in peersByHostPort ==> hp in prev || (avoidHost && GetHost(hp) in prev)
      ensures p != null ==>
                && p in peersByHostPort.Values && p.chosenCount == old(p.chosenCount) + 1
                && p.hostPort !in prev && (avoidHost ==> GetHost(p.hostPort) !in prev)
                && forall q :: q in peersByHostPort.Values && Eligible(prev, avoidHost, q.hostPort) ==>
                  p.score <= q.score
    {
      hide PM.Choose, ScoreOrdered, Keyed, Heap.Valid, Heap.Entries, CanChoose;
      ghost var s := peerHeap.Entries();
      ListShows();
      HostsHave(s);
      ChooseEligible(peerHeap.View(), s, prev, avoidHost, Jitter(rnd));
      p := Choose(prev, avoidHost, rnd);
      if p == null {
        forall hp | hp in peersByHostPort
          ensures hp in prev || (avoidHost && GetHost(hp) in prev)
        {
          var e :| e in s && e.host == hp;
          assert !Eligible(prev, avoidHost, e.host);
        }
      } else {
        var e := old(p.Entry());
        assert LeastEligible(s, prev, avoidHost, e) && e.host == p.hostPort && e.score == p.score;
        assert p.hostPort in peersByHostPort;
      }
    }

    // The two selections of GetNew.
    method SelectNew(prev: set<string>, rnd1: nat, rnd2: nat) returns (p: PeerScore?)
      requires Valid()
      modifies Repr()
      ensures Valid() && Repr() == old(Repr()) && peersByHostPort == old(peersByHostPort)
      ensures peerHeap.View() == GetNewModel(old(peerHeap.View()), prev, old(Jitter(rnd1)), old(Jitter(rnd2))).0
      ensures p == null <==> !SomeNew(peersByHostPort.Keys, prev)
      ensures p != null ==> LeastOfList(prev, p)
      ensures forall q :: q in peerHeap.Repr() ==> q.score == old(q.score)
    {
      hide PM.Choose, ScoreOrdered, Keyed, Heap.Valid, Heap.Entries, CanChoose, GetHost, SomeNew, LeastOfList, InTier,
        GetNewModel, Jitter, Heap.View;
      ghost var h, j1, j2 := peerHeap.View(), Jitter(rnd1), Jitter(rnd2);
      NewModelTurn(h, prev, j1, j2);
      p := ChoosePeer(prev, true, rnd1);
      assert peerHeap.View() == PM.Choose(h, CanChoose(prev, true), j1).0;
      assert p == null <==> PM.Choose(h, CanChoose(prev, true), j1).1.None?;
      FirstSelection(prev, p);
      if p == null {
        SameJitter(rnd2);
        assert Jitter(rnd2) == j2;
        ghost var h1 := peerHeap.View();
        p := ChoosePeer(prev, false, rnd2);
        assert peerHeap.View() == PM.Choose(h1, CanChoose(prev, false), j2).0;
        assert peerHeap.View() == GetNewModel(h, prev, j1, j2).0;
        SecondSelection(prev, p);
      }
    }

    twostate lemma SameJitter(rnd: nat)
      requires |peerHeap.peerScores| == old(|peerHeap.peerScores|)
      ensures Jitter(rnd) == old(Jitter(rnd))
    {
    }

    // What the two selections of GetNew say about the tier.
    lemma FirstSelection(prev: set<string>, p: PeerScore?)
      requires Valid()
      requires p == null ==> forall hp :: hp in peersByHostPort ==> hp in prev || GetHost(hp) in prev
      requires p != null ==>
                 && p in peersByHostPort.Values && Eligible(prev, true, p.hostPort)
                 && forall q :: q in peersByHostPort.Values && Eligible(prev, true, q.hostPort) ==> p.score <= q.score
      ensures p == null ==> !SomeNewHost(peersByHostPort.Keys, prev)
      ensures p != null ==> LeastOfList(prev, p) && SomeNew(peersByHostPort.Keys, prev)
    {
      hide GetHost;
      if p != null {
        KeyedValue(peersByHostPort, p);
      }
    }

    lemma SecondSelection(prev: set<string>, p: PeerScore?)
      requires Valid() && !SomeNewHost(peersByHostPort.Keys, prev)
      requires p == null ==> forall hp :: hp in peersByHostPort ==> hp in prev
      requires p != null ==>
                 && p in peersByHostPort.Values && Eligible(prev, false, p.hostPort)
                 && forall q :: q in peersByHostPort.Values && Eligible(prev, false, q.hostPort) ==> p.score <= q.score
      ensures p == null ==> !SomeNew(peersByHostPort.Keys, prev)
      ensures p != null ==> LeastOfList(prev, p) && SomeNew(peersByHostPort.Keys, prev)
    {
      hide GetHost;
      if p != null {
        KeyedValue(peersByHostPort, p);
      }
    }

    // A least-scored peer of the first tier of the list that is not empty.
    ghost predicate LeastOfList(prev: set<string>, p: PeerScore)
      reads this, peersByHostPort.Values
    {
      && p in peersByHostPort.Values && InTier(peersByHostPort.Keys, prev, p.hostPort)
      && forall q :: q in peersByHostPort.Values && InTier(peersByHostPort.Keys, prev, q.hostPort) ==>
        p.score <= q.score
    }

    /** GetNew, under one lock: ErrNoPeers exactly for an empty list, ErrNoNewPeers exactly
        if every host:port was selected before; otherwise the peer was not selected before,
        it is on a host that was not if there is one, and none of those scores less. */
    method GetNew(prev: set<string>, rnd1: nat, rnd2: nat) returns (p: PeerScore?, err: GetError)
      requires Valid()
      modifies Repr()
      ensures Valid() && Repr() == old(Repr()) && peersByHostPort == old(peersByHostPort)
      ensures peerHeap.View() == GetNewModel(old(peerHeap.View()), prev, old(Jitter(rnd1)), old(Jitter(rnd2))).0
      ensures err == (if peersByHostPort == map[] then ErrNoPeers
                      else if exists hp :: hp in peersByHostPort && hp !in prev then NoError else ErrNoNewPeers)
      ensures p == null <==> err != NoError
      ensures p != null ==>
                && p.hostPort !in prev && LeastOfList(prev, p)
                && (SomeNewHost(peersByHostPort.Keys, prev) ==> GetHost(p.hostPort) !in prev)
    {
      hide GetNewModel, ScoreOrdered, Keyed, Heap.Valid, Heap.Entries;
      EmptyTogether(peersByHostPort, peerHeap.peerScores);
      if |peerHeap.peerScores| == 0 {
        EmptyNew(peerHeap.View(), prev, Jitter(rnd1), Jitter(rnd2));
        return null, ErrNoPeers;
      }
      p := SelectNew(prev, rnd1, rnd2);
      err := if p == null then ErrNoNewPeers else NoError;
      assert forall hp :: hp in peersByHostPort <==> hp in peersByHostPort.Keys;
    }

    // Get's last selection, under a lock of its own.
    method GetAny(rnd: nat) returns (p: PeerScore?)
      requires Valid()
      modifies Repr()
      ensures Valid() && Repr() == old(Repr()) && peersByHostPort == old(peersByHostPort)
      ensures p == null <==> peersByHostPort == map[]
      ensures p != null ==> p in peersByHostPort.Values && forall q :: q in peersByHostPort.Values ==>
        p.score <= q.score
    {
      hide PM.Choose, ScoreOrdered, Keyed, Heap.Valid, CanChoose, Heap.Entries;
      p := ChoosePeer({}, false, rnd);
    }

    // What other goroutines do to the list, one lock at a time.
    method Meanwhile(ops: seq<ListOp>)
      requires Valid()
      modifies Repr()
      ensures Valid() && fresh(Repr() - old(Repr()))
    {
      hide ScoreOrdered, Keyed, Heap.Valid, Heap.Entries;
      var i := 0;
      while i < |ops|
        invariant 0 <= i <= |ops| && Valid() && fresh(Repr() - old(Repr()))
      {
        One(ops[i]);
        i := i + 1;
      }
    }

    method One(op: ListOp)
      requires Valid()
      modifies Repr()
      ensures Valid() && fresh(Repr() - old(Repr()))
    {
      hide ScoreOrdered, Keyed, Heap.Valid, Heap.Entries;
      match op
      case AddOp(hostPort, score, rnd, slot) => var _ := Add(hostPort, score, rnd, slot);
      case RemoveOp(hostPort) => var _ := Remove(hostPort);
      case ChooseOp(prev, avoidHost, rnd) => var _ := ChoosePeer(prev, avoidHost, rnd);
      case UpdateOp(hostPort, score) =>
        if hostPort in peersByHostPort {
          assert peersByHostPort[hostPort] in peerHeap.Repr();
          UpdatePeer(peersByHostPort[hostPort], score);
        }
    }

    /** Get, with anything other goroutines may do to the list between its two locks. Null
        stands for ErrNoPeers. An empty list fails at once; if some host:port is new the
        peer is a least-scored one of the first tier; otherwise it is a least-scored one of
        the list as the others left it. */
    method Get(prev: set<string>, rnd1: nat, rnd2: nat, others: seq<ListOp>, rnd3: nat) returns (p: PeerScore?)
      requires Valid()
      modifies Repr()
      ensures Valid() && fresh(Repr() - old(Repr()))
      ensures old(peersByHostPort) == map[] ==> p == null && peersByHostPort == map[]
      ensures SomeNew(old(peersByHostPort.Keys), prev) ==>
                && p != null && p.hostPort !in prev && peersByHostPort == old(peersByHostPort) && LeastOfList(prev, p)
      ensures old(peersByHostPort) != map[] && !SomeNew(old(peersByHostPort.Keys), prev) ==>
                && (p == null <==> peersByHostPort == map[])
                && (p != null ==> p in peersByHostPort.Values && forall q :: q in peersByHostPort.Values ==>
                  p.score <= q.score)
    {
      hide ScoreOrdered, Keyed, Heap.Valid, Heap.Entries, CanChoose, LeastOfList;
      assert forall hp :: hp in peersByHostPort <==> hp in peersByHostPort.Keys;
      var err;
      p, err := GetNew(prev, rnd1, rnd2);
      if err == ErrNoNewPeers {
        Meanwhile(others);
        p := GetAny(rnd3);
      }
    }
  }

  lemma EmptyTogether(m: map<string, PeerScore>, ps: seq<PeerScore>)
    requires m.Values == set p | p in ps
    ensures m == map[] <==> ps == []
  {
    assert forall hp :: hp in m ==> m[hp] in m.Values;
    assert ps != [] ==> ps[0] in m.Values;
  }

  // The peers, with their current scores and orders.
  ghost predicate Shows(ps: seq<PeerScore>, es: seq<HM.Entry>)
    reads ps
  {
    |ps| == |es| && forall i :: 0 <= i < |ps| ==> ps[i].Entry() == es[i]
  }

  // No repetitions, and none of them in the given set.
  ghost predicate Apart(ps: seq<PeerScore>, others: set<PeerScore>) {
    && (forall i, j :: 0 <= i < j < |ps| ==> ps[i] != ps[j])
    && (forall i :: 0 <= i < |ps| ==> ps[i] !in others)
  }
}
