/** Bags of tasks, and the total weight of a bag. */
module Bags {

  function One(b: bool): (n: nat) {
    if b then 1 else 0
  }

  // The total weight of a bag of tasks.
  function Sum<T(!new)>(ts: seq<T>, w: T -> nat): (n: nat) {
    if ts == [] then 0 else w(ts[0]) + Sum(ts[1..], w)
  }

  // A bag without its i-th task.
  function Without<T>(ts: seq<T>, i: nat): (r: seq<T>)
    requires i < |ts|
  {
    ts[..i] + ts[i + 1..]
  }

  lemma {:induction false} SumConcat<T(!new)>(a: seq<T>, b: seq<T>, w: T -> nat)
    ensures Sum(a + b, w) == Sum(a, w) + Sum(b, w)
  {
    if a == [] {
      assert a + b == b;
    } else {
      assert (a + b)[1..] == a[1..] + b;
      SumConcat(a[1..], b, w);
    }
  }

  lemma SumWithout<T(!new)>(ts: seq<T>, i: nat, w: T -> nat)
    requires i < |ts|
    ensures Sum(Without(ts, i), w) == Sum(ts, w) - w(ts[i])
  {
    SumConcat(ts[..i], ts[i + 1..], w);
    SumConcat(ts[..i], ts[i..], w);
    assert ts == ts[..i] + ts[i..];
    assert ts[i..][1..] == ts[i + 1..];
  }

  lemma SumOne<T(!new)>(a: T, w: T -> nat)
    ensures Sum([a], w) == w(a)
  {
    assert [a][1..] == [];
  }

  lemma SumTwo<T(!new)>(a: T, b: T, w: T -> nat)
    ensures Sum([a, b], w) == w(a) + w(b)
  {
    assert [a, b][1..] == [b];
    SumOne(b, w);
  }

  lemma SumThree<T(!new)>(a: T, b: T, c: T, w: T -> nat)
    ensures Sum([a, b, c], w) == w(a) + w(b) + w(c)
  {
    assert [a, b, c][1..] == [b, c];
    SumTwo(b, c, w);
  }

  lemma SumWork<T(!new)>(work: seq<T>, w: T -> nat)
    requires |work| <= 3
    ensures Sum(work, w) ==
      (if |work| > 0 then w(work[0]) else 0) + (if |work| > 1 then w(work[1]) else 0) +
        (if |work| > 2 then w(work[2]) else 0)
  {
    if |work| == 1 {
      assert work == [work[0]];
      SumOne(work[0], w);
    } else if |work| == 2 {
      assert work == [work[0], work[1]];
      SumTwo(work[0], work[1], w);
    } else if |work| == 3 {
      assert work == [work[0], work[1], work[2]];
      SumThree(work[0], work[1], work[2], w);
    }
  }

  lemma {:induction false} SumAtLeast<T(!new)>(ts: seq<T>, i: nat, w: T -> nat)
    requires i < |ts|
    ensures Sum(ts, w) >= w(ts[i])
  {
    if i == 0 {
    } else {
      SumAtLeast(ts[1..], i - 1, w);
    }
  }

  lemma {:induction false} SumZero<T(!new)>(ts: seq<T>, w: T -> nat)
    requires forall i :: 0 <= i < |ts| ==> w(ts[i]) == 0
    ensures Sum(ts, w) == 0
  {
    if ts == [] {
    } else {
      SumZero(ts[1..], w);
    }
  }

  lemma {:induction false} SumSplit<T(!new)>(ts: seq<T>, w: T -> nat, u: T -> nat, v: T -> nat)
    requires forall t :: w(t) == u(t) + v(t)
    ensures Sum(ts, w) == Sum(ts, u) + Sum(ts, v)
  {
    if ts == [] {
    } else {
      SumSplit(ts[1..], w, u, v);
    }
  }
}
