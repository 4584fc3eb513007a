/** Sums over sequences, changed one entry at a time. */
module Sums {

  function Sum(s: seq<int>): int {
    if s == [] then 0 else Sum(s[..|s| - 1]) + s[|s| - 1]
  }

  lemma {:induction false} SumUpdate(s: seq<int>, i: nat, v: int)
    requires i < |s|
    ensures Sum(s[i := v]) == Sum(s) - s[i] + v
  {
    var m := |s| - 1;
    if i == m {
      assert s[i := v][..m] == s[..m];
    } else {
      assert s[i := v][..m] == s[..m][i := v];
      SumUpdate(s[..m], i, v);
    }
  }

  lemma {:induction false} SumZero(s: seq<int>)
    requires forall i :: 0 <= i < |s| ==> s[i] == 0
    ensures Sum(s) == 0
  {
    if s != [] {
      SumZero(s[..|s| - 1]);
    }
  }

  lemma {:induction false} SumNotBelow(s: seq<int>)
    requires forall i :: 0 <= i < |s| ==> s[i] >= 0
    ensures Sum(s) >= 0
  {
    if s != [] {
      SumNotBelow(s[..|s| - 1]);
    }
  }

  // ---- Weighted sums ----

  function Products(w: seq<nat>, l: seq<nat>): (r: seq<int>)
    requires |w| == |l|
    ensures |r| == |w|
  {
    seq(|w|, i requires 0 <= i < |w| => w[i] * l[i])
  }

  /** Each weight times its length. */
  function Weighted(w: seq<nat>, l: seq<nat>): int
    requires |w| == |l|
  {
    Sum(Products(w, l))
  }

  lemma WeightedUpdate(w: seq<nat>, l: seq<nat>, i: nat, b: nat)
    requires |w| == |l| && i < |l|
    ensures Weighted(w, l[i := b]) == Weighted(w, l) - w[i] * l[i] + w[i] * b
  {
    assert Products(w, l[i := b]) == Products(w, l)[i := w[i] * b];
    SumUpdate(Products(w, l), i, w[i] * b);
  }

  lemma WeightUpdate(w: seq<nat>, l: seq<nat>, i: nat, v: nat)
    requires |w| == |l| && i < |w|
    ensures Weighted(w[i := v], l) == Weighted(w, l) - w[i] * l[i] + v * l[i]
  {
    assert Products(w[i := v], l) == Products(w, l)[i := v * l[i]];
    SumUpdate(Products(w, l), i, v * l[i]);
  }

  lemma WeightedNotBelow(w: seq<nat>, l: seq<nat>)
    requires |w| == |l|
    ensures Weighted(w, l) >= 0
  {
    SumNotBelow(Products(w, l));
  }

  /** Lengths matter only where there is a weight. */
  lemma WeightedSame(w: seq<nat>, l: seq<nat>, l2: seq<nat>)
    requires |w| == |l| == |l2| && forall i :: 0 <= i < |w| ==> w[i] == 0 || l[i] == l2[i]
    ensures Weighted(w, l) == Weighted(w, l2)
  {
    assert Products(w, l) == Products(w, l2);
  }

  lemma WeightedNone(w: seq<nat>, l: seq<nat>)
    requires |w| == |l| && forall i :: 0 <= i < |w| ==> w[i] == 0 || l[i] == 0
    ensures Weighted(w, l) == 0
  {
    SumZero(Products(w, l));
  }

  lemma WeightedLast(w: seq<nat>, l: seq<nat>)
    requires |w| == |l| > 0
    ensures var m := |w| - 1; Weighted(w, l) == Weighted(w[..m], l[..m]) + w[m] * l[m]
  {
    var m := |w| - 1;
    assert Products(w, l)[..m] == Products(w[..m], l[..m]);
  }

  function Ones(n: nat): (r: seq<nat>)
    ensures |r| == n
  {
    seq(n, _ => 1)
  }

  lemma WeightedOnes(w: seq<nat>)
    ensures Weighted(w, Ones(|w|)) == Sum(w)
  {
    assert Products(w, Ones(|w|)) == w;
  }

  lemma {:induction false} WeightedCat(w: seq<nat>, l: seq<nat>, w2: seq<nat>, l2: seq<nat>)
    requires |w| == |l| && |w2| == |l2|
    ensures Weighted(w + w2, l + l2) == Weighted(w, l) + Weighted(w2, l2)
  {
    if w2 == [] {
      assert w + w2 == w && l + l2 == l;
    } else {
      var m := |w2| - 1;
      WeightedCat(w, l, w2[..m], l2[..m]);
      WeightedLast(w2, l2);
      WeightedLast(w + w2, l + l2);
      assert (w + w2)[..|w| + m] == w + w2[..m] && (l + l2)[..|l| + m] == l + l2[..m];
    }
  }

  /** Longer lengths weigh no less. */
  lemma {:induction false} WeightedMono(w: seq<nat>, l: seq<nat>, l2: seq<nat>)
    requires |w| == |l| == |l2| && forall i :: 0 <= i < |w| ==> w[i] == 0 || l[i] <= l2[i]
    ensures Weighted(w, l) <= Weighted(w, l2)
  {
    if w != [] {
      var m := |w| - 1;
      WeightedMono(w[..m], l[..m], l2[..m]);
      WeightedLast(w, l);
      WeightedLast(w, l2);
      assert w[m] * l[m] <= w[m] * l2[m];
    }
  }
}
