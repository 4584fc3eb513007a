/** Huffman's bound: no prefix code for given weights is shorter than merging the two least
    weights, over and over, makes it. A code is its lengths; that they leave room for a prefix
    code is the Kraft inequality. */
module Huffman {
  import opened Bits
  import opened Sums

  // ---- Merging ----

  ghost predicate IsLeast(W: multiset<nat>, a: nat) {
    a in W && forall x :: x in W ==> a <= x
  }

  lemma {:induction false} SomeLeast(W: multiset<nat>) returns (a: nat)
    requires |W| > 0
    ensures IsLeast(W, a)
    decreases |W|
  {
    var x :| x in W;
    var R := W - multiset{x};
    assert W == R + multiset{x};
    a := x;
    if |R| > 0 {
      var b := SomeLeast(R);
      a := if x <= b then x else b;
    }
  }

  ghost function Least(W: multiset<nat>): (a: nat)
    requires |W| > 0
    ensures IsLeast(W, a)
  {
    assert exists a :: IsLeast(W, a) by {
      var a := SomeLeast(W);
    }
    var a :| IsLeast(W, a);
    a
  }

  /** The weights after a and b are merged. */
  ghost function Merged(W: multiset<nat>, a: nat, b: nat): multiset<nat> {
    W - multiset{a} - multiset{b} + multiset{a + b}
  }

  /** What all merges add up to. */
  ghost function MergeCost(W: multiset<nat>): nat
    decreases |W|
  {
    if |W| <= 1 then 0
    else
      var a := Least(W);
      var b := Least(W - multiset{a});
      a + b + MergeCost(Merged(W, a, b))
  }

  /** Whichever two that are least are merged first. */
  lemma MergeTwo(W: multiset<nat>, a: nat, b: nat)
    requires IsLeast(W, a) && IsLeast(W - multiset{a}, b)
    ensures MergeCost(W) == a + b + MergeCost(Merged(W, a, b))
  {
    assert |W - multiset{a}| == |W| - 1;
    assert Least(W) == a;
    assert Least(W - multiset{a}) == b;
  }

  // ---- Codes ----

  ghost predicate Within(l: seq<nat>, m: nat) {
    forall i :: 0 <= i < |l| ==> l[i] <= m
  }

  function Shares(l: seq<nat>, m: nat): (r: seq<int>)
    requires Within(l, m)
    ensures |r| == |l|
  {
    seq(|l|, i requires 0 <= i < |l| => Pow2(m - l[i]))
  }

  /** The Kraft inequality, in units of 2^-m. */
  ghost predicate Prefix(l: seq<nat>, m: nat) {
    Within(l, m) && Sum(Shares(l, m)) <= Pow2(m)
  }

  lemma SharesUpdate(l: seq<nat>, m: nat, i: nat, b: nat)
    requires Within(l, m) && i < |l| && b <= m
    ensures Within(l[i := b], m) && Sum(Shares(l[i := b], m)) == Sum(Shares(l, m)) - Pow2(m - l[i]) + Pow2(m - b)
  {
    assert Shares(l[i := b], m) == Shares(l, m)[i := Pow2(m - b)];
    SumUpdate(Shares(l, m), i, Pow2(m - b));
  }

  /** In half units when no length is m. */
  lemma {:induction false} SharesHalve(l: seq<nat>, m: nat)
    requires m > 0 && Within(l, m - 1)
    ensures Within(l, m) && Sum(Shares(l, m)) == 2 * Sum(Shares(l, m - 1))
  {
    if l != [] {
      var k := |l| - 1;
      SharesHalve(l[..k], m);
      assert Shares(l, m)[..k] == Shares(l[..k], m);
      assert Shares(l, m - 1)[..k] == Shares(l[..k], m - 1);
      assert Pow2(m - l[k]) == 2 * Pow2(m - 1 - l[k]);
    }
  }

  /** Two lengths change places, the longer one to the lesser weight. */
  lemma Swap(w: seq<nat>, l: seq<nat>, m: nat, i: nat, k: nat) returns (l2: seq<nat>)
    requires |w| == |l| && Prefix(l, m) && i < |l| && k < |l| && w[i] <= w[k] && l[i] <= l[k]
    ensures l2 == l[i := l[k]][k := l[i]] && Prefix(l2, m) && Weighted(w, l2) <= Weighted(w, l)
  {
    l2 := l[i := l[k]][k := l[i]];
    WeightedUpdate(w, l, i, l[k]);
    SharesUpdate(l, m, i, l[k]);
    WeightedUpdate(w, l[i := l[k]], k, l[i]);
    SharesUpdate(l[i := l[k]], m, k, l[i]);
    if i != k {
      SwapGain(w[i], w[k], l[i], l[k]);
    }
  }

  lemma SwapGain(a: nat, b: nat, x: nat, y: nat)
    requires a <= b && x <= y
    ensures a * y + b * x <= a * x + b * y
  {
    assert (b - a) * (y - x) >= 0;
  }

  /** The two least weights get the longest codes. */
  lemma Lowest(w: seq<nat>, l: seq<nat>, m: nat, i: nat, j: nat, k1: nat, k2: nat) returns (l2: seq<nat>)
    requires |w| == |l| && Prefix(l, m) && i < |l| && j < |l| && i != j
    requires forall k :: 0 <= k < |w| ==> w[i] <= w[k] && (k != i ==> w[j] <= w[k])
    requires k1 < k2 < |l| && l[k1] == l[k2] == m
    ensures |l2| == |l| && Prefix(l2, m) && l2[i] == l2[j] == m && Weighted(w, l2) <= Weighted(w, l)
  {
    hide Weighted, Shares, Sum, Pow2;
    l2 := Swap(w, l, m, i, k1);
    var k := if k2 != i then k2 else k1;
    if l2[k] != m {
      k := k1;
    }
    l2 := Swap(w, l2, m, j, k);
  }

  function Without<T>(s: seq<T>, j: nat): (r: seq<T>)
    requires j < |s|
    ensures |r| == |s| - 1
  {
    s[..j] + s[j + 1..]
  }

  lemma WithoutAt(s: seq<nat>, j: nat, k: nat)
    requires j < |s| && k < |s| && k != j
    ensures var k2 := if k < j then k else k - 1; k2 < |Without(s, j)| && Without(s, j)[k2] == s[k]
  {
  }

  lemma {:induction false} SumWithout(s: seq<int>, j: nat)
    requires j < |s|
    ensures Sum(Without(s, j)) == Sum(s) - s[j]
  {
    var m := |s| - 1;
    if j == m {
      assert Without(s, j) == s[..m];
    } else {
      assert Without(s, j)[..m - 1] == Without(s[..m], j);
      SumWithout(s[..m], j);
    }
  }

  lemma BagWithout(s: seq<nat>, j: nat)
    requires j < |s|
    ensures multiset(Without(s, j)) == multiset(s) - multiset{s[j]}
  {
    assert s == s[..j] + [s[j]] + s[j + 1..];
  }

  /** Two codes of the longest length become one that is shorter by one. */
  lemma Join(w: seq<nat>, l: seq<nat>, m: nat, i: nat, j: nat) returns (w2: seq<nat>, l2: seq<nat>)
    requires |w| == |l| && Prefix(l, m) && m > 0 && i < |l| && j < |l| && i != j && l[i] == l[j] == m
    ensures |w2| == |l2| == |w| - 1 && Prefix(l2, m) && Weighted(w, l) == Weighted(w2, l2) + w[i] + w[j]
    ensures multiset(w2) == Merged(multiset(w), w[i], w[j])
  {
    hide Weighted, Shares, Sum, Pow2, Without, Merged;
    var wi, li := w[i := w[i] + w[j]], l[i := m - 1];
    w2, l2 := Without(wi, j), Without(li, j);
    JoinCost(w, l, m, i, j, wi, li);
    JoinShares(l, m, i, j, li);
    JoinBag(w, i, j, wi);
  }

  lemma JoinBag(w: seq<nat>, i: nat, j: nat, wi: seq<nat>)
    requires i < |w| && j < |w| && i != j && wi == w[i := w[i] + w[j]]
    ensures multiset(Without(wi, j)) == Merged(multiset(w), w[i], w[j])
  {
    BagWithout(wi, j);
    OtherLeft(w, i, j);
    BagUpdate(w, i, w[i] + w[j]);
    hide Without, Merged;
    BagAfter(multiset(w), w[i], w[j]);
  }

  lemma BagUpdate(w: seq<nat>, i: nat, v: nat)
    requires i < |w|
    ensures multiset(w[i := v]) == multiset(w) - multiset{w[i]} + multiset{v}
  {
  }

  lemma OtherLeft(w: seq<nat>, i: nat, j: nat)
    requires i < |w| && j < |w| && i != j
    ensures w[j] in multiset(w) - multiset{w[i]}
  {
    BagWithout(w, i);
    WithoutAt(w, i, j);
  }

  lemma BagAfter(W: multiset<nat>, a: nat, b: nat)
    requires b in W - multiset{a}
    ensures W - multiset{a} + multiset{a + b} - multiset{b} == Merged(W, a, b)
  {
  }

  lemma JoinCost(w: seq<nat>, l: seq<nat>, m: nat, i: nat, j: nat, wi: seq<nat>, li: seq<nat>)
    requires |w| == |l| && m > 0 && i < |l| && j < |l| && i != j && l[i] == l[j] == m
    requires wi == w[i := w[i] + w[j]] && li == l[i := m - 1]
    ensures Weighted(w, l) == Weighted(Without(wi, j), Without(li, j)) + w[i] + w[j]
  {
    var p, b: int := Products(w, l), (w[i] + w[j]) * (m - 1);
    assert p[i] == w[i] * m && p[j] == w[j] * m;
    assert Products(wi, li) == p[i := b];
    ProductsWithout(wi, li, j);
    hide Products, Without, Sum;
    SumUpdate(p, i, b);
    SumWithout(p[i := b], j);
    MergedProduct(w[i], w[j], m);
  }

  lemma MergedProduct(a: nat, b: nat, m: nat)
    ensures (a + b) * (m - 1) + a + b == a * m + b * m
  {
  }

  lemma ProductsWithout(w: seq<nat>, l: seq<nat>, j: nat)
    requires |w| == |l| && j < |l|
    ensures Products(Without(w, j), Without(l, j)) == Without(Products(w, l), j)
  {
  }

  lemma SharesWithout(l: seq<nat>, m: nat, j: nat)
    requires Within(l, m) && j < |l|
    ensures Within(Without(l, j), m) && Shares(Without(l, j), m) == Without(Shares(l, m), j)
  {
    hide Pow2;
  }

  lemma JoinShares(l: seq<nat>, m: nat, i: nat, j: nat, li: seq<nat>)
    requires Within(l, m) && m > 0 && i < |l| && j < |l| && i != j && l[i] == l[j] == m
    requires li == l[i := m - 1]
    ensures Within(Without(li, j), m) && Sum(Shares(Without(li, j), m)) == Sum(Shares(l, m))
  {
    assert Pow2(0) == 1 && Pow2(1) == 2;
    SharesUpdate(l, m, i, m - 1);
    SharesWithout(li, m, j);
    var p := Shares(li, m);
    assert p[j] == 1;
    hide Shares, Without, Sum, Pow2;
    SumWithout(p, j);
  }

  /** Nothing has length m, or one code only, which can then be shorter. */
  lemma Shorten(w: seq<nat>, l: seq<nat>, m: nat, k: nat) returns (l2: seq<nat>)
    requires |w| == |l| && Prefix(l, m) && m > 0 && k < |l| && forall i :: 0 <= i < |l| && i != k ==> l[i] < m
    ensures |l2| == |l| && Prefix(l2, m - 1) && Weighted(w, l2) <= Weighted(w, l)
  {
    if l[k] < m {
      l2 := l;
    } else {
      l2 := l[k := m - 1];
      WeightedUpdate(w, l, k, m - 1);
      SharesUpdate(l, m, k, m - 1);
      assert Pow2(0) == 1 && Pow2(1) == 2;
    }
    SharesHalve(l2, m);
  }

  lemma ManyAtZero(l: seq<nat>)
    requires Prefix(l, 0)
    ensures |l| <= 1
  {
    if |l| > 1 {
      assert Pow2(0) == 1;
      var s := Shares(l, 0);
      var k := |s| - 2;
      assert s[k] == s[k + 1] == 1;
      assert s[..k + 1][..k] == s[..k];
      assert Sum(s[..k + 1]) == Sum(s[..k]) + s[k] && Sum(s) == Sum(s[..k + 1]) + s[k + 1];
      SumNotBelow(s[..k]);
    }
  }

  lemma LeastAt(w: seq<nat>) returns (i: nat)
    requires w != []
    ensures i < |w| && IsLeast(multiset(w), w[i]) && forall k :: 0 <= k < |w| ==> w[i] <= w[k]
  {
    assert |multiset(w)| == |w|;
    var a := SomeLeast(multiset(w));
    i :| 0 <= i < |w| && w[i] == a;
    forall k | 0 <= k < |w|
      ensures w[i] <= w[k]
    {
      assert w[k] in multiset(w);
    }
  }

  /** Where the two least weights stand. */
  lemma LeastOf(w: seq<nat>) returns (i: nat, j: nat)
    requires |w| >= 2
    ensures i < |w| && j < |w| && i != j
    ensures forall k :: 0 <= k < |w| ==> w[i] <= w[k] && (k != i ==> w[j] <= w[k])
    ensures IsLeast(multiset(w), w[i]) && IsLeast(multiset(w) - multiset{w[i]}, w[j])
  {
    hide IsLeast;
    i := LeastAt(w);
    var r := Without(w, i);
    BagWithout(w, i);
    var j0 := LeastAt(r);
    hide Without;
    j := if j0 < i then j0 else j0 + 1;
    WithoutAt(w, i, j);
    forall k | 0 <= k < |w| && k != i
      ensures w[j] <= w[k]
    {
      WithoutAt(w, i, k);
    }
  }

  /** Huffman's bound. */
  lemma {:induction false} LowerBound(w: seq<nat>, l: seq<nat>, m: nat)
    requires |w| == |l| > 0 && Prefix(l, m)
    ensures Weighted(w, l) >= MergeCost(multiset(w))
    decreases |w|, m
  {
    hide Prefix, Weighted, MergeCost;
    if |w| == 1 {
      WeightedNotBelow(w, l);
      OneFree(multiset(w));
    } else if m == 0 {
      ManyAtZero(l);
    } else if k1, k2 :| 0 <= k1 < k2 < |l| && l[k1] == l[k2] == m {
      var i, j := LeastOf(w);
      var l1 := Lowest(w, l, m, i, j, k1, k2);
      var w2, l2 := Join(w, l1, m, i, j);
      LowerBound(w2, l2, m);
      MergeTwo(multiset(w), w[i], w[j]);
    } else {
      var k := AtMostOne(l, m);
      var l2 := Shorten(w, l, m, k);
      LowerBound(w, l2, m - 1);
    }
  }

  lemma OneFree(W: multiset<nat>)
    requires |W| <= 1
    ensures MergeCost(W) == 0
  {
  }

  lemma AtMostOne(l: seq<nat>, m: nat) returns (k: nat)
    requires |l| > 0 && Prefix(l, m) && !exists k1, k2 :: 0 <= k1 < k2 < |l| && l[k1] == l[k2] == m
    ensures k < |l| && forall i :: 0 <= i < |l| && i != k ==> l[i] < m
  {
    if i :| 0 <= i < |l| && l[i] == m {
      k := i;
    } else {
      k := 0;
    }
  }
}
