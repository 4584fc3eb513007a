/** trees.c: frequencies for which no code within the limit on lengths is optimal, so that none
    that gen_bitlen could choose is. */
module TreeLimits {
  import opened Bits
  import opened Sums
  import opened Canonical
  import opened Huffman
  import opened TreeLengths
  import opened TreeOptimal
  import opened TreeState

  /** 1, 1, 2, 4, ... 2^n occurrences. */
  function Steep(n: nat): (r: seq<nat>)
    ensures |r| == n + 2 && r[0] == r[1] == 1 && forall i :: 0 <= i < |r| ==> r[i] > 0
  {
    if n == 0 then [1, 1] else Steep(n - 1) + [Pow2(n)]
  }

  function Deeper(l: seq<nat>): (r: seq<nat>)
    ensures |r| == |l|
  {
    seq(|l|, i requires 0 <= i < |l| => l[i] + 1)
  }

  /** Their depths in the tree: n + 1, n + 1, n, ... 1. */
  function SteepDepths(n: nat): (r: seq<nat>)
    ensures |r| == n + 2 && forall i :: 0 <= i < |r| ==> 0 < r[i] <= n + 1
  {
    if n == 0 then [1, 1] else Deeper(SteepDepths(n - 1)) + [1]
  }

  function Zeros(p: nat): (r: seq<nat>)
    ensures |r| == p
  {
    seq(p, _ => 0)
  }

  // ---- The depths are a code ----

  lemma {:induction false} CountAppend(l: seq<nat>, b: nat, k: nat)
    requires k > 0
    ensures Count(l + [b], k) == Count(l, k) + if b == k then 1 else 0
  {
    assert (l + [b])[..|l|] == l;
  }

  lemma {:induction false} UsedAppend(l: seq<nat>, b: nat, m: nat)
    requires b > 0
    ensures Used(l + [b], m) == Used(l, m) + Share(m, b)
  {
    if m > 0 {
      UsedAppend(l, b, m - 1);
      CountAppend(l, b, m);
    }
  }

  lemma {:induction false} CountDeeper(l: seq<nat>, k: nat)
    requires forall i :: 0 <= i < |l| ==> l[i] > 0
    ensures k > 0 ==> Count(Deeper(l), k + 1) == Count(l, k)
    ensures Count(Deeper(l), 1) == 0
  {
    if l != [] {
      var m := |l| - 1;
      CountDeeper(l[..m], k);
      assert Deeper(l)[..m] == Deeper(l[..m]);
    }
  }

  lemma {:induction false} UsedDeeper(l: seq<nat>, m: nat)
    requires forall i :: 0 <= i < |l| ==> l[i] > 0
    ensures Used(Deeper(l), m + 1) == Used(l, m)
  {
    CountDeeper(l, m);
    if m > 0 {
      UsedDeeper(l, m - 1);
    } else {
      assert Used(Deeper(l), 0) == 0;
    }
  }

  lemma {:induction false} DepthsUsed(n: nat)
    ensures Used(SteepDepths(n), n + 1) == Pow2(n + 1)
  {
    if n == 0 {
      assert [1, 1] == [] + [1] + [1];
      NoneUsedYet();
      UsedAppend([], 1, 1);
      UsedAppend([] + [1], 1, 1);
      assert Pow2(1) == 2 && Share(1, 1) == 1;
    } else {
      assert SteepDepths(n) == Deeper(SteepDepths(n - 1)) + [1];
      assert Share(n + 1, 1) == Pow2(n) && Pow2(n + 1) == 2 * Pow2(n);
      DepthsUsed(n - 1);
      hide SteepDepths, Used, Pow2, Deeper;
      UsedDeeper(SteepDepths(n - 1), n);
      UsedAppend(Deeper(SteepDepths(n - 1)), 1, n + 1);
    }
  }

  lemma NoneUsedYet()
    ensures Used([], 1) == 0
  {
    assert Used([], 0) == 0;
  }

  // ---- What it costs ----

  lemma {:induction false} DeeperCosts(w: seq<nat>, l: seq<nat>)
    requires |w| == |l|
    ensures Weighted(w, Deeper(l)) == Weighted(w, l) + Sum(w)
  {
    if w != [] {
      var m := |w| - 1;
      DeeperCosts(w[..m], l[..m]);
      assert Deeper(l)[..m] == Deeper(l[..m]);
      WeightedLast(w, Deeper(l));
      WeightedLast(w, l);
      assert w[m] * (l[m] + 1) == w[m] * l[m] + w[m];
    }
  }

  lemma {:induction false} SteepSum(n: nat)
    ensures Sum(Steep(n)) == Pow2(n + 1)
  {
    if n == 0 {
      assert Sum([1]) == 1 by {
        assert [1][..0] == [];
      }
      assert [1, 1][..1] == [1];
      assert Pow2(1) == 2;
    } else {
      SteepSum(n - 1);
      var s := Steep(n);
      assert s[..n + 1] == Steep(n - 1);
    }
  }

  lemma {:induction false} DepthsCost(n: nat)
    ensures Weighted(Steep(n), SteepDepths(n)) == Pow2(n + 2) - 2
  {
    if n == 0 {
      assert SteepDepths(0) == Ones(2);
      WeightedOnes(Steep(0));
      SteepSum(0);
      assert Pow2(1) == 2 && Pow2(2) == 4;
    } else {
      assert Pow2(n + 2) == 2 * Pow2(n + 1) == 4 * Pow2(n);
      DepthsCost(n - 1);
      SteepSum(n - 1);
      CostNext(n);
    }
  }

  lemma CostNext(n: nat)
    requires n > 0
    ensures Weighted(Steep(n), SteepDepths(n))
      == Weighted(Steep(n - 1), SteepDepths(n - 1)) + Sum(Steep(n - 1)) + Pow2(n)
  {
    var w, l := Steep(n), SteepDepths(n);
    assert w[..n + 1] == Steep(n - 1) && l[..n + 1] == Deeper(SteepDepths(n - 1));
    assert l[n + 1] == 1 && w[n + 1] == Pow2(n);
    hide Weighted, Steep, SteepDepths, Pow2, Sum;
    WeightedLast(w, l);
    DeeperCosts(Steep(n - 1), SteepDepths(n - 1));
  }

  // ---- What a code within the limit costs ----

  /** 2^k, ... 2^n. */
  ghost function Tail(k: nat, n: nat): multiset<nat>
    requires k <= n + 1
    decreases n + 1 - k
  {
    if k > n then multiset{} else multiset{Pow2(k)} + Tail(k + 1, n)
  }

  lemma {:induction false} TailAtLeast(k: nat, n: nat)
    requires k <= n + 1
    ensures forall x :: x in Tail(k, n) ==> x >= Pow2(k)
    decreases n + 1 - k
  {
    if k <= n {
      TailAtLeast(k + 1, n);
    }
  }

  /** Two weights that are no more than the rest. */
  lemma MergeFirst(R: multiset<nat>, a: nat, b: nat)
    requires a <= b && forall x :: x in R ==> b <= x
    ensures MergeCost(multiset{a} + R + multiset{b}) == a + b + MergeCost(R + multiset{a + b})
  {
    hide MergeCost;
    var W := multiset{a} + R + multiset{b};
    assert W - multiset{a} == R + multiset{b};
    MergeTwo(W, a, b);
    assert Merged(W, a, b) == R + multiset{a + b};
  }

  lemma {:induction false} Climb(k: nat, n: nat)
    requires 1 <= k <= n + 1
    ensures MergeCost(Tail(k, n) + multiset{Pow2(k) + 2}) == Pow2(n + 2) - Pow2(k + 1) + 2 * (n + 1 - k)
    decreases n + 1 - k
  {
    hide MergeCost, Tail;
    if k == n + 1 {
      TailEnds(n);
      OneFree(multiset{Pow2(k) + 2});
    } else {
      Climb(k + 1, n);
      TailStarts(k, n);
      TailAtLeast(k + 1, n);
      Doubles(k);
      hide Pow2;
      ClimbOne(Tail(k, n), Tail(k + 1, n), Pow2(k));
    }
  }

  lemma Doubles(k: nat)
    requires k >= 1
    ensures Pow2(k + 1) == 2 * Pow2(k) && Pow2(k + 2) == 2 * Pow2(k + 1) && Pow2(k) >= 2
  {
    Pow2Mono(1, k);
    assert Pow2(1) == 2;
  }

  lemma TailEnds(n: nat)
    ensures Tail(n + 1, n) + multiset{Pow2(n + 1) + 2} == multiset{Pow2(n + 1) + 2}
  {
  }

  lemma TailStarts(k: nat, n: nat)
    requires k <= n
    ensures Tail(k, n) == multiset{Pow2(k)} + Tail(k + 1, n)
  {
  }

  lemma ClimbOne(T: multiset<nat>, R: multiset<nat>, a: nat)
    requires T == multiset{a} + R && a >= 2 && forall x :: x in R ==> x >= 2 * a
    ensures MergeCost(T + multiset{a + 2}) == 2 * a + 2 + MergeCost(R + multiset{2 * a + 2})
  {
    hide MergeCost;
    MergeFirst(R, a, a + 2);
  }

  lemma RaisedCost(n: nat)
    requires n >= 1
    ensures MergeCost(multiset{2} + Tail(1, n) + multiset{2}) == Pow2(n + 2) + 2 * n
  {
    hide MergeCost, Tail;
    assert Pow2(1) == 2 && Pow2(2) == 4;
    TailAtLeast(1, n);
    MergeFirst(Tail(1, n), 2, 2);
    Climb(1, n);
  }

  lemma {:induction false} TailSnoc(k: nat, n: nat)
    requires 1 <= k <= n
    ensures Tail(k, n) == Tail(k, n - 1) + multiset{Pow2(n)}
    decreases n - k
  {
    if k < n {
      TailSnoc(k + 1, n);
    }
  }

  lemma {:induction false} SteepBag(n: nat)
    ensures multiset(Steep(n)[2..]) == Tail(1, n)
  {
    if n > 0 {
      SteepBag(n - 1);
      TailSnoc(1, n);
      assert Steep(n)[2..] == Steep(n - 1)[2..] + [Pow2(n)];
      hide Steep, Tail, Pow2;
    }
  }

  function Raised(n: nat): (r: seq<nat>)
    ensures |r| == n + 2
  {
    Steep(n)[0 := 2][1 := 2]
  }

  lemma RaisedBag(n: nat)
    ensures multiset(Raised(n)) == multiset{2} + Tail(1, n) + multiset{2}
  {
    SteepBag(n);
    var rest := Steep(n)[2..];
    assert Raised(n) == [2, 2] + rest;
    hide Steep, Tail, Raised;
    assert multiset([2, 2] + rest) == multiset{2} + multiset(rest) + multiset{2};
  }

  function Indices(k: nat): (r: seq<nat>)
    ensures |r| == k
  {
    seq(k, i requires 0 <= i => i)
  }

  lemma InIndices(k: nat)
    ensures forall s :: s in Indices(k) <==> 0 <= s < k
  {
    forall s | 0 <= s < k
      ensures s in Indices(k)
    {
      assert Indices(k)[s] == s;
    }
  }

  /** Any code of lengths up to n, for the steep frequencies and p unused symbols. */
  lemma LimitedCosts(n: nat, p: nat, lens: seq<nat>)
    requires n >= 1 && Rival(Steep(n) + Zeros(p), lens, n)
    ensures Weighted(Steep(n) + Zeros(p), lens) >= Pow2(n + 2)
  {
    hide Steep, Used, MergeCost, Weighted, Pow2, Rival, Raised, Bag, Indices;
    var f := Steep(n) + Zeros(p);
    var f2 := f[0 := 2][1 := 2];
    RaisedWeighs(f, lens, n);
    RaisedRival(n, p, lens, f2);
    RivalCosts(f2, lens, n, Indices(n + 2));
    RaisedBag(n);
    RaisedCost(n);
  }

  lemma RaisedWeighs(f: seq<nat>, lens: seq<nat>, n: nat)
    requires Rival(f, lens, n) && |f| >= 2 && f[0] == f[1] == 1
    ensures |lens| == |f| && Weighted(f[0 := 2][1 := 2], lens) <= Weighted(f, lens) + 2 * n
  {
    hide Used, Weighted;
    WeightUpdate(f, lens, 0, 2);
    WeightUpdate(f[0 := 2], lens, 1, 2);
  }

  lemma RaisedRival(n: nat, p: nat, lens: seq<nat>, f2: seq<nat>)
    requires Rival(Steep(n) + Zeros(p), lens, n) && f2 == (Steep(n) + Zeros(p))[0 := 2][1 := 2]
    ensures Rival(f2, lens, n) && forall s :: 0 <= s < |f2| ==> (s in Indices(n + 2) <==> f2[s] > 0)
    ensures Ranged(Indices(n + 2), |f2|) && Distinct(Indices(n + 2)) && Bag(f2, Indices(n + 2)) == multiset(Raised(n))
  {
    hide Steep, Used, Pow2;
    InIndices(n + 2);
    assert Pick(f2, Indices(n + 2)) == Raised(n);
  }

  /** For every limit there are frequencies for which no code within it is optimal. */
  lemma LimitedNotOptimal(n: nat, p: nat, lens: seq<nat>)
    requires n >= 1 && Rival(Steep(n) + Zeros(p), lens, n)
    ensures !Optimal(Steep(n) + Zeros(p), lens)
  {
    hide Steep, SteepDepths, Used, Weighted, Pow2;
    LimitedCosts(n, p, lens);
    var f, l := Steep(n) + Zeros(p), SteepDepths(n) + Zeros(p);
    DepthsCost(n);
    WeightedCat(Steep(n), SteepDepths(n), Zeros(p), Zeros(p));
    WeightedNone(Zeros(p), Zeros(p));
    DepthsUsed(n);
    assert l[..n + 2] == SteepDepths(n);
    CutUsed(l, n + 2, n + 1);
    assert Rival(f, l, n + 1);
  }
}
