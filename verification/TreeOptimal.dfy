/** trees.c: the tree that build_tree makes has the least total code length. */
module TreeOptimal {
  import opened Bits
  import opened Sums
  import opened Canonical
  import opened Huffman
  import opened TreeHeap
  import opened TreeMerge
  import opened TreePlaces
  import opened TreeLengths
  import opened TreeDepths

  // ---- The nodes that were live before each merge ----

  /** The nodes below b. */
  function Below(nodes: seq<nat>, b: nat): (r: seq<nat>)
    ensures forall i :: 0 <= i < |r| ==> r[i] < b && r[i] in nodes
  {
    if nodes == [] then [] else
      var x, r := nodes[|nodes| - 1], Below(nodes[..|nodes| - 1], b);
      if x < b then r + [x] else r
  }

  ghost predicate Distinct(s: seq<nat>) {
    forall i, j :: 0 <= i < j < |s| ==> s[i] != s[j]
  }

  lemma {:induction false} BelowSame(nodes: seq<nat>, b: nat)
    requires b !in nodes
    ensures Below(nodes, b + 1) == Below(nodes, b)
  {
    if nodes != [] {
      BelowSame(nodes[..|nodes| - 1], b);
    }
  }

  /** One node more. */
  lemma {:induction false} BelowNext(nodes: seq<nat>, b: nat) returns (p: seq<nat>, q: seq<nat>)
    requires Distinct(nodes) && b in nodes
    ensures Below(nodes, b) == p + q && Below(nodes, b + 1) == p + [b] + q
  {
    var m := |nodes| - 1;
    var x, rest := nodes[m], nodes[..m];
    if x == b {
      assert b !in rest;
      BelowSame(rest, b);
      p, q := Below(rest, b), [];
    } else {
      p, q := BelowNext(rest, b);
      if x < b {
        q := q + [x];
      }
    }
  }

  lemma {:induction false} BelowHas(nodes: seq<nat>, b: nat, x: nat)
    requires x in nodes && x < b
    ensures x in Below(nodes, b)
  {
    var m := |nodes| - 1;
    if nodes[m] != x {
      BelowHas(nodes[..m], b, x);
    }
  }

  lemma {:induction false} BelowApart(nodes: seq<nat>, b: nat)
    requires Distinct(nodes)
    ensures Distinct(Below(nodes, b))
  {
    if nodes != [] {
      BelowApart(nodes[..|nodes| - 1], b);
    }
  }

  ghost predicate Ranged(nodes: seq<nat>, n: nat) {
    forall i :: 0 <= i < |nodes| ==> nodes[i] < n
  }

  function Pick(g: seq<nat>, nodes: seq<nat>): (r: seq<nat>)
    requires Ranged(nodes, |g|)
    ensures |r| == |nodes|
  {
    seq(|nodes|, i requires 0 <= i < |nodes| => g[nodes[i]])
  }

  /** The nodes without a father before merge k. */
  function Live(heap: seq<nat>, elems: nat, hmax: nat, k: nat): seq<nat>
    requires hmax + 2 * k <= HEAP_SIZE == |heap|
  {
    Below(heap[hmax..HEAP_SIZE - 2 * k], elems + k)
  }

  /** Merge k: the last two live nodes go, their father comes. */
  lemma LiveStep(leaves: seq<nat>, heap: seq<nat>, d0: seq<nat>, freq: seq<nat>, elems: nat, hmax: nat, k: nat)
      returns (p: seq<nat>, q: seq<nat>)
    requires Weighed(leaves, heap, d0, freq, elems, hmax) && k + 1 < |leaves|
    ensures hmax + 2 * k + 2 < HEAP_SIZE
    ensures Live(heap, elems, hmax, k) == p + q + [heap[HEAP_SIZE - 2 - 2 * k], heap[HEAP_SIZE - 1 - 2 * k]]
    ensures Live(heap, elems, hmax, k + 1) == p + [elems + k] + q
    ensures forall x :: x in p + q ==> x in heap[hmax..HEAP_SIZE - 2 - 2 * k]
  {
    hide Below, ByFrequency, Fathers;
    var e := HEAP_SIZE - 2 - 2 * k;
    var front := heap[hmax..e];
    FrontApart(leaves, heap, d0, elems, hmax, e);
    FatherFirst(leaves, heap, d0, elems, hmax, e);
    assert FatherAt(elems, e) == elems + k;
    p, q := BelowNext(front, elems + k);
    BelowTwo(heap, hmax, e, elems + k);
  }

  lemma FrontApart(leaves: seq<nat>, heap: seq<nat>, d0: seq<nat>, elems: nat, hmax: nat, e: nat)
    requires Leaves(leaves, elems) && Rooted(leaves, heap, d0, elems, hmax) && hmax <= e <= HEAP_SIZE
    ensures Distinct(heap[hmax..e])
  {
    forall i, j | 0 <= i < j < e - hmax
      ensures heap[hmax..e][i] != heap[hmax..e][j]
    {
      OncePlaced(leaves, heap, d0, elems, hmax, hmax + i, hmax + j);
    }
  }

  lemma BelowTwo(heap: seq<nat>, hmax: nat, e: nat, b: nat)
    requires hmax <= e && e + 2 <= |heap| && heap[e] < b && heap[e + 1] < b
    ensures Below(heap[hmax..e + 2], b) == Below(heap[hmax..e], b) + [heap[e], heap[e + 1]]
  {
    var s := heap[hmax..e + 2];
    assert s[..|s| - 1] == heap[hmax..e + 1] && heap[hmax..e + 1][..e - hmax] == heap[hmax..e];
    assert Below(heap[hmax..e + 1], b) == Below(heap[hmax..e], b) + [heap[e]];
  }

  lemma BelowOne(x: nat, b: nat)
    requires x < b
    ensures Below([x], b) == [x]
  {
    assert [x][..0] == [] && Below([], b) == [];
  }

  lemma LiveEnd(leaves: seq<nat>, heap: seq<nat>, d0: seq<nat>, elems: nat, hmax: nat)
    requires Rooted(leaves, heap, d0, elems, hmax)
    ensures Live(heap, elems, hmax, |leaves| - 1) == [heap[hmax]]
  {
    hide Live;
    LiveLast(heap, elems, hmax, |leaves| - 1);
  }

  lemma LiveLast(heap: seq<nat>, elems: nat, hmax: nat, k: nat)
    requires hmax + 2 * k + 1 == HEAP_SIZE == |heap| && heap[hmax] < elems + k
    ensures Live(heap, elems, hmax, k) == [heap[hmax]]
  {
    assert heap[hmax..HEAP_SIZE - 2 * k] == [heap[hmax]];
    BelowOne(heap[hmax], elems + k);
  }

  lemma LiveRanged(heap: seq<nat>, freq: seq<nat>, elems: nat, hmax: nat, k: nat)
    requires hmax + 2 * k <= HEAP_SIZE == |heap| && forall h :: hmax <= h < |heap| ==> heap[h] < |freq|
    ensures Ranged(Live(heap, elems, hmax, k), |freq|)
  {
    var live := Live(heap, elems, hmax, k);
    forall i | 0 <= i < |live|
      ensures live[i] < |freq|
    {
      assert live[i] in heap[hmax..HEAP_SIZE - 2 * k];
    }
  }

  // ---- Sums over the live nodes ----

  function OverNodes(f: seq<nat>, v: seq<nat>, nodes: seq<nat>): int
    requires |f| == |v| && Ranged(nodes, |f|)
  {
    Weighted(Pick(f, nodes), Pick(v, nodes))
  }

  lemma OverCat(f: seq<nat>, v: seq<nat>, a: seq<nat>, b: seq<nat>)
    requires |f| == |v| && Ranged(a, |f|) && Ranged(b, |f|)
    ensures Ranged(a + b, |f|) && OverNodes(f, v, a + b) == OverNodes(f, v, a) + OverNodes(f, v, b)
  {
    assert Pick(f, a + b) == Pick(f, a) + Pick(f, b) && Pick(v, a + b) == Pick(v, a) + Pick(v, b);
    WeightedCat(Pick(f, a), Pick(v, a), Pick(f, b), Pick(v, b));
  }

  lemma OverOne(f: seq<nat>, v: seq<nat>, x: nat)
    requires |f| == |v| && x < |f|
    ensures OverNodes(f, v, [x]) == f[x] * v[x]
  {
    WeightedLast(Pick(f, [x]), Pick(v, [x]));
    WeightedNone(Pick(f, [x])[..0], Pick(v, [x])[..0]);
  }

  /** A pair of live nodes is replaced by one. */
  lemma OverMerge(f: seq<nat>, v: seq<nat>, p: seq<nat>, q: seq<nat>, m: nat, n: nat, e: nat)
    requires |f| == |v| && Ranged(p, |f|) && Ranged(q, |f|) && m < |f| && n < |f| && e < |f|
    ensures Ranged(p + q + [m, n], |f|) && Ranged(p + [e] + q, |f|)
    ensures OverNodes(f, v, p + q + [m, n]) + f[e] * v[e] == OverNodes(f, v, p + [e] + q) + f[m] * v[m] + f[n] * v[n]
  {
    hide OverNodes;
    OverCat(f, v, p, q);
    OverCat(f, v, p + q, [m]);
    OverCat(f, v, p + q + [m], [n]);
    assert p + q + [m] + [n] == p + q + [m, n];
    OverCat(f, v, p, [e]);
    OverCat(f, v, p + [e], q);
    OverOne(f, v, m);
    OverOne(f, v, n);
    OverOne(f, v, e);
  }

  // ---- The tree costs what merging costs ----

  ghost function Bag(f: seq<nat>, nodes: seq<nat>): multiset<nat>
    requires Ranged(nodes, |f|)
  {
    multiset(Pick(f, nodes))
  }

  lemma BagCat(f: seq<nat>, a: seq<nat>, b: seq<nat>)
    requires Ranged(a, |f|) && Ranged(b, |f|)
    ensures Ranged(a + b, |f|) && Bag(f, a + b) == Bag(f, a) + Bag(f, b)
  {
    assert Pick(f, a + b) == Pick(f, a) + Pick(f, b);
  }

  lemma BagOne(f: seq<nat>, x: nat)
    requires x < |f|
    ensures Bag(f, [x]) == multiset{f[x]}
  {
    assert Pick(f, [x]) == [f[x]];
  }

  /** The last of the nodes is a least one. */
  lemma LastLeast(f: seq<nat>, nodes: seq<nat>, x: nat)
    requires Ranged(nodes, |f|) && x < |f| && forall y :: y in nodes ==> y < |f| && f[x] <= f[y]
    ensures Ranged(nodes + [x], |f|) && IsLeast(Bag(f, nodes + [x]), f[x])
    ensures Bag(f, nodes + [x]) - multiset{f[x]} == Bag(f, nodes)
  {
    BagCat(f, nodes, [x]);
    BagOne(f, x);
    forall v | v in Bag(f, nodes + [x])
      ensures f[x] <= v
    {
      if v in Bag(f, nodes) {
        var i :| 0 <= i < |nodes| && Pick(f, nodes)[i] == v;
        assert nodes[i] in nodes;
      }
    }
  }

  lemma MergeLast(f: seq<nat>, p: seq<nat>, q: seq<nat>, m: nat, n: nat, e: nat)
    requires Ranged(p, |f|) && Ranged(q, |f|) && n < |f| && m < |f| && e < |f| && f[e] == f[m] + f[n] && f[n] <= f[m]
    requires forall y :: y in p + q ==> y < |f| && f[m] <= f[y]
    ensures Ranged(p + q + [m, n], |f|) && Ranged(p + [e] + q, |f|)
    ensures MergeCost(Bag(f, p + q + [m, n])) == f[e] + MergeCost(Bag(f, p + [e] + q))
  {
    hide MergeCost, IsLeast, Bag, Merged;
    var pq := p + q;
    BagCat(f, p, q);
    assert pq + [m, n] == pq + [m] + [n];
    assert forall y :: y in pq + [m] ==> y in pq || y == m;
    LastLeast(f, pq, m);
    LastLeast(f, pq + [m], n);
    MergeTwo(Bag(f, pq + [m] + [n]), f[n], f[m]);
    BagCat(f, p, [e]);
    BagCat(f, p + [e], q);
    BagOne(f, e);
    MergedBag(Bag(f, pq + [m] + [n]), Bag(f, pq + [m]), Bag(f, p), Bag(f, q), f[n], f[m]);
  }

  lemma MergedBag(W: multiset<nat>, V: multiset<nat>, P: multiset<nat>, Q: multiset<nat>, a: nat, b: nat)
    requires W - multiset{a} == V && V - multiset{b} == P + Q
    ensures Merged(W, a, b) == P + multiset{a + b} + Q
  {
  }

  /** Before every merge, what the live nodes still cost is what merging them costs. */
  lemma {:induction false} CostOfLive(leaves: seq<nat>, heap: seq<nat>, d0: seq<nat>, dl: seq<nat>, freq: seq<nat>,
                                      elems: nat, hmax: nat, k: nat)
    requires Weighed(leaves, heap, d0, freq, elems, hmax) && Exact(heap, dl, elems, hmax, HEAP_SIZE)
    requires k < |leaves| && |dl| == |freq|
    ensures hmax + 2 * k < HEAP_SIZE == |heap|
    ensures var live := Live(heap, elems, hmax, k);
      Ranged(live, |freq|) && OverNodes(freq, dl, live) == MergeCost(Bag(freq, live))
    decreases |leaves| - k
  {
    hide Live, OverNodes, MergeCost, Bag, Weighed, Exact, Ranged;
    WeighedSizes(leaves, heap, d0, freq, elems, hmax, k);
    if k + 1 == |leaves| {
      CostAtRoot(leaves, heap, d0, dl, freq, elems, hmax);
    } else {
      CostOfLive(leaves, heap, d0, dl, freq, elems, hmax, k + 1);
      CostStep(leaves, heap, d0, dl, freq, elems, hmax, k);
    }
  }

  lemma WeighedSizes(leaves: seq<nat>, heap: seq<nat>, d0: seq<nat>, freq: seq<nat>, elems: nat, hmax: nat, k: nat)
    requires Weighed(leaves, heap, d0, freq, elems, hmax) && k < |leaves|
    ensures hmax + 2 * k < HEAP_SIZE == |heap| && heap[hmax] < |freq| && Ranged(Live(heap, elems, hmax, k), |freq|)
  {
    LiveRanged(heap, freq, elems, hmax, k);
  }

  lemma CostAtRoot(leaves: seq<nat>, heap: seq<nat>, d0: seq<nat>, dl: seq<nat>, freq: seq<nat>, elems: nat, hmax: nat)
    requires Weighed(leaves, heap, d0, freq, elems, hmax) && Exact(heap, dl, elems, hmax, HEAP_SIZE)
    requires |dl| == |freq|
    ensures var live := Live(heap, elems, hmax, |leaves| - 1);
      Ranged(live, |freq|) && OverNodes(freq, dl, live) == MergeCost(Bag(freq, live))
  {
    hide Live, OverNodes, MergeCost, Bag, Fathers;
    LiveEnd(leaves, heap, d0, elems, hmax);
    assert heap[hmax] < |freq|;
    OverOne(freq, dl, heap[hmax]);
    BagOne(freq, heap[hmax]);
    OneFree(Bag(freq, [heap[hmax]]));
  }

  lemma CostStep(leaves: seq<nat>, heap: seq<nat>, d0: seq<nat>, dl: seq<nat>, freq: seq<nat>, elems: nat, hmax: nat,
                 k: nat)
    requires Weighed(leaves, heap, d0, freq, elems, hmax) && Exact(heap, dl, elems, hmax, HEAP_SIZE)
    requires k + 1 < |leaves| && |dl| == |freq| && hmax + 2 * k + 2 < HEAP_SIZE == |heap|
    requires var live := Live(heap, elems, hmax, k + 1);
      Ranged(live, |freq|) && OverNodes(freq, dl, live) == MergeCost(Bag(freq, live))
    ensures var live := Live(heap, elems, hmax, k);
      Ranged(live, |freq|) && OverNodes(freq, dl, live) == MergeCost(Bag(freq, live))
  {
    hide Live, OverNodes, MergeCost, Bag, Weighed, Exact, Ranged;
    var p, q := LiveStep(leaves, heap, d0, freq, elems, hmax, k);
    var m, n, e := heap[HEAP_SIZE - 2 - 2 * k], heap[HEAP_SIZE - 1 - 2 * k], elems + k;
    MergedPair(leaves, heap, d0, dl, freq, elems, hmax, k, p + q);
    PartsRanged(p, q, e, |freq|);
    OverMerge(freq, dl, p, q, m, n, e);
    MergeLast(freq, p, q, m, n, e);
    LengthsGrow(freq[m], freq[n], dl[e]);
  }

  lemma PartsRanged(p: seq<nat>, q: seq<nat>, e: nat, n: nat)
    requires Ranged(p + [e] + q, n)
    ensures Ranged(p, n) && Ranged(q, n)
  {
    var s := p + [e] + q;
    forall i | 0 <= i < |p|
      ensures p[i] < n
    {
      assert s[i] == p[i];
    }
    forall i | 0 <= i < |q|
      ensures q[i] < n
    {
      assert s[|p| + 1 + i] == q[i];
    }
  }

  lemma LengthsGrow(a: nat, b: nat, l: nat)
    ensures a * (l + 1) + b * (l + 1) - (a + b) * l == a + b
  {
  }

  /** The pair of merge k: less frequent than what is in front of it, and one longer than its
      father. */
  lemma MergedPair(leaves: seq<nat>, heap: seq<nat>, d0: seq<nat>, dl: seq<nat>, freq: seq<nat>, elems: nat, hmax: nat,
                   k: nat, front: seq<nat>)
    requires Weighed(leaves, heap, d0, freq, elems, hmax) && Exact(heap, dl, elems, hmax, HEAP_SIZE)
    requires k + 1 < |leaves| && |dl| == |freq| && hmax + 2 * k + 2 < HEAP_SIZE
    requires forall x :: x in front ==> x in heap[hmax..HEAP_SIZE - 2 - 2 * k]
    ensures var m, n, e := heap[HEAP_SIZE - 2 - 2 * k], heap[HEAP_SIZE - 1 - 2 * k], elems + k;
      && m < |freq| && n < |freq| && e < |freq| && freq[e] == freq[m] + freq[n] && freq[n] <= freq[m]
      && dl[m] == dl[n] == dl[e] + 1
      && forall y :: y in front ==> y < |freq| && freq[m] <= freq[y]
  {
    assert FatherSum(heap, freq, elems, k);
    var h := HEAP_SIZE - 2 - 2 * k;
    assert FatherAt(elems, h) == FatherAt(elems, h + 1) == elems + k;
    forall y | y in front
      ensures y < |freq| && freq[heap[h]] <= freq[y]
    {
      var i :| 0 <= i < |heap[hmax..h]| && heap[hmax..h][i] == y;
      assert heap[hmax + i] == y;
    }
  }

  /** The root is as frequent as all symbols together. */
  lemma {:induction false} WeightOfLive(leaves: seq<nat>, heap: seq<nat>, d0: seq<nat>, freq: seq<nat>, elems: nat,
                                        hmax: nat, k: nat)
    requires Weighed(leaves, heap, d0, freq, elems, hmax) && k < |leaves|
    ensures hmax + 2 * k < HEAP_SIZE == |heap| && heap[hmax] < |freq|
    ensures var live := Live(heap, elems, hmax, k);
      Ranged(live, |freq|) && OverNodes(freq, Ones(|freq|), live) == freq[heap[hmax]]
    decreases |leaves| - k
  {
    hide Live, OverNodes, Weighed, Ranged;
    WeighedSizes(leaves, heap, d0, freq, elems, hmax, k);
    if k + 1 == |leaves| {
      LiveRoot(leaves, heap, d0, freq, elems, hmax);
      OverOne(freq, Ones(|freq|), heap[hmax]);
    } else {
      WeightOfLive(leaves, heap, d0, freq, elems, hmax, k + 1);
      WeightStep(leaves, heap, d0, freq, elems, hmax, k);
    }
  }

  lemma LiveRoot(leaves: seq<nat>, heap: seq<nat>, d0: seq<nat>, freq: seq<nat>, elems: nat, hmax: nat)
    requires Weighed(leaves, heap, d0, freq, elems, hmax)
    ensures |leaves| > 0 && hmax + 2 * (|leaves| - 1) < HEAP_SIZE == |heap|
    ensures Live(heap, elems, hmax, |leaves| - 1) == [heap[hmax]]
  {
    LiveEnd(leaves, heap, d0, elems, hmax);
  }

  lemma AnyFather(leaves: seq<nat>, heap: seq<nat>, d0: seq<nat>, freq: seq<nat>, elems: nat, hmax: nat, k: nat)
    requires Weighed(leaves, heap, d0, freq, elems, hmax) && k + 1 < |leaves|
    ensures FatherSum(heap, freq, elems, k)
  {
  }

  lemma WeightStep(leaves: seq<nat>, heap: seq<nat>, d0: seq<nat>, freq: seq<nat>, elems: nat, hmax: nat, k: nat)
    requires Weighed(leaves, heap, d0, freq, elems, hmax) && k + 1 < |leaves| && hmax + 2 * k + 2 < HEAP_SIZE == |heap|
    requires Ranged(Live(heap, elems, hmax, k + 1), |freq|)
    ensures Ranged(Live(heap, elems, hmax, k), |freq|)
    ensures OverNodes(freq, Ones(|freq|), Live(heap, elems, hmax, k))
      == OverNodes(freq, Ones(|freq|), Live(heap, elems, hmax, k + 1))
  {
    hide Live, OverNodes, Weighed, Ranged;
    AnyFather(leaves, heap, d0, freq, elems, hmax, k);
    var p, q := LiveStep(leaves, heap, d0, freq, elems, hmax, k);
    var m, n, e := heap[HEAP_SIZE - 2 - 2 * k], heap[HEAP_SIZE - 1 - 2 * k], elems + k;
    PartsRanged(p, q, e, |freq|);
    OverMerge(freq, Ones(|freq|), p, q, m, n, e);
  }

  // ---- Any other code ----

  /** The lengths l, of at most m, leave room for a prefix code, and every symbol with a frequency
      has one. */
  ghost predicate Rival(freq: seq<nat>, l: seq<nat>, m: nat) {
    && |l| == |freq| && Used(l, m) <= Pow2(m)
    && forall s :: 0 <= s < |l| ==> l[s] <= m && (freq[s] > 0 ==> l[s] > 0)
  }

  /** No prefix code, of whatever lengths, takes fewer bits. */
  ghost predicate Optimal(freq: seq<nat>, lens: seq<nat>) {
    |lens| == |freq| && forall l, m :: Rival(freq, l, m) ==> Weighted(freq, lens) <= Weighted(freq, l)
  }

  lemma OverCut(f: seq<nat>, v: seq<nat>, nodes: seq<nat>, n: nat)
    requires |f| == |v| && n <= |f| && Ranged(nodes, n)
    ensures Ranged(nodes, |f|) && Pick(f, nodes) == Pick(f[..n], nodes) && Pick(v, nodes) == Pick(v[..n], nodes)
    ensures OverNodes(f, v, nodes) == OverNodes(f[..n], v[..n], nodes)
  {
  }

  lemma BagCut(f: seq<nat>, nodes: seq<nat>, n: nat)
    requires n <= |f| && Ranged(nodes, n)
    ensures Ranged(nodes, |f|) && Bag(f, nodes) == Bag(f[..n], nodes)
  {
    assert Pick(f, nodes) == Pick(f[..n], nodes);
  }

  /** The symbols that have a weight are all there is to sum over. */
  lemma {:induction false} OverAll(w: seq<nat>, l: seq<nat>, ls: seq<nat>)
    requires |w| == |l| && Ranged(ls, |w|) && Distinct(ls) && forall s :: 0 <= s < |w| && s !in ls ==> w[s] == 0
    ensures OverNodes(w, l, ls) == Weighted(w, l)
    decreases |ls|
  {
    if ls == [] {
      WeightedNone(w, l);
      WeightedNone(Pick(w, ls), Pick(l, ls));
    } else {
      var k := |ls| - 1;
      var x, rest, w2 := ls[k], ls[..k], w[ls[k] := 0];
      assert ls == rest + [x];
      OverAll(w2, l, rest);
      assert Pick(w2, rest) == Pick(w, rest);
      WeightUpdate(w, l, x, 0);
      OverCat(w, l, rest, [x]);
      OverOne(w, l, x);
    }
  }

  lemma {:induction false} SharesUsed(l: seq<nat>, ls: seq<nat>, m: nat)
    requires Ranged(ls, |l|) && Distinct(ls) && forall i :: 0 <= i < |ls| ==> 0 < l[ls[i]] <= m
    ensures Within(Pick(l, ls), m) && Sum(Shares(Pick(l, ls), m)) <= Used(l, m)
    decreases |ls|
  {
    if ls != [] {
      var k := |ls| - 1;
      var x, rest, l2 := ls[k], ls[..k], l[ls[k] := 0];
      SharesUsed(l2, rest, m);
      assert Pick(l2, rest) == Pick(l, ls)[..k];
      assert l2[x := l[x]] == l;
      UsedUpdate(l2, x, l[x], m);
      SharesLast(Pick(l, ls), m);
    }
  }

  lemma SharesLast(l: seq<nat>, m: nat)
    requires |l| > 0 && Within(l, m)
    ensures var k := |l| - 1;
      Within(l[..k], m) && Sum(Shares(l, m)) == Sum(Shares(l[..k], m)) + Share(m, l[k])
  {
    assert Shares(l, m)[..|l| - 1] == Shares(l[..|l| - 1], m);
  }

  /** The symbols of the tree, in the order of the heap. */
  lemma LeafList(leaves: seq<nat>, heap: seq<nat>, d0: seq<nat>, elems: nat, hmax: nat) returns (ls: seq<nat>)
    requires Leaves(leaves, elems) && Rooted(leaves, heap, d0, elems, hmax)
    ensures hmax <= HEAP_SIZE == |heap| && ls == Live(heap, elems, hmax, 0)
    ensures Ranged(ls, elems) && Distinct(ls) && |ls| > 0 && forall s :: s in ls <==> s in leaves
  {
    ls := Live(heap, elems, hmax, 0);
    FrontApart(leaves, heap, d0, elems, hmax, HEAP_SIZE);
    BelowApart(heap[hmax..HEAP_SIZE], elems);
    forall s | s in leaves
      ensures s in ls
    {
      LeafPlaced(leaves, heap, d0, elems, hmax, s);
      BelowHas(heap[hmax..HEAP_SIZE], elems, s);
    }
    assert leaves[0] in ls;
    forall s | s in ls
      ensures s in leaves
    {
      assert s in heap[hmax..HEAP_SIZE];
      var i :| 0 <= i < |heap[hmax..HEAP_SIZE]| && heap[hmax..HEAP_SIZE][i] == s;
      IsNode(leaves, heap, d0, elems, hmax, hmax + i);
    }
  }

  lemma WeighedLeaves(leaves: seq<nat>, heap: seq<nat>, d0: seq<nat>, freq: seq<nat>, elems: nat, hmax: nat)
      returns (ls: seq<nat>)
    requires Weighed(leaves, heap, d0, freq, elems, hmax) && elems <= |freq|
    requires forall s :: 0 <= s < elems && s !in leaves ==> freq[s] == 0
    ensures 0 < |leaves| && hmax <= HEAP_SIZE == |heap| && ls == Live(heap, elems, hmax, 0)
    ensures Ranged(ls, elems) && Distinct(ls) && |ls| > 0
    ensures forall s :: 0 <= s < |freq[..elems]| ==> (s in ls <==> freq[..elems][s] > 0)
  {
    hide Live;
    ls := LeafList(leaves, heap, d0, elems, hmax);
  }

  /** Lengths that are depths in the tree are optimal. */
  lemma TreeIsOptimal(leaves: seq<nat>, heap: seq<nat>, d0: seq<nat>, dl: seq<nat>, freq: seq<nat>, elems: nat,
                      hmax: nat)
    requires Weighed(leaves, heap, d0, freq, elems, hmax) && Exact(heap, dl, elems, hmax, HEAP_SIZE)
    requires elems <= |dl| == |freq| && forall s :: 0 <= s < elems && s !in leaves ==> freq[s] == 0
    ensures Optimal(freq[..elems], dl[..elems])
  {
    hide Weighed, Exact, Live, MergeCost, OverNodes, Weighted, Ranged, Distinct, Bag, Used, Pow2;
    var ls := WeighedLeaves(leaves, heap, d0, freq, elems, hmax);
    CostOfLive(leaves, heap, d0, dl, freq, elems, hmax, 0);
    OverCut(freq, dl, ls, elems);
    BagCut(freq, ls, elems);
    OverAll(freq[..elems], dl[..elems], ls);
    forall l, m | Rival(freq[..elems], l, m)
      ensures Weighted(freq[..elems], dl[..elems]) <= Weighted(freq[..elems], l)
    {
      RivalCosts(freq[..elems], l, m, ls);
    }
  }

  lemma RivalCosts(f: seq<nat>, l: seq<nat>, m: nat, ls: seq<nat>)
    requires Rival(f, l, m) && Ranged(ls, |f|) && Distinct(ls) && |ls| > 0
    requires forall s :: 0 <= s < |f| ==> (s in ls <==> f[s] > 0)
    ensures Weighted(f, l) >= MergeCost(Bag(f, ls))
  {
    hide MergeCost, Weighted;
    SharesUsed(l, ls, m);
    OverAll(f, l, ls);
    LowerBound(Pick(f, ls), Pick(l, ls), m);
  }

  /** The root is as frequent as all symbols together. */
  lemma RootWeighs(leaves: seq<nat>, heap: seq<nat>, d0: seq<nat>, freq: seq<nat>, elems: nat, hmax: nat)
    requires Weighed(leaves, heap, d0, freq, elems, hmax) && elems <= |freq|
    requires forall s :: 0 <= s < elems && s !in leaves ==> freq[s] == 0
    ensures hmax < |heap| && heap[hmax] < |freq| && freq[heap[hmax]] == Sum(freq[..elems])
  {
    hide Weighed, Live, OverNodes, Weighted, Ranged, Distinct;
    var ls := WeighedLeaves(leaves, heap, d0, freq, elems, hmax);
    WeightOfLive(leaves, heap, d0, freq, elems, hmax, 0);
    OverCut(freq, Ones(|freq|), ls, elems);
    assert Ones(|freq|)[..elems] == Ones(elems);
    OverAll(freq[..elems], Ones(elems), ls);
    WeightedOnes(freq[..elems]);
  }

  /** No node is more frequent than all symbols together. */
  lemma NodesWithin(leaves: seq<nat>, heap: seq<nat>, d0: seq<nat>, freq: seq<nat>, elems: nat, hmax: nat)
    requires Weighed(leaves, heap, d0, freq, elems, hmax) && elems <= |freq|
    requires forall s :: 0 <= s < elems && s !in leaves ==> freq[s] == 0
    ensures forall h :: hmax <= h < |heap| ==> heap[h] < |freq| && freq[heap[h]] <= Sum(freq[..elems])
  {
    RootWeighs(leaves, heap, d0, freq, elems, hmax);
    forall h | hmax <= h < |heap|
      ensures heap[h] < |freq| && freq[heap[h]] <= Sum(freq[..elems])
    {
      assert h == hmax || freq[heap[h]] <= freq[heap[hmax]];
    }
  }

  // ---- Forced symbols ----

  /** Two symbols get one bit each. */
  lemma TwoOnes(leaves: seq<nat>, heap: seq<nat>, d0: seq<nat>, dl: seq<nat>, elems: nat, hmax: nat, s: nat)
    requires Leaves(leaves, elems) && Rooted(leaves, heap, d0, elems, hmax) && Exact(heap, dl, elems, hmax, HEAP_SIZE)
    requires |leaves| == 2 && s in leaves
    ensures s < |dl| && dl[s] == 1
  {
    LeafPlaced(leaves, heap, d0, elems, hmax, s);
    var g := PlaceOf(heap, hmax, HEAP_SIZE, s);
    assert g != hmax;
    assert FatherAt(elems, g) == elems == heap[hmax];
  }

  /** One bit each is optimal. */
  lemma OnesOptimal(freq: seq<nat>, lens: seq<nat>)
    requires |lens| == |freq| && forall s :: 0 <= s < |freq| && freq[s] > 0 ==> lens[s] == 1
    ensures Optimal(freq, lens)
  {
    forall l, m | Rival(freq, l, m)
      ensures Weighted(freq, lens) <= Weighted(freq, l)
    {
      WeightedMono(freq, lens, l);
    }
  }
}
