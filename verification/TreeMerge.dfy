/** trees.c: combining the two least frequent nodes until one tree is left. */
module TreeMerge {
  import opened TreeHeap
  import opened TreeSizes

  /** The internal nodes created by the first k merges. */
  function Internal(elems: nat, k: nat): seq<nat> {
    seq(k, i => elems + i)
  }

  lemma InternalNext(elems: nat, k: nat)
    ensures Internal(elems, k + 1) == Internal(elems, k) + [elems + k]
  {
  }

  /** Live nodes are in heap[1..len]; the nodes that have a father are in heap[hmax..],
      the latest first. The i-th internal node is the father of the i-th pair from
      the end, and stands itself before its sons. */
  ghost predicate Forest(leaves: seq<nat>, heap: seq<nat>, dl: seq<nat>, elems: nat, k: nat, len: nat, hmax: nat) {
    && |heap| == HEAP_SIZE && hmax + 2 * k == HEAP_SIZE && 1 <= len && len + k == |leaves| && len < hmax
    && 2 * elems <= |dl|
    && multiset(heap[1..len + 1]) + multiset(heap[hmax..]) == multiset(leaves) + multiset(Internal(elems, k))
    && (forall h :: hmax <= h < HEAP_SIZE ==> heap[h] < |dl| && dl[heap[h]] == elems + (HEAP_SIZE - 1 - h) / 2)
    && (forall h :: hmax <= h < HEAP_SIZE && heap[h] >= elems ==> h + 2 + 2 * (heap[h] - elems) < HEAP_SIZE)
  }

  /** The leaves are distinct symbols. */
  ghost predicate Leaves(leaves: seq<nat>, elems: nat) {
    && |leaves| <= elems && 2 * elems < HEAP_SIZE
    && (forall i :: 0 <= i < |leaves| ==> leaves[i] < elems)
    && (forall i, j :: 0 <= i < j < |leaves| ==> leaves[i] != leaves[j])
  }

  /** n is a least frequent one of the nodes. */
  ghost predicate Least(freq: seq<nat>, n: nat, nodes: multiset<nat>) {
    n < |freq| && forall x :: x in nodes ==> x < |freq| && freq[n] <= freq[x]
  }

  /** The nodes that have a father are in order of frequency, the most frequent first,
      and no live node is less frequent than they are. */
  ghost predicate InOrder(live: multiset<nat>, gone: seq<nat>, freq: seq<nat>) {
    && (forall i :: 0 <= i < |gone| ==> Least(freq, gone[i], live))
    && (forall i, j :: 0 <= i < j < |gone| ==> freq[gone[j]] <= freq[gone[i]])
  }

  lemma {:induction false} DistinctCount(s: seq<nat>, x: nat)
    requires forall i, j :: 0 <= i < j < |s| ==> s[i] != s[j]
    ensures multiset(s)[x] <= 1
  {
    if s != [] {
      var m := |s| - 1;
      assert s == s[..m] + [s[m]];
      DistinctCount(s[..m], x);
      if x == s[m] {
        assert x !in s[..m];
      }
    }
  }

  /** Every node occurs once. */
  lemma NodeOnce(leaves: seq<nat>, elems: nat, k: nat, x: nat)
    requires Leaves(leaves, elems)
    ensures (multiset(leaves) + multiset(Internal(elems, k)))[x] <= 1
    ensures x in multiset(leaves) + multiset(Internal(elems, k)) ==> x < elems + k
  {
    DistinctCount(leaves, x);
    DistinctCount(Internal(elems, k), x);
    if x in multiset(leaves) {
      assert x in leaves;
    }
    if x in multiset(Internal(elems, k)) {
      assert x in Internal(elems, k);
    }
  }

  /** What is left of a sequence outside a stretch that is only rearranged. */
  lemma MiddleKeeps(a: seq<nat>, b: seq<nat>, len: nat)
    requires |a| == |b| && len < |a| && multiset(a) == multiset(b) && a[0] == b[0]
    requires forall i :: len < i < |a| ==> a[i] == b[i]
    ensures multiset(a[1..len + 1]) == multiset(b[1..len + 1])
  {
    assert a == [a[0]] + a[1..len + 1] + a[len + 1..];
    assert b == [b[0]] + b[1..len + 1] + b[len + 1..];
    assert a[len + 1..] == b[len + 1..];
    assert multiset(a) == (multiset([a[0]]) + multiset(a[len + 1..])) + multiset(a[1..len + 1]);
    assert multiset(b) == (multiset([b[0]]) + multiset(b[len + 1..])) + multiset(b[1..len + 1]);
    Cancel(multiset([a[0]]) + multiset(a[len + 1..]), multiset(a[1..len + 1]), multiset(b[1..len + 1]));
  }

  lemma Cancel(p: multiset<nat>, a: multiset<nat>, b: multiset<nat>)
    requires p + a == p + b
    ensures a == b
  {
    assert a == (p + a) - p;
    assert b == (p + b) - p;
  }

  /** pqremove: take the smallest element out of the heap. */
  method RemoveSmallest(heap: array<nat>, len: nat, freq: seq<nat>, depth: seq<nat>) returns (top: nat)
    requires heap.Length == HEAP_SIZE && 2 <= len
    requires Nodes(heap[..], len, freq, depth) && OrderedFrom(heap[..], len, freq, depth, 1)
    modifies heap
    ensures top == old(heap[1])
    ensures Nodes(heap[..], len - 1, freq, depth) && OrderedFrom(heap[..], len - 1, freq, depth, 1)
    ensures multiset(heap[1..len]) + multiset{top} == old(multiset(heap[1..len + 1]))
    ensures forall i :: len <= i < heap.Length ==> heap[i] == old(heap[i])
  {
    ghost var h0 := heap[..];
    top := heap[1];
    heap[1] := heap[len];
    ghost var h1 := heap[..];
    FirstReplaced(h0, h1, len, freq, depth);
    PqDownHeap(heap, len - 1, freq, depth, 1);
    MiddleKeeps(h1, heap[..], len - 1);
    TakeFirst(h0, h1, len);
    assert heap[..][1..len] == heap[1..len] && h0[1..len + 1] == old(heap[1..len + 1]);
  }

  lemma FirstReplaced(h0: seq<nat>, h1: seq<nat>, len: nat, freq: seq<nat>, depth: seq<nat>)
    requires 2 <= len && Nodes(h0, len, freq, depth) && OrderedFrom(h0, len, freq, depth, 1)
    requires h1 == h0[1 := h0[len]]
    ensures Nodes(h1, len - 1, freq, depth) && OrderedFrom(h1, len - 1, freq, depth, 2)
  {
  }

  lemma TakeFirst(h0: seq<nat>, h1: seq<nat>, len: nat)
    requires 2 <= len < |h0| && h1 == h0[1 := h0[len]]
    ensures multiset(h1[1..len]) + multiset{h0[1]} == multiset(h0[1..len + 1])
  {
    assert h0[1..len + 1] == [h0[1]] + h0[2..len] + [h0[len]];
    assert h1[1..len] == [h0[len]] + h0[2..len];
  }

  /** One merge, seen in the heap: n was taken first and then m, which stays at the
      head until the new node replaces it. */
  lemma MergeStep(leaves: seq<nat>, h0: seq<nat>, h1: seq<nat>, h2: seq<nat>, h3: seq<nat>, d0: seq<nat>, d3: seq<nat>,
                  elems: nat, k: nat, len: nat, hmax: nat, n: nat, m: nat)
    requires Leaves(leaves, elems) && Forest(leaves, h0, d0, elems, k, len, hmax) && 2 <= len
    requires |h1| == HEAP_SIZE && n == h0[1] && m == h1[1]
    requires multiset(h1[1..len]) + multiset{n} == multiset(h0[1..len + 1])
    requires forall i :: len <= i < HEAP_SIZE ==> h1[i] == h0[i]
    requires h2 == h1[hmax - 1 := n][hmax - 2 := m][1 := elems + k]
    requires |h3| == HEAP_SIZE && multiset(h3) == multiset(h2) && h3[0] == h2[0]
    requires forall i :: len - 1 < i < HEAP_SIZE ==> h3[i] == h2[i]
    requires n < |d0| && m < |d0| && d3 == d0[n := elems + k][m := elems + k]
    requires n < elems + k && m < elems + k && n !in h0[hmax..] && m !in h0[hmax..]
    ensures Forest(leaves, h3, d3, elems, k + 1, len - 1, hmax - 2)
  {
    MergeNodes(leaves, h0, h1, h2, elems, k, len, hmax, n, m);
    MiddleKeeps(h3, h2, len - 1);
    assert h3[hmax - 2..] == h2[hmax - 2..];
    forall h | hmax - 2 <= h < HEAP_SIZE
      ensures h3[h] < |d3| && d3[h3[h]] == elems + (HEAP_SIZE - 1 - h) / 2
      ensures h3[h] >= elems ==> h + 2 + 2 * (h3[h] - elems) < HEAP_SIZE
    {
      if h >= hmax {
        assert h3[h] == h0[h] == h0[hmax..][h - hmax];
      }
    }
  }

  lemma MergeNodes(leaves: seq<nat>, h0: seq<nat>, h1: seq<nat>, h2: seq<nat>, elems: nat, k: nat, len: nat, hmax: nat,
                   n: nat, m: nat)
    requires |h0| == |h1| == HEAP_SIZE && 2 <= len && len + 2 <= hmax <= HEAP_SIZE && m == h1[1]
    requires multiset(h0[1..len + 1]) + multiset(h0[hmax..]) == multiset(leaves) + multiset(Internal(elems, k))
    requires multiset(h1[1..len]) + multiset{n} == multiset(h0[1..len + 1])
    requires forall i :: len <= i < HEAP_SIZE ==> h1[i] == h0[i]
    requires h2 == h1[hmax - 1 := n][hmax - 2 := m][1 := elems + k]
    ensures multiset(h2[1..len]) + multiset(h2[hmax - 2..]) == multiset(leaves) + multiset(Internal(elems, k + 1))
  {
    InternalNext(elems, k);
    assert h1[1..len] == [m] + h1[2..len];
    assert h2[1..len] == [elems + k] + h1[2..len];
    assert h2[hmax - 2..] == [m] + [n] + h0[hmax..];
    MergeAlgebra(multiset(h0[1..len + 1]), multiset(h0[hmax..]), multiset(h1[2..len]),
                 multiset([m]), multiset([n]), multiset([elems + k]));
  }

  lemma MergeAlgebra(live: multiset<nat>, gone: multiset<nat>, rest: multiset<nat>,
                     m: multiset<nat>, n: multiset<nat>, node: multiset<nat>)
    requires (m + rest) + n == live
    ensures (node + rest) + (m + n + gone) == (live + gone) + node
  {
  }

  lemma HeadIsLeast(heap: seq<nat>, len: nat, freq: seq<nat>, depth: seq<nat>)
    requires 1 <= len && Nodes(heap, len, freq, depth) && OrderedFrom(heap, len, freq, depth, 1)
    ensures Least(freq, heap[1], multiset(heap[1..len + 1]))
  {
    forall x | x in multiset(heap[1..len + 1])
      ensures x < |freq| && freq[heap[1]] <= freq[x]
    {
      assert x in heap[1..len + 1];
      var i :| 0 <= i < len && heap[1..len + 1][i] == x;
      FirstIsSmallest(heap, len, freq, depth, i + 1);
    }
  }

  /** Taking the two least frequent nodes out and putting their father in keeps the
      order. */
  lemma OrderStep(live0: multiset<nat>, live1: multiset<nat>, live3: multiset<nat>, gone0: seq<nat>, gone3: seq<nat>,
                  f0: seq<nat>, f3: seq<nat>, n: nat, m: nat, node: nat)
    requires InOrder(live0, gone0, f0) && Least(f0, n, live0) && Least(f0, m, live1)
    requires live1 + multiset{n} == live0 && m in live1 && live3 == (live1 - multiset{m}) + multiset{node}
    requires gone3 == [m, n] + gone0
    requires node < |f0| && node !in live0 && node !in gone0 && f3 == f0[node := f0[n] + f0[m]]
    ensures InOrder(live3, gone3, f3)
  {
    assert n in live0 && m in live0;
    forall i | 0 <= i < |gone3|
      ensures Least(f3, gone3[i], live3)
    {
      assert i >= 2 ==> gone3[i] == gone0[i - 2] && Least(f0, gone0[i - 2], live0);
      forall x | x in live3
        ensures x < |f3| && f3[gone3[i]] <= f3[x]
      {
        if x != node {
          assert x in live1 && x in live0;
        }
      }
    }
    forall i, j | 0 <= i < j < |gone3|
      ensures f3[gone3[j]] <= f3[gone3[i]]
    {
      assert j >= 2 ==> gone3[j] == gone0[j - 2] && Least(f0, gone0[j - 2], live0);
      assert i >= 2 ==> gone3[i] == gone0[i - 2];
    }
  }

  /** The i-th internal node is as frequent as its two sons together. */
  ghost predicate FatherSum(heap: seq<nat>, freq: seq<nat>, elems: nat, i: nat) {
    && |heap| == HEAP_SIZE && 2 * i + 2 <= HEAP_SIZE && elems + i < |freq|
    && var n, m := heap[HEAP_SIZE - 1 - 2 * i], heap[HEAP_SIZE - 2 - 2 * i];
      n < |freq| && m < |freq| && freq[elems + i] == freq[n] + freq[m]
  }

  ghost predicate Fathers(heap: seq<nat>, freq: seq<nat>, elems: nat, k: nat) {
    forall i: nat :: i < k ==> FatherSum(heap, freq, elems, i)
  }

  /** Everything the merge loop keeps after k merges. */
  ghost predicate Merging(leaves: seq<nat>, heap: seq<nat>, dl: seq<nat>, freq: seq<nat>, depth: seq<nat>,
                          elems: nat, k: nat, len: nat, hmax: nat) {
    && |freq| == |dl| == 2 * elems + 1 && |depth| == HEAP_SIZE
    && Leaves(leaves, elems) && Forest(leaves, heap, dl, elems, k, len, hmax)
    && Nodes(heap, len, freq, depth) && OrderedFrom(heap, len, freq, depth, 1)
    && InOrder(multiset(heap[1..len + 1]), heap[hmax..], freq) && Fathers(heap, freq, elems, k)
  }

  /** Only tree nodes of the leaves and internal nodes change. */
  ghost predicate SymbolsKept(leaves: seq<nat>, elems: nat, f0: seq<nat>, f1: seq<nat>, d0: seq<nat>, d1: seq<nat>) {
    && |f0| == |f1| == |d0| == |d1| == 2 * elems + 1
    && (forall s :: 0 <= s < elems ==> f1[s] == f0[s])
    && (forall s :: 0 <= s < elems && s !in leaves ==> d1[s] == d0[s])
  }

  /** A live symbol is one of the leaves. */
  lemma LiveLeaf(leaves: seq<nat>, heap: seq<nat>, dl: seq<nat>, elems: nat, k: nat, len: nat, hmax: nat, x: nat)
    requires Leaves(leaves, elems) && Forest(leaves, heap, dl, elems, k, len, hmax)
    requires x in multiset(heap[1..len + 1])
    ensures x < elems ==> x in leaves
    ensures x < elems + k && x !in heap[hmax..]
  {
    assert x in multiset(leaves) + multiset(Internal(elems, k));
    NodeOnce(leaves, elems, k, x);
    assert multiset(heap[hmax..])[x] == 0;
    assert x < elems ==> x !in Internal(elems, k);
  }

  lemma GoneNode(leaves: seq<nat>, heap: seq<nat>, dl: seq<nat>, elems: nat, k: nat, len: nat, hmax: nat)
    requires Leaves(leaves, elems) && Forest(leaves, heap, dl, elems, k, len, hmax)
    ensures elems + k !in multiset(heap[1..len + 1]) && elems + k !in heap[hmax..]
  {
    NodeOnce(leaves, elems, k, elems + k);
    assert multiset(heap[hmax..])[elems + k] == 0;
  }

  /** Take the two least frequent nodes; the second one stays at the head. */
  method TakePair(heap: array<nat>, len: nat, hmax: nat, freq: seq<nat>, depth: seq<nat>)
      returns (n: nat, m: nat, ghost h1: seq<nat>)
    requires heap.Length == HEAP_SIZE && 2 <= len && len + 2 < hmax <= HEAP_SIZE
    requires Nodes(heap[..], len, freq, depth) && OrderedFrom(heap[..], len, freq, depth, 1)
    modifies heap
    ensures |h1| == HEAP_SIZE && heap[..] == h1[hmax - 1 := n][hmax - 2 := m]
    ensures n == old(heap[1]) && m == h1[1]
    ensures Nodes(h1, len - 1, freq, depth) && OrderedFrom(h1, len - 1, freq, depth, 1)
    ensures multiset(h1[1..len]) + multiset{n} == multiset(old(heap[..])[1..len + 1])
    ensures forall i :: len <= i < HEAP_SIZE ==> h1[i] == old(heap[i])
  {
    n := RemoveSmallest(heap, len, freq, depth);
    h1 := heap[..];
    assert h1[1..len] == heap[1..len] && old(heap[..])[1..len + 1] == old(heap[1..len + 1]);
    m := heap[1];
    heap[hmax - 1] := n;
    heap[hmax - 2] := m;
  }

  /** Create the father of n and m. */
  method SetFather(fc: array<nat>, dl: array<nat>, depth: array<nat>, n: nat, m: nat, node: nat)
    requires fc != dl && fc != depth && dl != depth
    requires fc.Length == dl.Length <= depth.Length && n < fc.Length && m < fc.Length && node < fc.Length
    requires n != node && m != node
    modifies fc, dl, depth
    ensures fc[..] == old(fc[..])[node := old(fc[n]) + old(fc[m])]
    ensures dl[..] == old(dl[..])[n := node][m := node]
    ensures depth[..] == old(depth[..])[node := depth[node]]
  {
    fc[node] := fc[n] + fc[m];
    depth[node] := ((if depth[n] >= depth[m] then depth[n] else depth[m]) + 1) % 256;
    dl[n] := node;
    dl[m] := node;
  }

  lemma MergingSizes(leaves: seq<nat>, heap: seq<nat>, dl: seq<nat>, freq: seq<nat>, depth: seq<nat>,
                     elems: nat, k: nat, len: nat, hmax: nat)
    requires Merging(leaves, heap, dl, freq, depth, elems, k, len, hmax) && 2 <= len
    ensures Leaves(leaves, elems) && Forest(leaves, heap, dl, elems, k, len, hmax)
    ensures Nodes(heap, len, freq, depth) && OrderedFrom(heap, len, freq, depth, 1) && |depth| == HEAP_SIZE
    ensures |heap| == HEAP_SIZE && len + 2 < hmax <= HEAP_SIZE && elems + k < 2 * elems < HEAP_SIZE
    ensures |freq| == |dl| == 2 * elems + 1
  {
  }

  /** Replace the two least frequent nodes in the heap by their father. */
  method ReplacePair(heap: array<nat>, fc: array<nat>, dl: array<nat>, depth: array<nat>,
                     elems: nat, k: nat, len: nat, hmax: nat, ghost leaves: seq<nat>)
      returns (n: nat, m: nat, ghost h1: seq<nat>, ghost h2: seq<nat>)
    requires heap != fc && heap != dl && heap != depth && fc != dl && fc != depth && dl != depth
    requires Merging(leaves, heap[..], dl[..], fc[..], depth[..], elems, k, len, hmax) && 2 <= len
    modifies heap, fc, dl, depth
    ensures Pair(leaves, old(heap[..]), h1, h2, heap[..], old(fc[..]), fc[..], old(dl[..]), dl[..], old(depth[..]),
                 elems, k, len, hmax, n, m)
    ensures Nodes(heap[..], len - 1, fc[..], depth[..]) && OrderedFrom(heap[..], len - 1, fc[..], depth[..], 1)
    ensures |depth[..]| == HEAP_SIZE
  {
    hide Nodes, OrderedFrom, Forest, Leaves, Merging, Pair;
    ghost var h0, f0, d0, p0 := heap[..], fc[..], dl[..], depth[..];
    MergingSizes(leaves, h0, d0, f0, p0, elems, k, len, hmax);
    var node: nat := elems + k;
    n, m, h1 := TakePair(heap, len, hmax, fc[..], depth[..]);
    PairFacts(leaves, h0, h1, d0, elems, k, len, hmax, n, m);
    SetFather(fc, dl, depth, n, m, node);
    h2 := PutFather(heap, fc[..], depth[..], len, node, hmax, n, m, h1, f0, p0);
    PairHolds(leaves, h0, h1, h2, heap[..], f0, fc[..], d0, dl[..], p0, elems, k, len, hmax, n, m);
  }

  lemma PairHolds(leaves: seq<nat>, h0: seq<nat>, h1: seq<nat>, h2: seq<nat>, h3: seq<nat>, f0: seq<nat>, f3: seq<nat>,
                  d0: seq<nat>, d3: seq<nat>, depth: seq<nat>, elems: nat, k: nat, len: nat, hmax: nat, n: nat, m: nat)
    requires Merging(leaves, h0, d0, f0, depth, elems, k, len, hmax) && 2 <= len
    requires |h1| == HEAP_SIZE && n == h0[1] && m == h1[1]
    requires Nodes(h1, len - 1, f0, depth) && OrderedFrom(h1, len - 1, f0, depth, 1)
    requires multiset(h1[1..len]) + multiset{n} == multiset(h0[1..len + 1])
    requires forall i :: len <= i < HEAP_SIZE ==> h1[i] == h0[i]
    requires h2 == h1[hmax - 1 := n][hmax - 2 := m][1 := elems + k]
    requires |h3| == HEAP_SIZE && multiset(h3) == multiset(h2) && h3[0] == h2[0]
    requires forall i :: len - 1 < i < HEAP_SIZE ==> h3[i] == h2[i]
    requires n < |f0| && m < |f0| && elems + k < |f0|
    requires f3 == f0[elems + k := f0[n] + f0[m]] && d3 == d0[n := elems + k][m := elems + k]
    ensures Pair(leaves, h0, h1, h2, h3, f0, f3, d0, d3, depth, elems, k, len, hmax, n, m)
  {
  }

  /** The father takes the place of the pair, and sinks to where it belongs. */
  method PutFather(heap: array<nat>, freq: seq<nat>, depth: seq<nat>, len: nat, node: nat,
                   ghost hmax: nat, ghost n: nat, ghost m: nat,
                   ghost h1: seq<nat>, ghost f0: seq<nat>, ghost p0: seq<nat>)
      returns (ghost h2: seq<nat>)
    requires heap.Length == |h1| == HEAP_SIZE && 2 <= len && len + 2 < hmax <= HEAP_SIZE
    requires heap[..] == h1[hmax - 1 := n][hmax - 2 := m]
    requires Nodes(h1, len - 1, f0, p0) && OrderedFrom(h1, len - 1, f0, p0, 1) && node !in multiset(h1[1..len])
    requires node < |f0| == |freq| && freq == f0[node := freq[node]]
    requires node < |p0| == |depth| && depth == p0[node := depth[node]]
    modifies heap
    ensures h2 == h1[hmax - 1 := n][hmax - 2 := m][1 := node]
    ensures Nodes(heap[..], len - 1, freq, depth) && OrderedFrom(heap[..], len - 1, freq, depth, 1)
    ensures multiset(heap[..]) == multiset(h2) && heap[..][0] == h2[0]
    ensures forall i :: len - 1 < i < HEAP_SIZE ==> heap[..][i] == h2[i]
  {
    hide Nodes, OrderedFrom;
    heap[1] := node;
    h2 := heap[..];
    NewHead(h1, h2, len, hmax, n, m, node, f0, freq, p0, depth);
    SiftHead(heap, len - 1, freq, depth, h2);
  }

  method SiftHead(heap: array<nat>, len: nat, freq: seq<nat>, depth: seq<nat>, ghost h2: seq<nat>)
    requires heap.Length == HEAP_SIZE && 1 <= len < HEAP_SIZE && h2 == heap[..]
    requires Nodes(h2, len, freq, depth) && OrderedFrom(h2, len, freq, depth, 2)
    modifies heap
    ensures Nodes(heap[..], len, freq, depth) && OrderedFrom(heap[..], len, freq, depth, 1)
    ensures multiset(heap[..]) == multiset(h2) && heap[..][0] == h2[0]
    ensures forall i :: len < i < HEAP_SIZE ==> heap[..][i] == h2[i]
  {
    PqDownHeap(heap, len, freq, depth, 1);
  }

  /** One merge: the two least frequent nodes get a common father. */
  method MergePair(heap: array<nat>, fc: array<nat>, dl: array<nat>, depth: array<nat>,
                   elems: nat, k: nat, len: nat, hmax: nat, ghost leaves: seq<nat>)
      returns (k2: nat, len2: nat, hmax2: nat)
    requires heap != fc && heap != dl && heap != depth && fc != dl && fc != depth && dl != depth
    requires Merging(leaves, heap[..], dl[..], fc[..], depth[..], elems, k, len, hmax) && 2 <= len
    modifies heap, fc, dl, depth
    ensures k2 == k + 1 && len2 == len - 1 && hmax2 == hmax - 2
    ensures Merging(leaves, heap[..], dl[..], fc[..], depth[..], elems, k2, len2, hmax2)
    ensures SymbolsKept(leaves, elems, old(fc[..]), fc[..], old(dl[..]), dl[..])
    ensures len2 == 1 ==> heap[1] == elems + k
  {
    k2, len2, hmax2 := k + 1, len - 1, hmax - 2;
    ghost var h0, f0, d0, p0 := heap[..], fc[..], dl[..], depth[..];
    var n, m, h1, h2 := ReplacePair(heap, fc, dl, depth, elems, k, len, hmax, leaves);
    PairMerged(leaves, h0, h1, h2, heap[..], f0, fc[..], d0, dl[..], p0, depth[..], elems, k, len, hmax, n, m, k2, len2,
      hmax2);
  }

  lemma PairMerged(leaves: seq<nat>, h0: seq<nat>, h1: seq<nat>, h2: seq<nat>, h3: seq<nat>, f0: seq<nat>, f3: seq<nat>,
                   d0: seq<nat>, d3: seq<nat>, depth: seq<nat>, depth3: seq<nat>,
                   elems: nat, k: nat, len: nat, hmax: nat, n: nat, m: nat, k2: nat, len2: nat, hmax2: nat)
    requires k2 == k + 1 && len2 == len - 1 && hmax2 == hmax - 2
    requires Pair(leaves, h0, h1, h2, h3, f0, f3, d0, d3, depth, elems, k, len, hmax, n, m) && |depth3| == HEAP_SIZE
    requires Nodes(h3, len - 1, f3, depth3) && OrderedFrom(h3, len - 1, f3, depth3, 1)
    ensures Merging(leaves, h3, d3, f3, depth3, elems, k2, len2, hmax2)
    ensures SymbolsKept(leaves, elems, f0, f3, d0, d3)
    ensures len == 2 ==> h3[1] == elems + k
  {
    PairForest(leaves, h0, h1, h2, h3, f0, f3, d0, d3, depth, elems, k, len, hmax, n, m);
    PairSorted(leaves, h0, h1, h2, h3, f0, f3, d0, d3, depth, elems, k, len, hmax, n, m);
    PairKeeps(leaves, h0, h1, h2, h3, f0, f3, d0, d3, depth, elems, k, len, hmax, n, m);
    PairFathers(leaves, h0, h1, h2, h3, f0, f3, d0, d3, depth, elems, k, len, hmax, n, m);
    hide Forest, InOrder, Nodes, OrderedFrom, Leaves, SymbolsKept, Fathers;
    assert h3[1..len2 + 1] == h3[1..(len - 1) + 1] && h3[hmax2..] == h3[hmax - 2..];
  }

  /** The heaps and tree fields before, within and after one merge. */
  ghost predicate Pair(leaves: seq<nat>, h0: seq<nat>, h1: seq<nat>, h2: seq<nat>, h3: seq<nat>, f0: seq<nat>,
                       f3: seq<nat>,
                   d0: seq<nat>, d3: seq<nat>, depth: seq<nat>, elems: nat, k: nat, len: nat, hmax: nat,
                   n: nat, m: nat) {
    && Merging(leaves, h0, d0, f0, depth, elems, k, len, hmax) && 2 <= len
    && |h1| == HEAP_SIZE && n == h0[1] && m == h1[1]
    && Nodes(h1, len - 1, f0, depth) && OrderedFrom(h1, len - 1, f0, depth, 1)
    && multiset(h1[1..len]) + multiset{n} == multiset(h0[1..len + 1])
    && (forall i :: len <= i < HEAP_SIZE ==> h1[i] == h0[i])
    && h2 == h1[hmax - 1 := n][hmax - 2 := m][1 := elems + k]
    && |h3| == HEAP_SIZE && multiset(h3) == multiset(h2) && h3[0] == h2[0]
    && (forall i :: len - 1 < i < HEAP_SIZE ==> h3[i] == h2[i])
    && n < |f0| && m < |f0| && elems + k < |f0|
    && f3 == f0[elems + k := f0[n] + f0[m]] && d3 == d0[n := elems + k][m := elems + k]
  }

  lemma PairForest(leaves: seq<nat>, h0: seq<nat>, h1: seq<nat>, h2: seq<nat>, h3: seq<nat>, f0: seq<nat>, f3: seq<nat>,
                   d0: seq<nat>, d3: seq<nat>, depth: seq<nat>, elems: nat, k: nat, len: nat, hmax: nat, n: nat, m: nat)
    requires Pair(leaves, h0, h1, h2, h3, f0, f3, d0, d3, depth, elems, k, len, hmax, n, m)
    ensures Forest(leaves, h3, d3, elems, k + 1, len - 1, hmax - 2)
  {
    PairFacts(leaves, h0, h1, d0, elems, k, len, hmax, n, m);
    MergeStep(leaves, h0, h1, h2, h3, d0, d3, elems, k, len, hmax, n, m);
  }

  lemma PairSorted(leaves: seq<nat>, h0: seq<nat>, h1: seq<nat>, h2: seq<nat>, h3: seq<nat>, f0: seq<nat>, f3: seq<nat>,
                   d0: seq<nat>, d3: seq<nat>, depth: seq<nat>, elems: nat, k: nat, len: nat, hmax: nat, n: nat, m: nat)
    requires Pair(leaves, h0, h1, h2, h3, f0, f3, d0, d3, depth, elems, k, len, hmax, n, m)
    ensures InOrder(multiset(h3[1..(len - 1) + 1]), h3[hmax - 2..], f3)
  {
    assert h3[1..(len - 1) + 1] == h3[1..len];
    PairFacts(leaves, h0, h1, d0, elems, k, len, hmax, n, m);
    HeadIsLeast(h0, len, f0, depth);
    HeadIsLeast(h1, len - 1, f0, depth);
    MiddleKeeps(h3, h2, len - 1);
    PairOrder(h0, h1, h2, h3, f0, f3, len, hmax, n, m, elems + k);
  }

  lemma PairKeeps(leaves: seq<nat>, h0: seq<nat>, h1: seq<nat>, h2: seq<nat>, h3: seq<nat>, f0: seq<nat>, f3: seq<nat>,
                   d0: seq<nat>, d3: seq<nat>, depth: seq<nat>, elems: nat, k: nat, len: nat, hmax: nat, n: nat, m: nat)
    requires Pair(leaves, h0, h1, h2, h3, f0, f3, d0, d3, depth, elems, k, len, hmax, n, m)
    ensures SymbolsKept(leaves, elems, f0, f3, d0, d3)
    ensures len == 2 ==> h3[1] == elems + k
  {
    PairFacts(leaves, h0, h1, d0, elems, k, len, hmax, n, m);
    if len == 2 {
      MiddleKeeps(h3, h2, len - 1);
      assert h3[1..2] == [h3[1]] && h2[1..2] == [elems + k];
      assert h3[1] in multiset(h2[1..2]);
    }
  }

  lemma PairFathers(leaves: seq<nat>, h0: seq<nat>, h1: seq<nat>, h2: seq<nat>, h3: seq<nat>, f0: seq<nat>,
                    f3: seq<nat>, d0: seq<nat>, d3: seq<nat>, depth: seq<nat>, elems: nat, k: nat, len: nat, hmax: nat,
                    n: nat, m: nat)
    requires Pair(leaves, h0, h1, h2, h3, f0, f3, d0, d3, depth, elems, k, len, hmax, n, m)
    ensures Fathers(h3, f3, elems, k + 1)
  {
    PairFacts(leaves, h0, h1, d0, elems, k, len, hmax, n, m);
    PairGone(h0, h1, h2, h3, len, hmax, n, m, elems + k);
    assert hmax + 2 * k == HEAP_SIZE;
    FathersStep(h0, h3, f0, f3, elems, k, hmax, n, m);
  }

  lemma FathersStep(h0: seq<nat>, h3: seq<nat>, f0: seq<nat>, f3: seq<nat>, elems: nat, k: nat, hmax: nat, n: nat,
                    m: nat)
    requires Fathers(h0, f0, elems, k) && |h0| == |h3| == HEAP_SIZE && hmax + 2 * k == HEAP_SIZE && 2 <= hmax
    requires h3[hmax - 2..] == [m, n] + h0[hmax..] && elems + k !in h0[hmax..] && n != elems + k && m != elems + k
    requires n < |f0| && m < |f0| && elems + k < |f0| && f3 == f0[elems + k := f0[n] + f0[m]]
    ensures Fathers(h3, f3, elems, k + 1)
  {
    assert h3[hmax - 2] == h3[hmax - 2..][0] == m && h3[hmax - 1] == h3[hmax - 2..][1] == n;
    forall i: nat | i < k
      ensures FatherSum(h3, f3, elems, i)
    {
      assert FatherSum(h0, f0, elems, i);
      Kept(h0, h3, hmax, m, n, elems + k, HEAP_SIZE - 1 - 2 * i);
      Kept(h0, h3, hmax, m, n, elems + k, HEAP_SIZE - 2 - 2 * i);
    }
  }

  lemma Kept(h0: seq<nat>, h3: seq<nat>, hmax: nat, m: nat, n: nat, node: nat, h: nat)
    requires |h0| == |h3| && 2 <= hmax <= h < |h0| && h3[hmax - 2..] == [m, n] + h0[hmax..] && node !in h0[hmax..]
    ensures h3[h] == h0[h] != node
  {
    assert h3[hmax - 2..][h - hmax + 2] == h3[h] && h0[hmax..][h - hmax] == h0[h];
  }

  lemma PairFacts(leaves: seq<nat>, h0: seq<nat>, h1: seq<nat>, d0: seq<nat>, elems: nat, k: nat, len: nat, hmax: nat,
                  n: nat, m: nat)
    requires Leaves(leaves, elems) && Forest(leaves, h0, d0, elems, k, len, hmax) && 2 <= len
    requires |h1| == HEAP_SIZE && n == h0[1] && m == h1[1]
    requires multiset(h1[1..len]) + multiset{n} == multiset(h0[1..len + 1])
    ensures n < elems + k && m < elems + k && n !in h0[hmax..] && m !in h0[hmax..]
    ensures n in multiset(h0[1..len + 1]) && m in multiset(h1[1..len]) && n != m
    ensures (n < elems ==> n in leaves) && (m < elems ==> m in leaves)
    ensures elems + k !in multiset(h0[1..len + 1]) && elems + k !in h0[hmax..]
    ensures elems + k < 2 * elems && len + 2 < hmax
  {
    assert h1[1..len][0] == m;
    assert m in multiset(h1[1..len]);
    assert n in multiset(h0[1..len + 1]);
    LiveLeaf(leaves, h0, d0, elems, k, len, hmax, n);
    LiveLeaf(leaves, h0, d0, elems, k, len, hmax, m);
    GoneNode(leaves, h0, d0, elems, k, len, hmax);
    NodeOnce(leaves, elems, k, n);
    assert multiset(h0[1..len + 1])[n] <= 1;
    assert multiset(h1[1..len])[n] == 0;
  }

  lemma NewHead(h1: seq<nat>, h2: seq<nat>, len: nat, hmax: nat, n: nat, m: nat, node: nat,
                f0: seq<nat>, f2: seq<nat>, p0: seq<nat>, p2: seq<nat>)
    requires |h1| == HEAP_SIZE && 2 <= len && len + 2 < hmax <= HEAP_SIZE
    requires Nodes(h1, len - 1, f0, p0) && OrderedFrom(h1, len - 1, f0, p0, 1)
    requires h2 == h1[hmax - 1 := n][hmax - 2 := m][1 := node]
    requires node < |f0| && node !in multiset(h1[1..len])
    requires |f2| == |f0| && f2 == f0[node := f2[node]]
    requires node < |p0| == |p2| && p2 == p0[node := p2[node]]
    ensures Nodes(h2, len - 1, f2, p2) && OrderedFrom(h2, len - 1, f2, p2, 2)
  {
    forall i | 2 <= i < len
      ensures h2[i] == h1[i] && h1[i] != node
    {
      assert h1[1..len][i - 1] == h1[i];
      assert h1[i] in multiset(h1[1..len]);
    }
  }

  lemma PairLive(h1: seq<nat>, h2: seq<nat>, len: nat, hmax: nat, n: nat, m: nat, node: nat)
    requires |h1| == HEAP_SIZE && 2 <= len && len + 2 < hmax <= HEAP_SIZE && m == h1[1]
    requires h2 == h1[hmax - 1 := n][hmax - 2 := m][1 := node]
    ensures multiset(h2[1..len]) == (multiset(h1[1..len]) - multiset{m}) + multiset{node}
  {
    var rest := h1[2..len];
    assert h1[1..len] == [m] + rest;
    assert h2[1..len] == [node] + rest;
  }

  lemma PairGone(h0: seq<nat>, h1: seq<nat>, h2: seq<nat>, h3: seq<nat>, len: nat, hmax: nat, n: nat, m: nat, node: nat)
    requires |h0| == |h1| == |h3| == HEAP_SIZE && 2 <= len && len + 2 < hmax <= HEAP_SIZE
    requires forall i :: len <= i < HEAP_SIZE ==> h1[i] == h0[i]
    requires h2 == h1[hmax - 1 := n][hmax - 2 := m][1 := node]
    requires forall i :: len <= i < HEAP_SIZE ==> h3[i] == h2[i]
    ensures h3[hmax - 2..] == [m, n] + h0[hmax..]
  {
    var a, b := h3[hmax - 2..], [m, n] + h0[hmax..];
    forall i | 0 <= i < |a|
      ensures a[i] == b[i]
    {
      assert a[i] == h3[hmax - 2 + i];
      if i >= 2 {
        assert h0[hmax..][i - 2] == h0[hmax - 2 + i];
      }
    }
  }

  lemma PairOrder(h0: seq<nat>, h1: seq<nat>, h2: seq<nat>, h3: seq<nat>, f0: seq<nat>, f3: seq<nat>,
                  len: nat, hmax: nat, n: nat, m: nat, node: nat)
    requires |h0| == |h1| == |h3| == HEAP_SIZE && 2 <= len && len + 2 < hmax <= HEAP_SIZE && m == h1[1]
    requires InOrder(multiset(h0[1..len + 1]), h0[hmax..], f0)
    requires Least(f0, n, multiset(h0[1..len + 1])) && Least(f0, m, multiset(h1[1..len]))
    requires multiset(h1[1..len]) + multiset{n} == multiset(h0[1..len + 1]) && m in multiset(h1[1..len])
    requires forall i :: len <= i < HEAP_SIZE ==> h1[i] == h0[i]
    requires h2 == h1[hmax - 1 := n][hmax - 2 := m][1 := node]
    requires multiset(h3[1..len]) == multiset(h2[1..len])
    requires forall i :: len <= i < HEAP_SIZE ==> h3[i] == h2[i]
    requires node < |f0| && node !in multiset(h0[1..len + 1]) && node !in h0[hmax..] && f3 == f0[node := f0[n] + f0[m]]
    ensures InOrder(multiset(h3[1..len]), h3[hmax - 2..], f3)
  {
    hide InOrder, Least;
    PairLive(h1, h2, len, hmax, n, m, node);
    PairGone(h0, h1, h2, h3, len, hmax, n, m, node);
    OrderStep(multiset(h0[1..len + 1]), multiset(h1[1..len]), multiset(h3[1..len]), h0[hmax..], h3[hmax - 2..], f0, f3,
      n, m, node);
  }

  /** One tree is left: its root is at hmax and its nodes follow, each node's sons
      after it, in order of frequency. */
  ghost predicate Rooted(leaves: seq<nat>, heap: seq<nat>, dl: seq<nat>, elems: nat, hmax: nat) {
    && |heap| == HEAP_SIZE && |leaves| >= 2 && hmax + 2 * |leaves| == HEAP_SIZE + 1 && 2 * elems <= |dl|
    && heap[hmax] == elems + |leaves| - 2
    && multiset(heap[hmax..]) == multiset(leaves) + multiset(Internal(elems, |leaves| - 1))
    && (forall h :: hmax < h < HEAP_SIZE ==> heap[h] < |dl| && dl[heap[h]] == elems + (HEAP_SIZE - 1 - h) / 2)
    && (forall h :: hmax <= h < HEAP_SIZE && heap[h] >= elems ==> h + 2 + 2 * (heap[h] - elems) < HEAP_SIZE)
  }

  ghost predicate ByFrequency(heap: seq<nat>, freq: seq<nat>, hmax: nat) {
    && (forall h :: hmax <= h < |heap| ==> heap[h] < |freq|)
    && (forall g, h :: hmax <= g < h < |heap| ==> freq[heap[h]] <= freq[heap[g]])
  }

  lemma RootPlaced(leaves: seq<nat>, h0: seq<nat>, h1: seq<nat>, dl: seq<nat>, freq: seq<nat>, elems: nat, k: nat,
                   hmax: nat)
    requires Leaves(leaves, elems) && Forest(leaves, h0, dl, elems, k, 1, hmax) && k >= 1
    requires InOrder(multiset(h0[1..2]), h0[hmax..], freq) && |freq| == 2 * elems + 1
    requires h0[1] == elems + k - 1 && h1 == h0[hmax - 1 := h0[1]]
    ensures Rooted(leaves, h1, dl, elems, hmax - 1)
    ensures ByFrequency(h1, freq, hmax - 1)
  {
    assert h0[1..2] == [h0[1]];
    assert h1[hmax - 1..] == [h0[1]] + h0[hmax..];
    RootOnTop(leaves, h0, h1, dl, elems, k, hmax);
    assert hmax <= |h0| && h0[1] < |freq|;
    hide Forest, Rooted, Leaves;
    RootIsMost(h0[hmax..], h1[hmax - 1..], h0[1], freq);
    hide InOrder, MostFirst;
    RootFrequency(h1, h1[hmax - 1..], freq, hmax - 1);
  }

  lemma RootOnTop(leaves: seq<nat>, h0: seq<nat>, h1: seq<nat>, dl: seq<nat>, elems: nat, k: nat, hmax: nat)
    requires Leaves(leaves, elems) && Forest(leaves, h0, dl, elems, k, 1, hmax) && k >= 1
    requires h0[1] == elems + k - 1 && h1 == h0[hmax - 1 := h0[1]]
    requires h0[1..2] == [h0[1]] && h1[hmax - 1..] == [h0[1]] + h0[hmax..]
    ensures Rooted(leaves, h1, dl, elems, hmax - 1)
  {
    hide Leaves;
    RootNodes(h0, h1, hmax, multiset(leaves) + multiset(Internal(elems, k)));
    assert k == |leaves| - 1;
    hide Internal;
    RootBefore(h0, h1, dl, elems, k, hmax);
  }

  lemma RootNodes(h0: seq<nat>, h1: seq<nat>, hmax: nat, all: multiset<nat>)
    requires |h0| == |h1| == HEAP_SIZE && 2 <= hmax <= HEAP_SIZE
    requires h0[1..2] == [h0[1]] && h1[hmax - 1..] == [h0[1]] + h0[hmax..]
    requires multiset(h0[1..2]) + multiset(h0[hmax..]) == all
    ensures multiset(h1[hmax - 1..]) == all
  {
  }

  lemma RootBefore(h0: seq<nat>, h1: seq<nat>, dl: seq<nat>, elems: nat, k: nat, hmax: nat)
    requires |h0| == HEAP_SIZE && hmax + 2 * k == HEAP_SIZE && k >= 1 && 2 <= hmax
    requires h1 == h0[hmax - 1 := elems + k - 1]
    requires forall h :: hmax <= h < HEAP_SIZE ==> h0[h] < |dl| && dl[h0[h]] == elems + (HEAP_SIZE - 1 - h) / 2
    requires forall h :: hmax <= h < HEAP_SIZE && h0[h] >= elems ==> h + 2 + 2 * (h0[h] - elems) < HEAP_SIZE
    ensures forall h :: hmax - 1 < h < HEAP_SIZE ==> h1[h] < |dl| && dl[h1[h]] == elems + (HEAP_SIZE - 1 - h) / 2
    ensures forall h :: hmax - 1 <= h < HEAP_SIZE && h1[h] >= elems ==> h + 2 + 2 * (h1[h] - elems) < HEAP_SIZE
  {
  }

  /** Nodes by falling frequency. */
  ghost predicate MostFirst(nodes: seq<nat>, freq: seq<nat>) {
    && (forall i :: 0 <= i < |nodes| ==> nodes[i] < |freq|)
    && (forall i, j :: 0 <= i < j < |nodes| ==> freq[nodes[j]] <= freq[nodes[i]])
  }

  lemma RootIsMost(done: seq<nat>, all: seq<nat>, root: nat, freq: seq<nat>)
    requires InOrder(multiset([root]), done, freq) && all == [root] + done && root < |freq|
    ensures MostFirst(all, freq)
  {
    assert root in multiset([root]);
    forall i, j | 0 <= i < j < |all|
      ensures freq[all[j]] <= freq[all[i]]
    {
      assert all[j] == done[j - 1];
      if i == 0 {
        assert Least(freq, done[j - 1], multiset([root]));
      } else {
        assert all[i] == done[i - 1];
      }
    }
  }

  lemma RootFrequency(heap: seq<nat>, nodes: seq<nat>, freq: seq<nat>, hmax: nat)
    requires hmax <= |heap| && nodes == heap[hmax..] && MostFirst(nodes, freq)
    ensures ByFrequency(heap, freq, hmax)
  {
    forall h | hmax <= h < |heap|
      ensures heap[h] == nodes[h - hmax]
    {
    }
    forall g, h | hmax <= g < h < |heap|
      ensures freq[heap[h]] <= freq[heap[g]]
    {
      assert heap[h] == nodes[h - hmax] && heap[g] == nodes[g - hmax];
    }
  }

  /** Construct the Huffman tree by repeatedly combining the least two frequent nodes. */
  method MergeAll(heap: array<nat>, fc: array<nat>, dl: array<nat>, depth: array<nat>, elems: nat, len0: nat,
                  ghost leaves: seq<nat>)
      returns (hmax: nat)
    requires heap != fc && heap != dl && heap != depth && fc != dl && fc != depth && dl != depth
    requires len0 == |leaves| >= 2 && Merging(leaves, heap[..], dl[..], fc[..], depth[..], elems, 0, len0, HEAP_SIZE)
    modifies heap, fc, dl, depth
    ensures Rooted(leaves, heap[..], dl[..], elems, hmax)
    ensures ByFrequency(heap[..], fc[..], hmax) && Fathers(heap[..], fc[..], elems, |leaves| - 1)
    ensures SymbolsKept(leaves, elems, old(fc[..]), fc[..], old(dl[..]), dl[..])
  {
    var len: nat, k: nat := len0, 0;
    hmax := HEAP_SIZE;
    while true
      invariant 2 <= len
      invariant Merging(leaves, heap[..], dl[..], fc[..], depth[..], elems, k, len, hmax)
      invariant SymbolsKept(leaves, elems, old(fc[..]), fc[..], old(dl[..]), dl[..])
      decreases len
    {
      ghost var f1, d1 := fc[..], dl[..];
      k, len, hmax := MergePair(heap, fc, dl, depth, elems, k, len, hmax, leaves);
      KeptTwice(leaves, elems, old(fc[..]), f1, fc[..], old(dl[..]), d1, dl[..]);
      if len < 2 {
        break;
      }
    }
    hmax := PlaceRoot(heap, dl[..], fc[..], hmax, leaves, elems, k, depth[..]);
  }

  lemma KeptTwice(leaves: seq<nat>, elems: nat, f0: seq<nat>, f1: seq<nat>, f2: seq<nat>, d0: seq<nat>, d1: seq<nat>,
                  d2: seq<nat>)
    requires SymbolsKept(leaves, elems, f0, f1, d0, d1) && SymbolsKept(leaves, elems, f1, f2, d1, d2)
    ensures SymbolsKept(leaves, elems, f0, f2, d0, d2)
  {
  }

  method PlaceRoot(heap: array<nat>, ghost dl: seq<nat>, ghost freq: seq<nat>, hmax: nat, ghost leaves: seq<nat>,
                   ghost elems: nat, ghost k: nat, ghost depth: seq<nat>) returns (hmax2: nat)
    requires Merging(leaves, heap[..], dl, freq, depth, elems, k, 1, hmax) && k >= 1 && heap[1] == elems + k - 1
    modifies heap
    ensures Rooted(leaves, heap[..], dl, elems, hmax2)
    ensures ByFrequency(heap[..], freq, hmax2) && Fathers(heap[..], freq, elems, |leaves| - 1)
  {
    assert heap.Length == HEAP_SIZE && 1 < hmax <= HEAP_SIZE && k == |leaves| - 1 && hmax + 2 * k == HEAP_SIZE;
    hide Forest, Nodes, OrderedFrom, InOrder, Leaves, Rooted, ByFrequency, Fathers;
    ghost var h0 := heap[..];
    hmax2 := hmax - 1;
    heap[hmax2] := heap[1];
    FathersBehind(h0, heap[..], freq, elems, k, hmax2);
    RootPlaced(leaves, h0, heap[..], dl, freq, elems, k, hmax);
  }

  lemma FathersBehind(h0: seq<nat>, h1: seq<nat>, freq: seq<nat>, elems: nat, k: nat, h: nat)
    requires Fathers(h0, freq, elems, k) && h + 2 * k < HEAP_SIZE == |h0| == |h1| && h1 == h0[h := h1[h]]
    ensures Fathers(h1, freq, elems, k)
  {
    forall i: nat | i < k
      ensures FatherSum(h1, freq, elems, i)
    {
      assert FatherSum(h0, freq, elems, i);
    }
  }

  // ---- The initial heap ----

  /** Force at least two symbols of a frequency. */
  method ForceTwo(heap: array<nat>, fc: array<nat>, dl: array<nat>, depth: array<nat>, elems: nat, len0: nat,
                  maxCode0: int, desc: Desc, sizes0: Sizes, ghost leaves0: seq<nat>)
      returns (len: nat, maxCode: int, sizes: Sizes, ghost leaves: seq<nat>)
    requires heap != fc && heap != dl && heap != depth && fc != dl && fc != depth && dl != depth
    requires heap.Length == depth.Length == HEAP_SIZE && fc.Length == dl.Length == 2 * elems + 1
    requires 3 <= elems && 2 * elems < HEAP_SIZE && len0 == |leaves0| <= elems
    requires Collected(heap[..], leaves0, fc[..], dl[..], elems, maxCode0) && desc.For(elems)
    modifies heap, fc, depth
    ensures 2 <= len == |leaves| <= elems && Collected(heap[..], leaves, fc[..], dl[..], elems, maxCode)
    ensures Forced(old(fc[..]), fc[..], elems, len) && Lowered(desc, sizes0, sizes, old(fc[..elems]), fc[..elems])
  {
    hide Collected, Lowered, Desc.For;
    len, maxCode, sizes, leaves := len0, maxCode0, sizes0, leaves0;
    ghost var f0 := fc[..];
    NotLowered(desc, sizes0, fc[..elems]);
    while len < 2
      invariant len == |leaves| <= elems
      invariant Collected(heap[..], leaves, fc[..], dl[..], elems, maxCode)
      invariant Forced(f0, fc[..], elems, len) && Lowered(desc, sizes0, sizes, f0[..elems], fc[..elems])
      decreases 2 - len
    {
      CollectedSizes(heap[..], leaves, fc[..], dl[..], elems, maxCode);
      var node: nat := 0;
      ghost var h1, f1, m1 := heap[..], fc[..], maxCode;
      if maxCode < 2 {
        maxCode := maxCode + 1;
        node := maxCode;
      }
      len := len + 1;
      heap[len] := node;
      fc[node] := 1;
      depth[node] := 0;
      CollectForced(h1, leaves, f1, dl[..], elems, m1, node);
      sizes := Lower(desc, sizes, node, sizes0, f0[..elems], f1[..elems]);
      leaves := leaves + [node];
      assert fc[..elems] == f1[..elems][node := 1];
    }
  }

  lemma CollectedSizes(heap: seq<nat>, leaves: seq<nat>, freq: seq<nat>, dl: seq<nat>, n: nat, maxCode: int)
    requires Collected(heap, leaves, freq, dl, n, maxCode)
    ensures -1 <= maxCode < n && (leaves == [] <==> maxCode == -1)
  {
  }

  /** The initial heap: the symbols with a frequency, and as many more of the first
      symbols as it takes to have two. */
  method InitHeap(heap: array<nat>, fc: array<nat>, dl: array<nat>, depth: array<nat>, elems: nat,
                  desc: Desc, sizes0: Sizes)
      returns (len: nat, maxCode: int, sizes: Sizes, ghost leaves: seq<nat>)
    requires heap != fc && heap != dl && heap != depth && fc != dl && fc != depth && dl != depth
    requires heap.Length == depth.Length == HEAP_SIZE && fc.Length == dl.Length == 2 * elems + 1
    requires 3 <= elems && 2 * elems < HEAP_SIZE && desc.For(elems)
    modifies heap, fc, dl, depth
    ensures len == |leaves| >= 2 && Leaves(leaves, elems)
    ensures heap[1..len + 1] == leaves
    ensures forall s :: 0 <= s < elems ==> (s in leaves <==> fc[s] != 0)
    ensures forall s :: 0 <= s < elems && s !in leaves ==> dl[s] == 0
    ensures Forced(old(fc[..]), fc[..], elems, len) && Lowered(desc, sizes0, sizes, old(fc[..elems]), fc[..elems])
    ensures maxCode in leaves && forall s :: s in leaves ==> s <= maxCode
  {
    len, maxCode := 0, -1;
    leaves := [];
    var n := 0;
    while n < elems
      invariant 0 <= n <= elems && len == |leaves| <= n
      invariant Collected(heap[..], leaves, fc[..], dl[..], n, maxCode)
      invariant fc[..] == old(fc[..])
    {
      ghost var h0, d0 := heap[..], dl[..];
      if fc[n] != 0 {
        len := len + 1;
        heap[len] := n;
        CollectUsed(h0, leaves, fc[..], d0, n, maxCode);
        maxCode := n;
        depth[n] := 0;
        leaves := leaves + [n];
      } else {
        dl[n] := 0;
        CollectUnused(h0, leaves, fc[..], d0, n, maxCode);
      }
      n := n + 1;
    }
    ghost var f0, l0, m0 := fc[..], leaves, maxCode;
    len, maxCode, sizes, leaves := ForceTwo(heap, fc, dl, depth, elems, len, maxCode, desc, sizes0, leaves);
    assert heap[1..len + 1] == leaves;
  }

  /** Only symbols among the first three that were not in use were given a frequency, and only
      to make two. */
  ghost predicate Forced(f0: seq<nat>, f1: seq<nat>, elems: nat, len: nat) {
    && |f0| == |f1| >= elems
    && forall s :: 0 <= s < elems && f1[s] != f0[s] ==> f0[s] == 0 && f1[s] == 1 && s < 3 && len <= 2
  }

  lemma CollectUsed(heap: seq<nat>, leaves: seq<nat>, freq: seq<nat>, dl: seq<nat>, n: nat, maxCode: int)
    requires Collected(heap, leaves, freq, dl, n, maxCode) && n < |freq| && n < |dl| && freq[n] != 0
    requires |leaves| + 1 < |heap|
    ensures Collected(heap[|leaves| + 1 := n], leaves + [n], freq, dl, n + 1, n)
  {
    var l := leaves + [n];
    assert forall s :: s in l <==> s in leaves || s == n;
  }

  lemma CollectUnused(heap: seq<nat>, leaves: seq<nat>, freq: seq<nat>, dl: seq<nat>, n: nat, maxCode: int)
    requires Collected(heap, leaves, freq, dl, n, maxCode) && n < |freq| && n < |dl| && freq[n] == 0
    ensures Collected(heap, leaves, freq, dl[n := 0], n + 1, maxCode)
  {
  }

  /** With at most one symbol in use, the forced one is not in use yet. */
  lemma CollectForced(heap: seq<nat>, leaves: seq<nat>, freq: seq<nat>, dl: seq<nat>, elems: nat, maxCode: int,
                      node: nat)
    requires Collected(heap, leaves, freq, dl, elems, maxCode) && 3 <= elems
    requires |leaves| < 2 && |leaves| + 1 < |heap|
    requires node == if maxCode < 2 then maxCode + 1 else 0
    ensures node < elems && node < 3 && freq[node] == 0
    ensures Collected(heap[|leaves| + 1 := node], leaves + [node], freq[node := 1], dl, elems,
                      if maxCode < 2 then maxCode + 1 else maxCode)
  {
    var l := leaves + [node];
    assert node !in leaves;
    assert forall s :: s in l <==> s in leaves || s == node;
  }

  /** The symbols below n that have a frequency are collected as leaves. */
  ghost predicate Collected(heap: seq<nat>, leaves: seq<nat>, freq: seq<nat>, dl: seq<nat>, n: nat, maxCode: int) {
    && |leaves| < |heap| && n <= |freq| && n <= |dl|
    && (forall i :: 0 <= i < |leaves| ==> heap[i + 1] == leaves[i] < n)
    && (forall i, j :: 0 <= i < j < |leaves| ==> leaves[i] != leaves[j])
    && (forall s :: 0 <= s < n ==> (s in leaves <==> freq[s] != 0))
    && (forall s :: 0 <= s < n && s !in leaves ==> dl[s] == 0)
    && (if leaves == [] then maxCode == -1 else maxCode in leaves)
    && (forall s :: s in leaves ==> s <= maxCode)
  }
}
