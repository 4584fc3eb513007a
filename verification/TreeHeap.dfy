/** trees.c: the heap that build_tree takes the two least frequent nodes from. */
module TreeHeap {

  const HEAP_SIZE := 573

  /** The order of the heap: by frequency, with the tree depth as tie breaker. */
  predicate Smaller(freq: seq<nat>, depth: seq<nat>, n: nat, m: nat)
    requires n < |freq| && m < |freq| && n < |depth| && m < |depth|
  {
    freq[n] < freq[m] || (freq[n] == freq[m] && depth[n] <= depth[m])
  }

  /** heap[1..len] holds tree nodes. */
  ghost predicate Nodes(heap: seq<nat>, len: nat, freq: seq<nat>, depth: seq<nat>) {
    && len < |heap| && |freq| <= |depth|
    && forall i :: 1 <= i <= len ==> heap[i] < |freq|
  }

  /** Every father from index k on is smaller than its sons. */
  ghost predicate OrderedFrom(heap: seq<nat>, len: nat, freq: seq<nat>, depth: seq<nat>, k: nat)
    requires Nodes(heap, len, freq, depth)
  {
    forall j :: 2 <= j <= len && k <= j / 2 ==> Smaller(freq, depth, heap[j / 2], heap[j])
  }

  /** Ordered from `top` on but for the hole at k, which is to be filled by v or by
      a son; v is not smaller than the fathers above the hole. */
  ghost predicate OrderedHole(heap: seq<nat>, len: nat, freq: seq<nat>, depth: seq<nat>, top: nat, k: nat, v: nat)
    requires Nodes(heap, len, freq, depth) && v < |freq| && 1 <= top <= k <= len
  {
    && (forall j :: 2 <= j <= len && top <= j / 2 && j / 2 != k && j != k ==>
         Smaller(freq, depth, heap[j / 2], heap[j]))
    && (k > 1 && top <= k / 2 ==> Smaller(freq, depth, heap[k / 2], v))
    && (k > 1 && top <= k / 2 ==> forall j :: 2 <= j <= len && j / 2 == k ==>
         Smaller(freq, depth, heap[k / 2], heap[j]))
  }

  lemma HoleStep(heap: seq<nat>, heap2: seq<nat>, len: nat, freq: seq<nat>, depth: seq<nat>, top: nat, k: nat, j: nat,
                 v: nat)
    requires Nodes(heap, len, freq, depth) && v < |freq| && 1 <= top <= k && k == j / 2 && 2 <= j <= len
    requires OrderedHole(heap, len, freq, depth, top, k, v)
    requires forall i :: 2 <= i <= len && i / 2 == k ==> Smaller(freq, depth, heap[j], heap[i])
    requires Smaller(freq, depth, heap[j], v)
    requires heap2 == heap[k := heap[j]]
    ensures OrderedHole(heap2, len, freq, depth, top, j, v)
  {
    forall i | 2 <= i <= len && top <= i / 2 && i / 2 != j && i != j
      ensures Smaller(freq, depth, heap2[i / 2], heap2[i])
    {
      if i == k {
        assert Smaller(freq, depth, heap[k / 2], heap[j]);
      }
    }
    forall i | 2 <= i <= len && i / 2 == j
      ensures Smaller(freq, depth, heap2[j / 2], heap2[i])
    {
      assert Smaller(freq, depth, heap[i / 2], heap[i]);
    }
  }

  lemma HoleFilled(heap: seq<nat>, len: nat, freq: seq<nat>, depth: seq<nat>, top: nat, k: nat, v: nat)
    requires Nodes(heap, len, freq, depth) && v < |freq| && 1 <= top <= k <= len
    requires OrderedHole(heap, len, freq, depth, top, k, v)
    requires forall i :: 2 <= i <= len && i / 2 == k ==> Smaller(freq, depth, v, heap[i])
    ensures OrderedFrom(heap[k := v], len, freq, depth, top)
  {
  }

  /** Moving a node up into the hole and the hole down to where it was. */
  lemma MoveKeeps(heap: seq<nat>, k: nat, j: nat, v: nat)
    requires k < |heap| && j < |heap|
    ensures multiset(heap[k := heap[j]][j := v]) == multiset(heap[k := v])
  {
    var a := heap[k := v];
    if k != j {
      assert heap[k := heap[j]][j := v] == a[k := a[j]][j := a[k]];
      SwapKeeps(a, k, j);
    } else {
      assert heap[k := heap[j]][j := v] == a;
    }
  }

  lemma SwapKeeps(a: seq<nat>, i: nat, j: nat)
    requires i < |a| && j < |a|
    ensures multiset(a[i := a[j]][j := a[i]]) == multiset(a)
  {
  }

  /** Restore the heap order below node k, whose sons are heads of ordered heaps. */
  method PqDownHeap(heap: array<nat>, len: nat, freq: seq<nat>, depth: seq<nat>, k0: nat)
    requires 1 <= k0 <= len
    requires Nodes(heap[..], len, freq, depth) && OrderedFrom(heap[..], len, freq, depth, k0 + 1)
    modifies heap
    ensures Nodes(heap[..], len, freq, depth) && OrderedFrom(heap[..], len, freq, depth, k0)
    ensures multiset(heap[..]) == old(multiset(heap[..]))
    ensures heap[0] == old(heap[0])
    ensures forall i :: len < i < heap.Length ==> heap[i] == old(heap[i])
  {
    var k := k0;
    var v := heap[k];
    ghost var h0 := heap[..];
    assert h0 == h0[k := v];
    while 2 * k <= len
      invariant k0 <= k <= len
      invariant Sifted(h0, heap[..], len, freq, depth, k0, k, v)
      decreases len - k
    {
      var j := SmallestSon(heap, len, freq, depth, k);
      if Smaller(freq, depth, v, heap[j]) {
        break;
      }
      ghost var h1 := heap[..];
      heap[k] := heap[j];
      SiftStep(h0, h1, heap[..], len, freq, depth, k0, k, j, v);
      k := j;
    }
    HoleFilled(heap[..], len, freq, depth, k0, k, v);
    heap[k] := v;
  }

  /** The heap h is h0 rearranged, with the hole at k for v. */
  ghost predicate Sifted(h0: seq<nat>, h: seq<nat>, len: nat, freq: seq<nat>, depth: seq<nat>, top: nat, k: nat, v: nat)
    requires 1 <= top <= k <= len && |h| > 0
  {
    && |h| == |h0| && v < |freq|
    && Nodes(h, len, freq, depth) && OrderedHole(h, len, freq, depth, top, k, v)
    && multiset(h[k := v]) == multiset(h0)
    && h[0] == h0[0]
    && forall i :: len < i < |h| ==> h[i] == h0[i]
  }

  lemma SiftStep(h0: seq<nat>, h1: seq<nat>, h2: seq<nat>, len: nat, freq: seq<nat>, depth: seq<nat>, top: nat, k: nat,
                 j: nat, v: nat)
    requires 1 <= top <= k <= len && k == j / 2 && 2 <= j <= len && |h1| > 0
    requires Sifted(h0, h1, len, freq, depth, top, k, v)
    requires forall i :: 2 <= i <= len && i / 2 == k ==> Smaller(freq, depth, h1[j], h1[i])
    requires Smaller(freq, depth, h1[j], v)
    requires h2 == h1[k := h1[j]]
    ensures Sifted(h0, h2, len, freq, depth, top, j, v)
  {
    MoveKeeps(h1, k, j, v);
    HoleStep(h1, h2, len, freq, depth, top, k, j, v);
  }

  method SmallestSon(heap: array<nat>, len: nat, freq: seq<nat>, depth: seq<nat>, k: nat) returns (j: nat)
    requires 1 <= k && 2 * k <= len && Nodes(heap[..], len, freq, depth)
    ensures 2 <= j <= len && j / 2 == k
    ensures forall i :: 2 <= i <= len && i / 2 == k ==> Smaller(freq, depth, heap[j], heap[i])
  {
    j := k * 2;
    if j < len && Smaller(freq, depth, heap[j + 1], heap[j]) {
      j := j + 1;
    }
    SonsOf(len, k);
  }

  lemma SonsOf(len: nat, k: nat)
    ensures forall i :: 2 <= i <= len && i / 2 == k ==> i == 2 * k || i == 2 * k + 1
  {
  }

  /** The first element of an ordered heap is a smallest one. */
  lemma {:induction false} FirstIsSmallest(heap: seq<nat>, len: nat, freq: seq<nat>, depth: seq<nat>, i: nat)
    requires Nodes(heap, len, freq, depth) && OrderedFrom(heap, len, freq, depth, 1) && 1 <= i <= len
    ensures Smaller(freq, depth, heap[1], heap[i])
    decreases i
  {
    if i > 1 {
      FirstIsSmallest(heap, len, freq, depth, i / 2);
      assert Smaller(freq, depth, heap[i / 2], heap[i]);
    }
  }
}
