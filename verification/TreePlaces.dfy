/** trees.c: where the nodes of a finished tree stand in the heap. */
module TreePlaces {
  import opened TreeHeap
  import opened TreeMerge

  /** The internal node whose sons stand at position h of the heap. */
  function FatherAt(elems: nat, h: nat): nat
    requires h < HEAP_SIZE
  {
    elems + (HEAP_SIZE - 1 - h) / 2
  }

  /** The node x was handled before position h. */
  ghost predicate Handled(heap: seq<nat>, hmax: nat, h: nat, x: nat)
    requires hmax <= h <= |heap|
  {
    x in heap[hmax..h]
  }

  /** A father is handled before its sons. */
  lemma FatherFirst(leaves: seq<nat>, heap: seq<nat>, dl: seq<nat>, elems: nat, hmax: nat, h: nat)
    requires Leaves(leaves, elems) && Rooted(leaves, heap, dl, elems, hmax) && hmax < h < HEAP_SIZE
    ensures Handled(heap, hmax, h, FatherAt(elems, h))
  {
    var j := (HEAP_SIZE - 1 - h) / 2;
    var f := elems + j;
    assert Internal(elems, |leaves| - 1)[j] == f;
    assert f in multiset(heap[hmax..]);
    assert f in heap[hmax..];
    var i :| 0 <= i < |heap[hmax..]| && heap[hmax..][i] == f;
    assert heap[hmax + i] == f;
    assert heap[hmax..h][i] == f;
  }

  /** Nodes occur once. */
  lemma OncePlaced(leaves: seq<nat>, heap: seq<nat>, dl: seq<nat>, elems: nat, hmax: nat, g: nat, h: nat)
    requires Leaves(leaves, elems) && Rooted(leaves, heap, dl, elems, hmax) && hmax <= g < h < HEAP_SIZE
    ensures heap[g] != heap[h]
  {
    var all := heap[hmax..];
    if heap[g] == heap[h] {
      assert all == all[..h - hmax] + all[h - hmax..];
      assert all[..h - hmax][g - hmax] == heap[g];
      assert all[h - hmax..][0] == heap[g];
      assert heap[g] in multiset(all[..h - hmax]) && heap[g] in multiset(all[h - hmax..]);
      assert multiset(all)[heap[g]] >= 2;
      NodeOnce(leaves, elems, |leaves| - 1, heap[g]);
    }
  }

  lemma IsNode(leaves: seq<nat>, heap: seq<nat>, dl: seq<nat>, elems: nat, hmax: nat, h: nat)
    requires Leaves(leaves, elems) && Rooted(leaves, heap, dl, elems, hmax) && hmax <= h < HEAP_SIZE
    ensures heap[h] < elems + |leaves| - 1
    ensures heap[h] < elems ==> heap[h] in leaves
  {
    assert heap[hmax..][h - hmax] == heap[h];
    assert heap[h] in multiset(heap[hmax..]);
    NodeOnce(leaves, elems, |leaves| - 1, heap[h]);
    assert heap[h] < elems ==> heap[h] !in Internal(elems, |leaves| - 1);
  }

  lemma LeafPlaced(leaves: seq<nat>, heap: seq<nat>, dl: seq<nat>, elems: nat, hmax: nat, s: nat)
    requires Rooted(leaves, heap, dl, elems, hmax) && s in leaves
    ensures Handled(heap, hmax, HEAP_SIZE, s)
  {
    assert s in multiset(leaves);
    assert heap[hmax..HEAP_SIZE] == heap[hmax..];
    assert s in multiset(heap[hmax..]);
  }

  /** The positions of the sons of internal node x. */
  lemma SonsAt(elems: nat, x: nat, g: nat)
    requires elems <= x && 2 * (x - elems) + 2 <= HEAP_SIZE && g < HEAP_SIZE
    ensures FatherAt(elems, g) == x <==> g == HEAP_SIZE - 1 - 2 * (x - elems) || g == HEAP_SIZE - 2 - 2 * (x - elems)
  {
  }

  lemma HandledNext(heap: seq<nat>, hmax: nat, h: nat, y: nat)
    requires hmax <= h < |heap|
    ensures Handled(heap, hmax, h + 1, y) <==> Handled(heap, hmax, h, y) || y == heap[h]
  {
    assert heap[hmax..h + 1] == heap[hmax..h] + [heap[h]];
  }

  lemma XNotHandled(leaves: seq<nat>, heap: seq<nat>, d0: seq<nat>, elems: nat, hmax: nat, h: nat)
    requires Leaves(leaves, elems) && Rooted(leaves, heap, d0, elems, hmax) && hmax <= h < HEAP_SIZE
    ensures !Handled(heap, hmax, h, heap[h])
  {
    if Handled(heap, hmax, h, heap[h]) {
      var i :| 0 <= i < |heap[hmax..h]| && heap[hmax..h][i] == heap[h];
      OncePlaced(leaves, heap, d0, elems, hmax, hmax + i, h);
    }
  }
}
