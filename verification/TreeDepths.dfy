/** trees.c: how deep a Huffman tree can be. */
module TreeDepths {
  import opened TreeHeap
  import opened TreeMerge
  import opened TreePlaces

  function Fib(n: nat): nat {
    if n < 2 then n else Fib(n - 1) + Fib(n - 2)
  }

  /** The nodes before position h are one longer than their fathers. */
  ghost predicate Exact(heap: seq<nat>, dl: seq<nat>, elems: nat, hmax: nat, h: nat) {
    && hmax < h <= HEAP_SIZE == |heap| && heap[hmax] < |dl| && dl[heap[hmax]] == 0
    && forall g :: hmax < g < h ==>
         heap[g] < |dl| && FatherAt(elems, g) < |dl| && dl[heap[g]] == dl[FatherAt(elems, g)] + 1
  }

  /** A tree with its frequencies. */
  ghost predicate Weighed(leaves: seq<nat>, heap: seq<nat>, d0: seq<nat>, freq: seq<nat>, elems: nat, hmax: nat) {
    && Leaves(leaves, elems) && Rooted(leaves, heap, d0, elems, hmax)
    && ByFrequency(heap, freq, hmax) && Fathers(heap, freq, elems, |leaves| - 1)
    && forall s :: s in leaves ==> s < |freq| && freq[s] > 0
  }

  /** Every node has a frequency, the last one being a symbol. */
  lemma AllPositive(leaves: seq<nat>, heap: seq<nat>, d0: seq<nat>, freq: seq<nat>, elems: nat, hmax: nat, g: nat)
    requires Weighed(leaves, heap, d0, freq, elems, hmax) && hmax <= g < HEAP_SIZE
    ensures heap[g] < |freq| && freq[heap[g]] > 0
  {
    var h := HEAP_SIZE - 1;
    assert heap[h] < elems;
    IsNode(leaves, heap, d0, elems, hmax, h);
  }

  /** A father is as frequent as one of its sons and any node after that together. */
  lemma FatherWeighs(leaves: seq<nat>, heap: seq<nat>, d0: seq<nat>, freq: seq<nat>, elems: nat, hmax: nat,
                     g: nat, h: nat)
    requires Weighed(leaves, heap, d0, freq, elems, hmax) && hmax < g < h < HEAP_SIZE
    ensures var f := FatherAt(elems, g);
      f < |freq| && heap[g] < |freq| && heap[h] < |freq| && freq[f] >= freq[heap[g]] + freq[heap[h]]
  {
    var i := (HEAP_SIZE - 1 - g) / 2;
    assert FatherSum(heap, freq, elems, i);
    var other := if g == HEAP_SIZE - 1 - 2 * i then g - 1 else g + 1;
    assert freq[FatherAt(elems, g)] == freq[heap[g]] + freq[heap[other]];
  }

  lemma PlaceOf(heap: seq<nat>, hmax: nat, h: nat, x: nat) returns (g: nat)
    requires hmax <= h <= |heap| && Handled(heap, hmax, h, x)
    ensures hmax <= g < h && heap[g] == x
  {
    var i :| 0 <= i < |heap[hmax..h]| && heap[hmax..h][i] == x;
    g := hmax + i;
  }

  lemma FibStep(b: nat, q: nat, p: nat, x: nat)
    requires b >= 2 && q >= p + x
    ensures Fib(b - 1) * q + Fib(b - 2) * p >= Fib(b) * p + Fib(b - 1) * x
  {
    var a := Fib(b - 1);
    assert a * (q - p - x) >= 0;
    assert Fib(b) * p == a * p + Fib(b - 2) * p;
  }

  /** Frequencies grow at least as fast as Fibonacci numbers towards the root. */
  lemma {:induction false} DepthWeighs(leaves: seq<nat>, heap: seq<nat>, d0: seq<nat>, dl: seq<nat>, freq: seq<nat>,
                                       elems: nat, hmax: nat, h: nat, g: nat)
    requires Weighed(leaves, heap, d0, freq, elems, hmax) && Exact(heap, dl, elems, hmax, h) && hmax < g < h
    ensures var f, x := FatherAt(elems, g), heap[g];
      && f < |freq| && x < |freq| && x < |dl| && dl[x] > 0 && heap[hmax] < |freq|
      && freq[heap[hmax]] >= Fib(dl[x]) * freq[f] + Fib(dl[x] - 1) * freq[x]
    decreases g
  {
    hide Fib;
    var f, x := FatherAt(elems, g), heap[g];
    FatherFirst(leaves, heap, d0, elems, hmax, g);
    var p := PlaceOf(heap, hmax, g, f);
    if p == hmax {
      FibStart();
    } else {
      DepthWeighs(leaves, heap, d0, dl, freq, elems, hmax, h, p);
      FatherWeighs(leaves, heap, d0, freq, elems, hmax, p, g);
      FibStep(dl[x], freq[FatherAt(elems, p)], freq[f], freq[x]);
    }
  }

  lemma FibStart()
    ensures Fib(1) == 1 && Fib(0) == 0
  {
  }

  lemma FibTop(b: nat, q: nat, p: nat)
    requires b > 0 && p >= 2 && q >= 3
    ensures Fib(b) * q + Fib(b - 1) * p >= Fib(b + 3)
  {
    assert Fib(b + 3) == 3 * Fib(b) + 2 * Fib(b - 1);
    AtLeast(Fib(b), q, 3);
    AtLeast(Fib(b - 1), p, 2);
  }

  lemma AtLeast(a: nat, q: nat, n: nat)
    requires q >= n
    ensures a * q >= n * a
  {
    assert a * q == n * a + a * (q - n);
  }

  /** A tree that is deeper than max has many symbols in it. */
  lemma TooDeep(leaves: seq<nat>, heap: seq<nat>, d0: seq<nat>, dl: seq<nat>, freq: seq<nat>, elems: nat, hmax: nat,
                h: nat, max: nat)
    requires Weighed(leaves, heap, d0, freq, elems, hmax) && Exact(heap, dl, elems, hmax, h) && h < HEAP_SIZE
    requires max > 0 && FatherAt(elems, h) < |dl| && dl[FatherAt(elems, h)] == max
    ensures |leaves| > 2 && heap[hmax] < |freq| && freq[heap[hmax]] >= Fib(max + 3)
  {
    hide Fib;
    var f := FatherAt(elems, h);
    FatherFirst(leaves, heap, d0, elems, hmax, h);
    var g := PlaceOf(heap, hmax, h, f);
    DepthWeighs(leaves, heap, d0, dl, freq, elems, hmax, h, g);
    FatherWeighs(leaves, heap, d0, freq, elems, hmax, g, h);
    AllPositive(leaves, heap, d0, freq, elems, hmax, h);
    TwoSons(leaves, heap, d0, freq, elems, hmax, h);
    FibTop(max, freq[FatherAt(elems, g)], freq[f]);
    IsNode(leaves, heap, d0, elems, hmax, g);
    OncePlaced(leaves, heap, d0, elems, hmax, hmax, g);
  }

  lemma TwoSons(leaves: seq<nat>, heap: seq<nat>, d0: seq<nat>, freq: seq<nat>, elems: nat, hmax: nat, h: nat)
    requires Weighed(leaves, heap, d0, freq, elems, hmax) && hmax < h < HEAP_SIZE
    ensures FatherAt(elems, h) < |freq| && freq[FatherAt(elems, h)] >= 2
  {
    var i := (HEAP_SIZE - 1 - h) / 2;
    assert FatherSum(heap, freq, elems, i);
    AllPositive(leaves, heap, d0, freq, elems, hmax, HEAP_SIZE - 1 - 2 * i);
    AllPositive(leaves, heap, d0, freq, elems, hmax, HEAP_SIZE - 2 - 2 * i);
  }

  /** The next node. */
  lemma ExactNext(leaves: seq<nat>, heap: seq<nat>, d0: seq<nat>, dl: seq<nat>, elems: nat, hmax: nat, h: nat, x: nat)
    requires Leaves(leaves, elems) && Rooted(leaves, heap, d0, elems, hmax) && Exact(heap, dl, elems, hmax, h)
    requires h < HEAP_SIZE && x == heap[h] && x < |dl| && FatherAt(elems, h) < |dl|
    ensures Exact(heap, dl[x := dl[FatherAt(elems, h)] + 1], elems, hmax, h + 1)
  {
    var d2 := dl[x := dl[FatherAt(elems, h)] + 1];
    OncePlaced(leaves, heap, d0, elems, hmax, hmax, h);
    forall g | hmax < g <= h
      ensures heap[g] < |d2| && FatherAt(elems, g) < |d2| && d2[heap[g]] == d2[FatherAt(elems, g)] + 1
    {
      FatherFirst(leaves, heap, d0, elems, hmax, g);
      var p := PlaceOf(heap, hmax, g, FatherAt(elems, g));
      OncePlaced(leaves, heap, d0, elems, hmax, p, h);
      if g < h {
        OncePlaced(leaves, heap, d0, elems, hmax, g, h);
      }
    }
  }
}
