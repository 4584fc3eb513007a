/** trees.c: code lengths from the tree, limited to a maximum. */
module TreeLengths {
  import opened Bits
  import opened Canonical
  import opened Sums
  import opened TreeHeap
  import opened TreeMerge
  import opened TreePlaces
  import opened TreeSizes
  import opened TreeDepths

  /** The share of a code of length l at depth m: 2^(m - l), or nothing below m. */
  function Share(m: nat, l: nat): nat {
    if l <= m then Pow2(m - l) else 0
  }

  lemma ShareHalves(m: nat, l: nat)
    ensures l < m ==> Share(m, l) == 2 * Share(m, l + 1)
    ensures Share(m, l) >= 2 * Share(m, l + 1)
  {
  }

  // ---- Giving one symbol a length ----

  lemma {:induction false} CountUpdate(lens: seq<nat>, s: nat, b: nat, l: nat)
    requires s < |lens| && lens[s] == 0 && b > 0 && l > 0
    ensures Count(lens[s := b], l) == Count(lens, l) + if l == b then 1 else 0
  {
    var m := |lens| - 1;
    if s == m {
      assert lens[s := b][..m] == lens[..m];
    } else {
      assert lens[s := b][..m] == lens[..m][s := b];
      CountUpdate(lens[..m], s, b, l);
    }
  }

  lemma {:induction false} UsedUpdate(lens: seq<nat>, s: nat, b: nat, m: nat)
    requires s < |lens| && lens[s] == 0 && b > 0
    ensures Used(lens[s := b], m) == Used(lens, m) + Share(m, b)
  {
    if m > 0 {
      UsedUpdate(lens, s, b, m - 1);
      CountUpdate(lens, s, b, m);
    }
  }

  lemma UsedNone(lens: seq<nat>, m: nat)
    requires forall i :: 0 <= i < |lens| ==> lens[i] == 0
    ensures Used(lens, m) == 0
  {
    forall k: nat | 0 < k <= m
      ensures Count(lens, k) == 0
    {
      CountNone(lens, k);
    }
    NoneUsed(lens, m);
  }

  lemma {:induction false} CountNone(lens: seq<nat>, l: nat)
    requires l > 0 && forall i :: 0 <= i < |lens| ==> lens[i] == 0
    ensures Count(lens, l) == 0
  {
    if lens != [] {
      CountNone(lens[..|lens| - 1], l);
    }
  }

  // ---- The first pass: lengths by depth, cut off at the maximum ----

  /** What the nodes still to come are worth: w[l] for every son of a handled father
      of length l. */
  ghost predicate Pending(pend: seq<int>, w: seq<nat>, heap: seq<nat>, dl: seq<nat>, elems: nat, hmax: nat, h: nat) {
    && |pend| == |heap| == HEAP_SIZE && hmax <= h <= HEAP_SIZE
    && (forall g :: 0 <= g < h ==> pend[g] == 0)
    && (forall g :: h <= g < HEAP_SIZE ==> PendingAt(pend[g], w, heap, dl, elems, hmax, h, FatherAt(elems, g)))
  }

  ghost predicate PendingAt(p: int, w: seq<nat>, heap: seq<nat>, dl: seq<nat>, elems: nat, hmax: nat, h: nat, f: nat)
    requires hmax <= h <= |heap|
  {
    if Handled(heap, hmax, h, f) then f < |dl| && dl[f] < |w| && p == w[dl[f]] else p == 0
  }

  /** Handling the node at h: its own worth goes, its sons' worth comes. */
  function PendNext(pend: seq<int>, w: seq<nat>, elems: nat, h: nat, x: nat, bits: nat): seq<int>
    requires |pend| == HEAP_SIZE && h < HEAP_SIZE && bits < |w|
    requires x >= elems ==> 2 * (x - elems) + 2 <= HEAP_SIZE
  {
    var p := pend[h := 0];
    if x < elems then p
    else p[HEAP_SIZE - 1 - 2 * (x - elems) := w[bits]][HEAP_SIZE - 2 - 2 * (x - elems) := w[bits]]
  }

  lemma PendStep(leaves: seq<nat>, heap: seq<nat>, d0: seq<nat>, dl: seq<nat>, elems: nat, hmax: nat, h: nat,
                 w: seq<nat>, pend: seq<int>, x: nat, bits: nat)
    requires Leaves(leaves, elems) && Rooted(leaves, heap, d0, elems, hmax) && hmax <= h < HEAP_SIZE
    requires Pending(pend, w, heap, dl, elems, hmax, h) && x == heap[h] && x < |dl| && bits < |w|
    ensures x >= elems ==> 2 * (x - elems) + 2 <= HEAP_SIZE
    ensures Pending(PendNext(pend, w, elems, h, x, bits), w, heap, dl[x := bits], elems, hmax, h + 1)
    ensures Sum(PendNext(pend, w, elems, h, x, bits)) == Sum(pend) - pend[h] + if x < elems then 0 else 2 * w[bits]
  {
    var p2, d2 := PendNext(pend, w, elems, h, x, bits), dl[x := bits];
    XNotHandled(leaves, heap, d0, elems, hmax, h);
    forall g | h + 1 <= g < HEAP_SIZE
      ensures PendingAt(p2[g], w, heap, d2, elems, hmax, h + 1, FatherAt(elems, g))
    {
      var f := FatherAt(elems, g);
      HandledNext(heap, hmax, h, f);
      assert PendingAt(pend[g], w, heap, dl, elems, hmax, h, f);
      if x >= elems {
        SonsAt(elems, x, g);
      }
    }
    PendSum(leaves, heap, d0, dl, elems, hmax, h, w, pend, x, bits);
  }

  lemma PendSum(leaves: seq<nat>, heap: seq<nat>, d0: seq<nat>, dl: seq<nat>, elems: nat, hmax: nat, h: nat,
                w: seq<nat>, pend: seq<int>, x: nat, bits: nat)
    requires Leaves(leaves, elems) && Rooted(leaves, heap, d0, elems, hmax) && hmax <= h < HEAP_SIZE
    requires Pending(pend, w, heap, dl, elems, hmax, h) && x == heap[h] && bits < |w|
    ensures Sum(PendNext(pend, w, elems, h, x, bits)) == Sum(pend) - pend[h] + if x < elems then 0 else 2 * w[bits]
  {
    SumUpdate(pend, h, 0);
    if x >= elems {
      var c0, c1 := HEAP_SIZE - 1 - 2 * (x - elems), HEAP_SIZE - 2 - 2 * (x - elems);
      var p := pend[h := 0];
      XNotHandled(leaves, heap, d0, elems, hmax, h);
      SonsAt(elems, x, c0);
      SonsAt(elems, x, c1);
      assert PendingAt(pend[c0], w, heap, dl, elems, hmax, h, x) && PendingAt(pend[c1], w, heap, dl, elems, hmax, h, x);
      SumUpdate(p, c0, w[bits]);
      SumUpdate(p[c0 := w[bits]], c1, w[bits]);
    }
  }

  /** Lengths are set for the nodes before position h; `lens` are those of the symbols. */
  ghost predicate Cut(leaves: seq<nat>, heap: seq<nat>, d0: seq<nat>, dl: seq<nat>, elems: nat, hmax: nat, h: nat,
                      max: nat, lens: seq<nat>) {
    && |dl| == |d0| >= elems && |lens| == elems && |heap| == HEAP_SIZE && hmax < h <= HEAP_SIZE
    && (forall g :: hmax <= g < HEAP_SIZE ==> heap[g] < |dl|)
    && (forall g :: h <= g < HEAP_SIZE ==> dl[heap[g]] == d0[heap[g]])
    && (forall g :: hmax <= g < h ==> dl[heap[g]] <= max && (heap[g] < elems ==> 0 < lens[heap[g]] == dl[heap[g]]))
    && (forall s :: 0 <= s < elems && !Handled(heap, hmax, h, s) ==> lens[s] == 0)
    && (forall y :: 0 <= y < elems && y !in leaves ==> dl[y] == d0[y])
  }

  lemma CutStep(leaves: seq<nat>, heap: seq<nat>, d0: seq<nat>, dl: seq<nat>, elems: nat, hmax: nat, h: nat,
                max: nat, lens: seq<nat>, x: nat, bits: nat)
    requires Leaves(leaves, elems) && Rooted(leaves, heap, d0, elems, hmax)
    requires Cut(leaves, heap, d0, dl, elems, hmax, h, max, lens) && h < HEAP_SIZE && x == heap[h] && 0 < bits <= max
    ensures x < elems ==> lens[x] == 0
    ensures Cut(leaves, heap, d0, dl[x := bits], elems, hmax, h + 1, max, if x < elems then lens[x := bits] else lens)
  {
    XNotHandled(leaves, heap, d0, elems, hmax, h);
    IsNode(leaves, heap, d0, elems, hmax, h);
    var d2, l2 := dl[x := bits], if x < elems then lens[x := bits] else lens;
    forall g | h + 1 <= g < HEAP_SIZE
      ensures d2[heap[g]] == d0[heap[g]]
    {
      OncePlaced(leaves, heap, d0, elems, hmax, h, g);
    }
    forall g | hmax <= g < h
      ensures heap[g] != x
    {
      OncePlaced(leaves, heap, d0, elems, hmax, g, h);
    }
    forall s | 0 <= s < elems && !Handled(heap, hmax, h + 1, s)
      ensures l2[s] == 0
    {
      HandledNext(heap, hmax, h, s);
    }
  }

  /** The worth of a son whose father has length l: in half units of 2^-max, where
      lengths are cut off at max, and in units of 2^-(max-1), where they are not. */
  function WorthCut(max: nat): seq<nat> {
    seq(max + 1, l requires 0 <= l <= max => Pow2(max - l))
  }

  function WorthFull(max: nat): seq<nat>
    requires max > 0
  {
    seq(max + 1, l requires 0 <= l <= max => Share(max - 1, l + 1))
  }

  /** The symbols' shares and the worth of the nodes to come add up to the whole, plus
      one half unit for each node that was cut off. */
  ghost predicate Balanced(lens: seq<nat>, max: nat, overflow: nat, pa: seq<int>, pb: seq<int>)
    requires max > 0
  {
    && 2 * Used(lens, max) + Sum(pa) == Pow2(max + 1) + overflow
    && Used(lens, max - 1) + Sum(pb) <= Pow2(max - 1)
  }

  lemma BalanceCut(lens: seq<nat>, max: nat, overflow: nat, s0: int, s2: int,
                   x: nat, l: nat, bits: nat, overflow2: nat)
    requires 0 < max && l <= max && 2 * Used(lens, max) + s0 == Pow2(max + 1) + overflow
    requires bits == (if l + 1 > max then max else l + 1) && overflow2 == overflow + (if l + 1 > max then 1 else 0)
    requires x < |lens| ==> lens[x] == 0
    requires s2 == s0 - Pow2(max - l) + if x < |lens| then 0 else 2 * Pow2(max - bits)
    ensures 2 * Used(if x < |lens| then lens[x := bits] else lens, max) + s2 == Pow2(max + 1) + overflow2
  {
    if x < |lens| {
      UsedUpdate(lens, x, bits, max);
    }
    if l < max {
      assert Pow2(max - l) == 2 * Pow2(max - bits);
    } else {
      assert Pow2(0) == 1;
    }
  }

  lemma BalanceFull(lens: seq<nat>, max: nat, s0: int, s2: int, x: nat, l: nat, bits: nat)
    requires 0 < max && l <= max && Used(lens, max - 1) + s0 <= Pow2(max - 1)
    requires bits == (if l + 1 > max then max else l + 1)
    requires x < |lens| ==> lens[x] == 0
    requires s2 == s0 - Share(max - 1, l + 1) + if x < |lens| then 0 else 2 * Share(max - 1, bits + 1)
    ensures Used(if x < |lens| then lens[x := bits] else lens, max - 1) + s2 <= Pow2(max - 1)
  {
    if x < |lens| {
      UsedUpdate(lens, x, bits, max - 1);
    } else {
      ShareHalves(max - 1, bits);
    }
  }

  lemma BalanceStep(lens: seq<nat>, max: nat, overflow: nat, pa: seq<int>, pb: seq<int>, pa2: seq<int>, pb2: seq<int>,
                    x: nat, l: nat, bits: nat, overflow2: nat)
    requires 0 < max && l <= max && Balanced(lens, max, overflow, pa, pb)
    requires bits == (if l + 1 > max then max else l + 1) && overflow2 == overflow + (if l + 1 > max then 1 else 0)
    requires x < |lens| ==> lens[x] == 0
    requires Sum(pa2) == Sum(pa) - WorthCut(max)[l] + if x < |lens| then 0 else 2 * WorthCut(max)[bits]
    requires Sum(pb2) == Sum(pb) - WorthFull(max)[l] + if x < |lens| then 0 else 2 * WorthFull(max)[bits]
    ensures Balanced(if x < |lens| then lens[x := bits] else lens, max, overflow2, pa2, pb2)
  {
    hide Pow2, Used, Sum, Share;
    assert WorthCut(max)[l] == Pow2(max - l) && WorthCut(max)[bits] == Pow2(max - bits);
    assert WorthFull(max)[l] == Share(max - 1, l + 1) && WorthFull(max)[bits] == Share(max - 1, bits + 1);
    BalanceCut(lens, max, overflow, Sum(pa), Sum(pa2), x, l, bits, overflow2);
    BalanceFull(lens, max, Sum(pb), Sum(pb2), x, l, bits);
  }

  /** bl_count holds the number of symbols of each length. */
  ghost predicate Counted(bl: seq<nat>, lens: seq<nat>) {
    && |bl| == MAXBITS + 1 && bl[0] == 0
    && forall l :: 1 <= l <= MAXBITS ==> bl[l] == Count(lens, l)
  }

  lemma CountedStep(bl: seq<nat>, lens: seq<nat>, s: nat, b: nat)
    requires Counted(bl, lens) && s < |lens| && lens[s] == 0 && 0 < b <= MAXBITS
    ensures Counted(bl[b := bl[b] + 1], lens[s := b])
  {
    var bl2, lens2 := bl[b := bl[b] + 1], lens[s := b];
    forall l | 1 <= l <= MAXBITS
      ensures bl2[l] == Count(lens2, l)
    {
      CountUpdate(lens, s, b, l);
    }
  }

  /** The number of codes of length at most l. */
  function Total(c: seq<nat>, l: nat): nat
    requires l < |c|
  {
    if l == 0 then 0 else Total(c, l - 1) + c[l]
  }

  lemma {:induction false} TotalMore(c: seq<nat>, i: nat, l: nat)
    requires 0 < i < |c| && l < |c|
    ensures Total(c[i := c[i] + 1], l) == Total(c, l) + if i <= l then 1 else 0
  {
    if l > 0 {
      TotalMore(c, i, l - 1);
    }
  }

  /** How many of heap[lo..hi] are symbols. */
  function LeafCount(heap: seq<nat>, lo: nat, hi: nat, elems: nat): nat
    requires lo <= hi <= |heap|
    decreases hi
  {
    if lo == hi then 0 else LeafCount(heap, lo, hi - 1, elems) + if heap[hi - 1] < elems then 1 else 0
  }

  lemma {:induction false} NoLeafLeft(heap: seq<nat>, lo: nat, hi: nat, elems: nat)
    requires lo <= hi <= |heap| && LeafCount(heap, lo, hi, elems) == 0
    ensures forall g :: lo <= g < hi ==> heap[g] >= elems
    decreases hi
  {
    if lo < hi {
      NoLeafLeft(heap, lo, hi - 1, elems);
    }
  }

  /** The root has length zero and its two sons are to come. */
  lemma PassStart(leaves: seq<nat>, heap: seq<nat>, d0: seq<nat>, elems: nat, hmax: nat, max: nat,
                  w: seq<nat>) returns (pend: seq<int>)
    requires Leaves(leaves, elems) && Rooted(leaves, heap, d0, elems, hmax) && |w| > 0
    ensures Pending(pend, w, heap, d0[heap[hmax] := 0], elems, hmax, hmax + 1)
    ensures Sum(pend) == 2 * w[0]
  {
    var p := seq(HEAP_SIZE, _ => 0);
    SumZero(p);
    IsNode(leaves, heap, d0, elems, hmax, hmax);
    forall g | hmax <= g < HEAP_SIZE
      ensures PendingAt(p[g], w, heap, d0, elems, hmax, hmax, FatherAt(elems, g))
    {
      assert heap[hmax..hmax] == [];
    }
    PendStep(leaves, heap, d0, d0, elems, hmax, hmax, w, p, heap[hmax], 0);
    pend := PendNext(p, w, elems, hmax, heap[hmax], 0);
  }

  lemma CutStart(leaves: seq<nat>, heap: seq<nat>, d0: seq<nat>, elems: nat, hmax: nat, max: nat)
    requires Leaves(leaves, elems) && Rooted(leaves, heap, d0, elems, hmax)
    ensures heap[hmax] < |d0|
    ensures Cut(leaves, heap, d0, d0[heap[hmax] := 0], elems, hmax, hmax + 1, max, seq(elems, _ => 0))
  {
    forall g | hmax < g < HEAP_SIZE
      ensures heap[g] != heap[hmax]
    {
      OncePlaced(leaves, heap, d0, elems, hmax, hmax, g);
    }
    IsNode(leaves, heap, d0, elems, hmax, hmax);
  }

  /** What the first pass keeps. */
  ghost predicate Pass(leaves: seq<nat>, heap: seq<nat>, d0: seq<nat>, dl: seq<nat>, elems: nat, hmax: nat, h: nat,
                       max: nat,
                       lens: seq<nat>, overflow: nat, pa: seq<int>, pb: seq<int>) {
    && 0 < max <= MAXBITS && Leaves(leaves, elems) && Rooted(leaves, heap, d0, elems, hmax)
    && Cut(leaves, heap, d0, dl, elems, hmax, h, max, lens)
    && Pending(pa, WorthCut(max), heap, dl, elems, hmax, h) && Pending(pb, WorthFull(max), heap, dl, elems, hmax, h)
    && Balanced(lens, max, overflow, pa, pb)
  }

  /** The length of the father is known when the node at h comes up. */
  lemma FatherLength(leaves: seq<nat>, heap: seq<nat>, d0: seq<nat>, dl: seq<nat>, elems: nat, hmax: nat, h: nat,
                     max: nat,
                     lens: seq<nat>)
    requires Leaves(leaves, elems) && Rooted(leaves, heap, d0, elems, hmax)
    requires Cut(leaves, heap, d0, dl, elems, hmax, h, max, lens) && h < HEAP_SIZE
    ensures heap[h] < |dl| && dl[heap[h]] == FatherAt(elems, h) < |dl| && dl[FatherAt(elems, h)] <= max
    ensures Handled(heap, hmax, h, FatherAt(elems, h))
  {
    FatherFirst(leaves, heap, d0, elems, hmax, h);
    var f := FatherAt(elems, h);
    var i :| 0 <= i < |heap[hmax..h]| && heap[hmax..h][i] == f;
    assert heap[hmax + i] == f;
  }

  lemma PassStep(leaves: seq<nat>, heap: seq<nat>, d0: seq<nat>, dl: seq<nat>, elems: nat, hmax: nat, h: nat, max: nat,
                 lens: seq<nat>, overflow: nat, pa: seq<int>, pb: seq<int>, x: nat, l: nat, bits: nat, overflow2: nat)
      returns (lens2: seq<nat>, pa2: seq<int>, pb2: seq<int>)
    requires Pass(leaves, heap, d0, dl, elems, hmax, h, max, lens, overflow, pa, pb) && h < HEAP_SIZE
    requires x == heap[h] && l <= max && dl[x] < |dl| && l == dl[dl[x]]
    requires bits == (if l + 1 > max then max else l + 1) && overflow2 == overflow + (if l + 1 > max then 1 else 0)
    ensures Pass(leaves, heap, d0, dl[x := bits], elems, hmax, h + 1, max, lens2, overflow2, pa2, pb2)
    ensures lens2 == if x < elems then lens[x := bits] else lens
    ensures x < elems ==> x in leaves && lens[x] == 0
  {
    FatherLength(leaves, heap, d0, dl, elems, hmax, h, max, lens);
    CutStep(leaves, heap, d0, dl, elems, hmax, h, max, lens, x, bits);
    IsNode(leaves, heap, d0, elems, hmax, h);
    lens2 := if x < elems then lens[x := bits] else lens;
    pa2 := PassPend(leaves, heap, d0, dl, elems, hmax, h, WorthCut(max), pa, x, l, bits);
    pb2 := PassPend(leaves, heap, d0, dl, elems, hmax, h, WorthFull(max), pb, x, l, bits);
    BalanceStep(lens, max, overflow, pa, pb, pa2, pb2, x, l, bits, overflow2);
  }

  lemma PassPend(leaves: seq<nat>, heap: seq<nat>, d0: seq<nat>, dl: seq<nat>, elems: nat, hmax: nat, h: nat,
                 w: seq<nat>, p: seq<int>, x: nat, l: nat, bits: nat) returns (p2: seq<int>)
    requires Leaves(leaves, elems) && Rooted(leaves, heap, d0, elems, hmax) && hmax <= h < HEAP_SIZE
    requires Pending(p, w, heap, dl, elems, hmax, h) && x == heap[h] && x < |dl| && bits < |w| && l < |w|
    requires FatherAt(elems, h) < |dl| && dl[FatherAt(elems, h)] == l && Handled(heap, hmax, h, FatherAt(elems, h))
    ensures Pending(p2, w, heap, dl[x := bits], elems, hmax, h + 1)
    ensures Sum(p2) == Sum(p) - w[l] + if x < elems then 0 else 2 * w[bits]
  {
    PendStep(leaves, heap, d0, dl, elems, hmax, h, w, p, x, bits);
    p2 := PendNext(p, w, elems, h, x, bits);
    assert PendingAt(p[h], w, heap, dl, elems, hmax, h, FatherAt(elems, h));
  }

  lemma PassBegins(leaves: seq<nat>, heap: seq<nat>, d0: seq<nat>, elems: nat, hmax: nat, max: nat)
      returns (lens: seq<nat>, pa: seq<int>, pb: seq<int>)
    requires 1 < max <= MAXBITS && Leaves(leaves, elems) && Rooted(leaves, heap, d0, elems, hmax)
    ensures heap[hmax] < |d0| && lens == seq(elems, _ => 0)
    ensures Pass(leaves, heap, d0, d0[heap[hmax] := 0], elems, hmax, hmax + 1, max, lens, 0, pa, pb)
  {
    lens := seq(elems, _ => 0);
    CutStart(leaves, heap, d0, elems, hmax, max);
    pa := PassStart(leaves, heap, d0, elems, hmax, max, WorthCut(max));
    pb := PassStart(leaves, heap, d0, elems, hmax, max, WorthFull(max));
    UsedNone(lens, max);
    UsedNone(lens, max - 1);
    assert WorthCut(max)[0] == Pow2(max) && WorthFull(max)[0] == Share(max - 1, 1);
    ShareHalves(max - 1, 0);
  }

  lemma PassEnds(leaves: seq<nat>, heap: seq<nat>, d0: seq<nat>, dl: seq<nat>, elems: nat, hmax: nat, max: nat,
                 lens: seq<nat>, overflow: nat, pa: seq<int>, pb: seq<int>)
    requires Pass(leaves, heap, d0, dl, elems, hmax, HEAP_SIZE, max, lens, overflow, pa, pb)
    ensures Cut(leaves, heap, d0, dl, elems, hmax, HEAP_SIZE, max, lens)
    ensures 2 * Used(lens, max) == Pow2(max + 1) + overflow
    ensures Used(lens, max - 1) <= Pow2(max - 1)
  {
    SumZero(pa);
    SumZero(pb);
  }

  /** No node was cut off and lengths are depths, or the tree is heavy. */
  ghost predicate Depths(leaves: seq<nat>, heap: seq<nat>, d0: seq<nat>, dl: seq<nat>, freq: seq<nat>, elems: nat,
                         hmax: nat, h: nat, max: nat, overflow: nat) {
    && Weighed(leaves, heap, d0, freq, elems, hmax) && heap[hmax] < |freq|
    && if overflow == 0 then Exact(heap, dl, elems, hmax, h)
       else |leaves| > 2 && freq[heap[hmax]] >= Fib(max + 3)
  }

  lemma DepthsStart(leaves: seq<nat>, heap: seq<nat>, d0: seq<nat>, freq: seq<nat>, elems: nat, hmax: nat, max: nat)
    requires Weighed(leaves, heap, d0, freq, elems, hmax) && heap[hmax] < |d0|
    ensures Depths(leaves, heap, d0, d0[heap[hmax] := 0], freq, elems, hmax, hmax + 1, max, 0)
  {
  }

  lemma DepthsStep(leaves: seq<nat>, heap: seq<nat>, d0: seq<nat>, dl: seq<nat>, freq: seq<nat>, elems: nat, hmax: nat,
                   h: nat, max: nat, overflow: nat, x: nat, l: nat, bits: nat, overflow2: nat)
    requires Depths(leaves, heap, d0, dl, freq, elems, hmax, h, max, overflow) && h < HEAP_SIZE && 0 < max
    requires x == heap[h] && x < |dl| && FatherAt(elems, h) < |dl| && l == dl[FatherAt(elems, h)] <= max
    requires bits == (if l + 1 > max then max else l + 1) && overflow2 == overflow + (if l + 1 > max then 1 else 0)
    ensures Depths(leaves, heap, d0, dl[x := bits], freq, elems, hmax, h + 1, max, overflow2)
  {
    hide Fib;
    if overflow == 0 {
      if l + 1 > max {
        TooDeep(leaves, heap, d0, dl, freq, elems, hmax, h, max);
      } else {
        ExactNext(leaves, heap, d0, dl, elems, hmax, h, x);
      }
    }
  }

  /** The first pass of gen_bitlen: every node is one longer than its father, but no
      longer than max; `overflow` counts the nodes that were cut off. The sizes grow by the
      bits of the symbols. */
  method FirstPass(heap: array<nat>, dl: array<nat>, bl: array<nat>, freq: seq<nat>, elems: nat, maxCode: nat,
                   hmax: nat, max: nat, desc: Desc, sizes0: Sizes, ghost leaves: seq<nat>)
      returns (overflow: nat, sizes: Sizes, ghost lens: seq<nat>)
    requires heap != dl && heap != bl && dl != bl && bl.Length == MAXBITS + 1
    requires 1 < max <= MAXBITS && Weighed(leaves, heap[..], dl[..], freq, elems, hmax)
    requires maxCode < elems <= |freq| && desc.For(elems) && forall s :: s in leaves ==> s <= maxCode
    modifies dl, bl
    ensures Cut(leaves, heap[..], old(dl[..]), dl[..], elems, hmax, HEAP_SIZE, max, lens)
    ensures Counted(bl[..], lens) && Total(bl[..], max) == LeafCount(heap[..], hmax, HEAP_SIZE, elems)
    ensures 2 * Used(lens, max) == Pow2(max + 1) + overflow
    ensures Used(lens, max - 1) <= Pow2(max - 1)
    ensures SoFar(desc, sizes0, sizes, freq[..elems], lens)
    ensures Depths(leaves, heap[..], old(dl[..]), dl[..], freq, elems, hmax, HEAP_SIZE, max, overflow)
  {
    ghost var hs, d0 := heap[..], dl[..];
    ghost var pa, pb;
    assert hmax < HEAP_SIZE == heap.Length;
    assert Leaves(leaves, elems) && Rooted(leaves, hs, d0, elems, hmax);
    hide Pass, Rooted, Leaves, Cut, Counted, Used, Pow2, Total, LeafCount, Weighed, Depths, SoFar, Desc.For;
    lens, pa, pb := PassBegins(leaves, hs, d0, elems, hmax, max);
    NoneSoFar(desc, sizes0, freq[..elems], lens);
    DepthsStart(leaves, hs, d0, freq, elems, hmax, max);
    ClearCounts(bl, lens);
    dl[heap[hmax]] := 0;
    NoneYet(leaves, hs, d0, bl[..], lens, elems, hmax, max);
    overflow, sizes, lens, pa, pb := PassNodes(heap, dl, bl, freq, elems, maxCode, hmax, max, desc, sizes0, leaves, d0,
      lens, pa, pb);
    PassEnds(leaves, hs, d0, dl[..], elems, hmax, max, lens, overflow, pa, pb);
  }

  /** Handle the nodes after the root. */
  method PassNodes(heap: array<nat>, dl: array<nat>, bl: array<nat>, freq: seq<nat>, elems: nat, maxCode: nat,
                   hmax: nat, max: nat, desc: Desc, sizes0: Sizes, ghost leaves: seq<nat>, ghost d0: seq<nat>,
                   ghost lens0: seq<nat>, ghost pa0: seq<int>, ghost pb0: seq<int>)
      returns (overflow: nat, sizes: Sizes, ghost lens: seq<nat>, ghost pa: seq<int>, ghost pb: seq<int>)
    requires heap != dl && heap != bl && dl != bl && bl.Length == MAXBITS + 1 && heap.Length == HEAP_SIZE
    requires maxCode < elems <= |freq| && desc.For(elems) && forall s :: s in leaves ==> s <= maxCode
    requires hmax < HEAP_SIZE && max <= MAXBITS
    requires Pass(leaves, heap[..], d0, dl[..], elems, hmax, hmax + 1, max, lens0, 0, pa0, pb0)
    requires Counted(bl[..], lens0) && SoFar(desc, sizes0, sizes0, freq[..elems], lens0)
    requires Total(bl[..], max) == LeafCount(heap[..], hmax, hmax + 1, elems)
    requires Depths(leaves, heap[..], d0, dl[..], freq, elems, hmax, hmax + 1, max, 0)
    modifies dl, bl
    ensures Pass(leaves, heap[..], d0, dl[..], elems, hmax, HEAP_SIZE, max, lens, overflow, pa, pb)
    ensures Counted(bl[..], lens) && SoFar(desc, sizes0, sizes, freq[..elems], lens)
    ensures Total(bl[..], max) == LeafCount(heap[..], hmax, HEAP_SIZE, elems)
    ensures Depths(leaves, heap[..], d0, dl[..], freq, elems, hmax, HEAP_SIZE, max, overflow)
  {
    hide Pass, Counted, Total, LeafCount, SoFar, Depths, Desc.For;
    overflow, sizes, lens, pa, pb := 0, sizes0, lens0, pa0, pb0;
    var h: nat := hmax + 1;
    while h < HEAP_SIZE
      invariant hmax < h <= HEAP_SIZE
      invariant Pass(leaves, heap[..], d0, dl[..], elems, hmax, h, max, lens, overflow, pa, pb)
      invariant Counted(bl[..], lens) && SoFar(desc, sizes0, sizes, freq[..elems], lens)
      invariant Total(bl[..], max) == LeafCount(heap[..], hmax, h, elems)
      invariant Depths(leaves, heap[..], d0, dl[..], freq, elems, hmax, h, max, overflow)
    {
      overflow, sizes, lens, pa, pb := PassNode(heap, dl, bl, freq, elems, maxCode, hmax, max, desc, h, overflow, sizes,
        sizes0, leaves, d0, lens, pa, pb);
      h := h + 1;
    }
  }

  /** The length of the node at h. */
  method PassNode(heap: array<nat>, dl: array<nat>, bl: array<nat>, freq: seq<nat>, elems: nat, maxCode: nat, hmax: nat,
                  max: nat, desc: Desc, h: nat, overflow: nat, sizes: Sizes, ghost sizes0: Sizes,
                  ghost leaves: seq<nat>, ghost d0: seq<nat>, ghost lens: seq<nat>, ghost pa: seq<int>,
                  ghost pb: seq<int>)
      returns (overflow2: nat, sizes2: Sizes, ghost lens2: seq<nat>, ghost pa2: seq<int>, ghost pb2: seq<int>)
    requires heap != dl && heap != bl && dl != bl && bl.Length == MAXBITS + 1 && h < HEAP_SIZE
    requires maxCode < elems <= |freq| && desc.For(elems) && forall s :: s in leaves ==> s <= maxCode
    requires Pass(leaves, heap[..], d0, dl[..], elems, hmax, h, max, lens, overflow, pa, pb) && Counted(bl[..], lens)
    requires Total(bl[..], max) == LeafCount(heap[..], hmax, h, elems)
    requires SoFar(desc, sizes0, sizes, freq[..elems], lens)
    requires Depths(leaves, heap[..], d0, dl[..], freq, elems, hmax, h, max, overflow)
    modifies dl, bl
    ensures Pass(leaves, heap[..], d0, dl[..], elems, hmax, h + 1, max, lens2, overflow2, pa2, pb2)
    ensures Counted(bl[..], lens2) && SoFar(desc, sizes0, sizes2, freq[..elems], lens2)
    ensures Total(bl[..], max) == LeafCount(heap[..], hmax, h + 1, elems)
    ensures Depths(leaves, heap[..], d0, dl[..], freq, elems, hmax, h + 1, max, overflow2)
  {
    hide Rooted, Leaves, Used, Pow2, Total, LeafCount, Handled, Depths, SoFar, Desc.For, Pending, Balanced;
    ghost var hs, d1 := heap[..], dl[..];
    var n := heap[h];
    FatherLength(leaves, hs, d0, d1, elems, hmax, h, max, lens);
    assert hmax < h && 0 < max <= MAXBITS && |lens| == elems;
    LeafNext(hs, hmax, h, elems);
    hide Pass, Cut, Counted;
    var l := dl[dl[n]];
    var bits: nat := l + 1;
    overflow2, sizes2 := overflow, sizes;
    if bits > max {
      bits, overflow2 := max, overflow + 1;
    }
    lens2, pa2, pb2 := PassStep(leaves, hs, d0, d1, elems, hmax, h, max, lens, overflow, pa, pb, n, l, bits, overflow2);
    DepthsStep(leaves, hs, d0, d1, freq, elems, hmax, h, max, overflow, n, l, bits, overflow2);
    dl[n] := bits;
    assert dl[..] == d1[n := bits];
    if n <= maxCode {
      CountLeaf(bl, bits, lens, n, max);
      sizes2 := AddSymbol(desc, sizes, freq[n], n, bits, sizes0, freq[..elems], lens);
    }
  }

  method CountLeaf(bl: array<nat>, bits: nat, ghost lens: seq<nat>, ghost s: nat, ghost max: nat)
    requires bl.Length == MAXBITS + 1 && 0 < bits <= max <= MAXBITS
    requires Counted(bl[..], lens) && s < |lens| && lens[s] == 0
    modifies bl
    ensures Counted(bl[..], lens[s := bits])
    ensures Total(bl[..], max) == old(Total(bl[..], max)) + 1
  {
    CountedStep(bl[..], lens, s, bits);
    TotalMore(bl[..], bits, max);
    bl[bits] := bl[bits] + 1;
  }

  lemma LeafNext(heap: seq<nat>, lo: nat, hi: nat, elems: nat)
    requires lo <= hi < |heap|
    ensures LeafCount(heap, lo, hi + 1, elems) == LeafCount(heap, lo, hi, elems) + if heap[hi] < elems then 1 else 0
  {
  }

  lemma NoneYet(leaves: seq<nat>, heap: seq<nat>, d0: seq<nat>, bl: seq<nat>, lens: seq<nat>, elems: nat, hmax: nat,
                max: nat)
    requires Rooted(leaves, heap, d0, elems, hmax) && Counted(bl, lens) && max <= MAXBITS
    requires forall i :: 0 <= i < |lens| ==> lens[i] == 0
    ensures |bl| == MAXBITS + 1 && hmax < HEAP_SIZE == |heap|
    ensures Total(bl, max) == LeafCount(heap, hmax, hmax + 1, elems) == 0
  {
    forall l | 1 <= l <= MAXBITS
      ensures bl[l] == 0
    {
      CountNone(lens, l);
    }
    TotalNone(bl, max);
    assert LeafCount(heap, hmax, hmax, elems) == 0;
  }

  lemma {:induction false} TotalNone(c: seq<nat>, l: nat)
    requires l < |c| && forall i :: 0 < i <= l ==> c[i] == 0
    ensures Total(c, l) == 0
  {
    if l > 0 {
      TotalNone(c, l - 1);
    }
  }

  method ClearCounts(bl: array<nat>, ghost lens: seq<nat>)
    requires bl.Length == MAXBITS + 1 && forall i :: 0 <= i < |lens| ==> lens[i] == 0
    modifies bl
    ensures Counted(bl[..], lens)
  {
    var bits := 0;
    while bits <= MAXBITS
      invariant 0 <= bits <= MAXBITS + 1
      invariant forall l :: 0 <= l < bits ==> bl[l] == 0
    {
      bl[bits] := 0;
      bits := bits + 1;
    }
    forall l | 1 <= l <= MAXBITS
      ensures Count(lens, l) == 0
    {
      CountNone(lens, l);
    }
  }
}
