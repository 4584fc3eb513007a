/** trees.c: limiting the code lengths, assigning codes, and build_tree as a whole. */
module TreeCodes {
  import opened Bits
  import opened Canonical
  import opened TreeHeap
  import opened TreeMerge
  import opened TreePlaces
  import opened TreeLengths
  import opened Sums
  import opened TreeSizes
  import opened TreeDepths
  import opened TreeOptimal

  // ---- Kraft sums of length counts ----

  /** As Used, from the number of codes of each length. */
  function UsedBy(c: seq<nat>, l: nat): nat
    requires l < |c|
  {
    if l == 0 then 0 else 2 * UsedBy(c, l - 1) + c[l]
  }

  lemma {:induction false} UsedByCounts(c: seq<nat>, lens: seq<nat>, l: nat)
    requires Counted(c, lens) && l <= MAXBITS
    ensures UsedBy(c, l) == Used(lens, l)
  {
    if l > 0 {
      UsedByCounts(c, lens, l - 1);
    }
  }

  lemma {:induction false} OneMore(c: seq<nat>, i: nat, l: nat)
    requires 0 < i < |c| && l < |c|
    ensures var c2 := c[i := c[i] + 1];
      UsedBy(c2, l) == UsedBy(c, l) + Share(l, i) && Total(c2, l) == Total(c, l) + if i <= l then 1 else 0
  {
    if l > 0 {
      OneMore(c, i, l - 1);
    }
    TotalMore(c, i, l);
  }

  lemma OneLess(c: seq<nat>, i: nat, l: nat)
    requires 0 < i < |c| && l < |c| && c[i] > 0
    ensures var c2 := c[i := c[i] - 1];
      UsedBy(c2, l) + Share(l, i) == UsedBy(c, l) && Total(c2, l) + (if i <= l then 1 else 0) == Total(c, l)
  {
    var c2 := c[i := c[i] - 1];
    OneMore(c2, i, l);
    assert c2[i := c2[i] + 1] == c;
  }

  lemma {:induction false} NoneBelow(c: seq<nat>, l: nat)
    requires l < |c| && forall i :: 0 < i <= l ==> c[i] == 0
    ensures UsedBy(c, l) == 0 && Total(c, l) == 0
  {
    if l > 0 {
      NoneBelow(c, l - 1);
    }
    TotalNone(c, l);
  }

  /** The counts while the overflow is worked off: still `overflow` half units over,
      but never over below the maximum. */
  ghost predicate Over(c: seq<nat>, max: nat, overflow: nat, n: nat) {
    && 1 < max < |c| && c[0] == 0
    && 2 * UsedBy(c, max) == 2 * Pow2(max) + overflow
    && UsedBy(c, max - 1) <= Pow2(max - 1)
    && Total(c, max) == n <= Pow2(max)
  }

  /** As long as there is overflow, some code is shorter than the maximum. */
  lemma SomeShorter(c: seq<nat>, max: nat, overflow: nat, n: nat)
    requires Over(c, max, overflow, n) && overflow > 0
    ensures exists l :: 0 < l < max && c[l] != 0
  {
    if forall l :: 0 < l < max ==> c[l] == 0 {
      NoneBelow(c, max - 1);
    }
  }

  /** Moving one code of length bits down, next to one overflow item. */
  function MoveDown(c: seq<nat>, bits: nat, max: nat): seq<nat>
    requires 0 < bits < max < |c| && c[bits] > 0
    requires bits + 1 < max ==> c[max] > 0
  {
    var c1 := c[bits := c[bits] - 1];
    var c2 := c1[bits + 1 := c1[bits + 1] + 2];
    c2[max := c2[max] - 1]
  }

  lemma MoveDownAt(c: seq<nat>, bits: nat, max: nat, m: nat)
    requires 0 < bits < max < |c| && c[bits] > 0 && c[max] > 0 && m < |c|
    ensures var d := MoveDown(c, bits, max);
      && UsedBy(d, m) + Share(m, bits) + Share(m, max) == UsedBy(c, m) + 2 * Share(m, bits + 1)
      && (max <= m ==> Total(d, m) == Total(c, m))
  {
    var c1 := c[bits := c[bits] - 1];
    var c2 := c1[bits + 1 := c1[bits + 1] + 1];
    var c3 := c2[bits + 1 := c2[bits + 1] + 1];
    assert c3[max := c3[max] - 1] == MoveDown(c, bits, max);
    MoveDownParts(c, c1, c2, c3, bits, max, m);
  }

  lemma MoveDownParts(c: seq<nat>, c1: seq<nat>, c2: seq<nat>, c3: seq<nat>, bits: nat, max: nat, m: nat)
    requires 0 < bits < max < |c| && c[bits] > 0 && m < |c|
    requires c1 == c[bits := c[bits] - 1] && c2 == c1[bits + 1 := c1[bits + 1] + 1]
    requires c3 == c2[bits + 1 := c2[bits + 1] + 1] && c3[max] > 0
    ensures var d := c3[max := c3[max] - 1];
      && UsedBy(d, m) + Share(m, bits) + Share(m, max) == UsedBy(c, m) + 2 * Share(m, bits + 1)
      && (max <= m ==> Total(d, m) == Total(c, m))
  {
    hide UsedBy, Total, Share, Pow2;
    OneLess(c, bits, m);
    OneMore(c1, bits + 1, m);
    OneMore(c2, bits + 1, m);
    OneLess(c3, max, m);
  }

  lemma MoveDownStep(c: seq<nat>, bits: nat, max: nat, overflow: nat, n: nat)
    requires Over(c, max, overflow, n) && overflow > 0 && 0 < bits < max && c[bits] > 0
    ensures overflow >= 2 && c[max] > 0
    ensures Over(MoveDown(c, bits, max), max, overflow - 2, n)
  {
    assert Pow2(max) == 2 * Pow2(max - 1);
    assert UsedBy(c, max) == 2 * UsedBy(c, max - 1) + c[max];
    MoveDownAt(c, bits, max, max);
    MoveDownAt(c, bits, max, max - 1);
    ShareHalves(max, bits);
    ShareHalves(max - 1, bits);
    assert Share(max, max) == 1 && Share(max - 1, max) == 0;
  }

  /** Work off the overflow: the lengths end up with a Kraft sum of exactly one and as
      many codes as before. */
  method Redistribute(bl: array<nat>, max: nat, overflow0: nat, ghost n: nat)
    requires max <= MAXBITS && bl.Length == MAXBITS + 1 && overflow0 > 0 && Over(bl[..], max, overflow0, n)
    modifies bl
    ensures Over(bl[..], max, 0, n)
    ensures forall l :: max < l <= MAXBITS ==> bl[l] == old(bl[l])
  {
    var overflow := overflow0;
    while true
      invariant overflow > 0 && Over(bl[..], max, overflow, n)
      invariant forall l :: max < l <= MAXBITS ==> bl[l] == old(bl[l])
      decreases overflow
    {
      var bits := max - 1;
      SomeShorter(bl[..], max, overflow, n);
      while bl[bits] == 0
        invariant 0 < bits < max
        invariant exists l :: 0 < l <= bits && bl[l] != 0
        decreases bits
      {
        bits := bits - 1;
      }
      MoveDownStep(bl[..], bits, max, overflow, n);
      ghost var c := bl[..];
      bl[bits] := bl[bits] - 1;
      bl[bits + 1] := bl[bits + 1] + 2;
      bl[max] := bl[max] - 1;
      assert bl[..] == MoveDown(c, bits, max);
      overflow := overflow - 2;
      if overflow == 0 {
        break;
      }
    }
  }

  // ---- Giving the symbols the limited lengths ----

  /** Lengths above `bits`, and all but n of length `bits`, are given to the symbols at
      heap positions from h on. */
  ghost predicate Relabel(heap: seq<nat>, dl: seq<nat>, elems: nat, hmax: nat, h: nat, max: nat,
                          bl: seq<nat>, bits: nat, n: nat, lens: seq<nat>) {
    && |heap| == HEAP_SIZE && hmax <= h <= HEAP_SIZE && |lens| == elems <= |dl| && |bl| == MAXBITS + 1
    && bits <= max <= MAXBITS && n <= bl[bits] && bl[0] == 0
    && (forall l :: 1 <= l <= MAXBITS ==>
         Count(lens, l) == if l > bits then bl[l] else if l == bits then bl[bits] - n else 0)
    && (forall g :: h <= g < HEAP_SIZE && heap[g] < elems ==> 0 < lens[heap[g]] == dl[heap[g]] <= max)
    && (forall s :: 0 <= s < elems && s !in heap[h..] ==> lens[s] == 0)
    && LeafCount(heap, hmax, h, elems) == n + if bits == 0 then 0 else Total(bl, bits - 1)
  }

  /** Every symbol in the heap has its length, and no other symbol has one. */
  ghost predicate Labelled(heap: seq<nat>, dl: seq<nat>, elems: nat, hmax: nat, max: nat, lens: seq<nat>) {
    && |heap| == HEAP_SIZE && hmax <= HEAP_SIZE && |lens| == elems <= |dl|
    && (forall g :: hmax <= g < HEAP_SIZE && heap[g] < elems ==> 0 < lens[heap[g]] == dl[heap[g]] <= max)
    && (forall s :: 0 <= s < elems && s !in heap[hmax..] ==> lens[s] == 0)
  }

  /** The node before h gets length bits, if it is a symbol. */
  lemma RelabelStep(heap: seq<nat>, dl: seq<nat>, elems: nat, hmax: nat, h: nat, max: nat,
                    bl: seq<nat>, bits: nat, n: nat, lens: seq<nat>, dl2: seq<nat>, n2: nat, lens2: seq<nat>)
    requires Relabel(heap, dl, elems, hmax, h, max, bl, bits, n, lens) && hmax < h && n > 0 && bits > 0
    requires Once(heap, hmax)
    requires if heap[h - 1] < elems
      then n2 == n - 1 && dl2 == dl[heap[h - 1] := bits] && lens2 == lens[heap[h - 1] := bits]
      else n2 == n && dl2 == dl && lens2 == lens
    ensures Relabel(heap, dl2, elems, hmax, h - 1, max, bl, bits, n2, lens2)
  {
    var m := heap[h - 1];
    assert heap[h - 1..] == [m] + heap[h..];
    if m < elems {
      assert m !in heap[h..] by {
        assert forall g :: h <= g < HEAP_SIZE ==> heap[g] != m;
      }
      forall l | 1 <= l <= MAXBITS
        ensures Count(lens2, l) == if l > bits then bl[l] else if l == bits then bl[bits] - n2 else 0
      {
        CountUpdate(lens, m, bits, l);
      }
    }
  }

  ghost predicate Once(heap: seq<nat>, hmax: nat) {
    |heap| == HEAP_SIZE && forall i, j :: hmax <= i < j < HEAP_SIZE ==> heap[i] != heap[j]
  }

  /** The test for a symbol that the code makes: not above the largest code. */
  ghost predicate LeafTest(heap: seq<nat>, hmax: nat, maxCode: nat, elems: nat) {
    |heap| == HEAP_SIZE && forall h :: hmax <= h < HEAP_SIZE ==> (heap[h] <= maxCode <==> heap[h] < elems)
  }

  /** Fields of nodes that are not in heap[hmax..] keep their value. */
  ghost predicate KeptOutside(heap: seq<nat>, hmax: nat, d0: seq<nat>, d1: seq<nat>) {
    && hmax <= |heap| && |d0| == |d1|
    && forall y :: 0 <= y < |d0| && y !in heap[hmax..] ==> d1[y] == d0[y]
  }

  /** All nodes are placed once. */
  lemma AllOnce(leaves: seq<nat>, heap: seq<nat>, d0: seq<nat>, elems: nat, hmax: nat)
    requires Leaves(leaves, elems) && Rooted(leaves, heap, d0, elems, hmax)
    ensures Once(heap, hmax)
  {
    forall i, j | hmax <= i < j < HEAP_SIZE
      ensures heap[i] != heap[j]
    {
      OncePlaced(leaves, heap, d0, elems, hmax, i, j);
    }
  }

  /** Recompute all lengths of symbols, scanning in increasing frequency and giving
      the longest lengths first. */
  method Reassign(heap: array<nat>, dl: array<nat>, bl: array<nat>, freq: seq<nat>, elems: nat, maxCode: nat, hmax: nat,
                  max: nat, sizes1: Sizes, ghost desc: Desc, ghost sizes0: Sizes)
      returns (sizes: Sizes, ghost lens: seq<nat>)
    requires heap != dl && dl != bl && heap.Length == HEAP_SIZE && bl.Length == MAXBITS + 1
    requires max <= MAXBITS && elems <= dl.Length && hmax <= HEAP_SIZE && bl[0] == 0
    requires forall l :: max < l <= MAXBITS ==> bl[l] == 0
    requires Once(heap[..], hmax) && LeafTest(heap[..], hmax, maxCode, elems)
    requires LeafCount(heap[..], hmax, HEAP_SIZE, elems) == Total(bl[..], max)
    requires elems <= |freq| && Added(desc, sizes0, sizes1, freq[..elems], dl[..elems])
    modifies dl
    ensures Added(desc, sizes0, sizes, freq[..elems], dl[..elems])
    ensures Counted(bl[..], lens)
    ensures Labelled(heap[..], dl[..], elems, hmax, max, lens)
    ensures KeptOutside(heap[..], hmax, old(dl[..]), dl[..])
  {
    hide LeafCount, Count, Total, Added;
    ghost var hs, bs := heap[..], bl[..];
    lens, sizes := seq(elems, _ => 0), sizes1;
    RelabelStart(hs, dl[..], elems, hmax, max, bs, lens);
    hide Relabel, LeafCount, Count, Total, Counted, Once, LeafTest, KeptOutside, Labelled;
    assert KeptOutside(hs, hmax, old(dl[..]), dl[..]) by { KeptAll(hs, hmax, dl[..]); }
    var h: nat := HEAP_SIZE;
    var bits: nat := max;
    while bits != 0
      invariant bits <= max && hmax <= h <= HEAP_SIZE
      invariant Relabel(hs, dl[..], elems, hmax, h, max, bs, bits, bs[bits], lens)
      invariant KeptOutside(hs, hmax, old(dl[..]), dl[..])
      invariant Added(desc, sizes0, sizes, freq[..elems], dl[..elems])
    {
      ghost var d1 := dl[..];
      h, sizes, lens := GiveLength(heap, dl, freq, elems, maxCode, hmax, h, max, bits, bl[bits], sizes, bs, lens, desc,
        sizes0);
      KeptTrans(hs, hmax, old(dl[..]), d1, dl[..]);
      bits := bits - 1;
    }
    RelabelDone(hs, dl[..], elems, hmax, h, max, bs, lens);
  }

  lemma KeptAll(heap: seq<nat>, hmax: nat, d: seq<nat>)
    requires hmax <= |heap|
    ensures KeptOutside(heap, hmax, d, d)
  {
  }

  lemma KeptTrans(heap: seq<nat>, hmax: nat, d0: seq<nat>, d1: seq<nat>, d2: seq<nat>)
    requires KeptOutside(heap, hmax, d0, d1) && KeptOutside(heap, hmax, d1, d2)
    ensures KeptOutside(heap, hmax, d0, d2)
  {
  }

  lemma RelabelStart(heap: seq<nat>, dl: seq<nat>, elems: nat, hmax: nat, max: nat, bl: seq<nat>, lens: seq<nat>)
    requires |heap| == HEAP_SIZE && |bl| == MAXBITS + 1 && max <= MAXBITS && hmax <= HEAP_SIZE && bl[0] == 0
    requires forall l :: max < l <= MAXBITS ==> bl[l] == 0
    requires |lens| == elems <= |dl| && forall s :: 0 <= s < elems ==> lens[s] == 0
    requires LeafCount(heap, hmax, HEAP_SIZE, elems) == Total(bl, max)
    ensures Relabel(heap, dl, elems, hmax, HEAP_SIZE, max, bl, max, bl[max], lens)
  {
    forall l | 1 <= l <= MAXBITS
      ensures Count(lens, l) == 0
    {
      CountNone(lens, l);
    }
  }

  /** Give length bits to the next n symbols. */
  method GiveLength(heap: array<nat>, dl: array<nat>, freq: seq<nat>, elems: nat, maxCode: nat, hmax: nat, h0: nat,
                    max: nat, bits: nat, n0: nat, sizes1: Sizes, ghost bs: seq<nat>, ghost lens0: seq<nat>,
                    ghost desc: Desc, ghost sizes0: Sizes)
      returns (h: nat, sizes: Sizes, ghost lens: seq<nat>)
    requires heap != dl && heap.Length == HEAP_SIZE && hmax <= h0 <= HEAP_SIZE && 0 < bits
    requires Once(heap[..], hmax) && LeafTest(heap[..], hmax, maxCode, elems)
    requires |bs| == MAXBITS + 1 && bits <= max <= MAXBITS && n0 == bs[bits]
    requires Relabel(heap[..], dl[..], elems, hmax, h0, max, bs, bits, n0, lens0)
    requires elems <= |freq| && elems <= dl.Length && Added(desc, sizes0, sizes1, freq[..elems], dl[..elems])
    modifies dl
    ensures Added(desc, sizes0, sizes, freq[..elems], dl[..elems])
    ensures hmax <= h <= HEAP_SIZE
    ensures Relabel(heap[..], dl[..], elems, hmax, h, max, bs, bits - 1, bs[bits - 1], lens)
    ensures KeptOutside(heap[..], hmax, old(dl[..]), dl[..])
  {
    var n: nat := n0;
    h, sizes, lens := h0, sizes1, lens0;
    hide Relabel, LeafCount, Count, Total, Added;
    ghost var hs := heap[..];
    while n != 0
      invariant hmax <= h <= HEAP_SIZE && n <= n0
      invariant Relabel(hs, dl[..], elems, hmax, h, max, bs, bits, n, lens)
      invariant KeptOutside(hs, hmax, old(dl[..]), dl[..])
      invariant Added(desc, sizes0, sizes, freq[..elems], dl[..elems])
      decreases h
    {
      ghost var d1, l1, n1 := dl[..], lens, n;
      LeafLeft(hs, dl[..], elems, hmax, h, max, bs, bits, n, lens);
      h := h - 1;
      var m := heap[h];
      assert hs[hmax..][h - hmax] == m;
      if m <= maxCode {
        Relengthened(desc, sizes0, sizes, freq[..elems], dl[..elems], m, bits);
        if dl[m] != bits {
          sizes := sizes.(opt := sizes.opt + (bits - dl[m]) * freq[m]);
          dl[m] := bits;
        }
        lens := lens[m := bits];
        n := n - 1;
        assert dl[..] == d1[m := bits] && dl[..elems] == d1[..elems][m := bits];
      }
      RelabelStep(hs, d1, elems, hmax, h + 1, max, bs, bits, n1, l1, dl[..], n, lens);
    }
    NextShorter(hs, dl[..], elems, hmax, h, max, bs, bits, lens);
  }

  lemma LeafLeft(heap: seq<nat>, dl: seq<nat>, elems: nat, hmax: nat, h: nat, max: nat, bl: seq<nat>, bits: nat, n: nat,
                 lens: seq<nat>)
    requires Relabel(heap, dl, elems, hmax, h, max, bl, bits, n, lens) && n > 0
    ensures hmax < h && elems <= |dl| && |lens| == elems
  {
    assert h == hmax ==> LeafCount(heap, hmax, h, elems) == 0;
  }

  /** All n symbols of this length are labelled. */
  lemma NextShorter(heap: seq<nat>, dl: seq<nat>, elems: nat, hmax: nat, h: nat, max: nat, bl: seq<nat>, bits: nat,
                    lens: seq<nat>)
    requires Relabel(heap, dl, elems, hmax, h, max, bl, bits, 0, lens) && bits > 0
    ensures Relabel(heap, dl, elems, hmax, h, max, bl, bits - 1, bl[bits - 1], lens)
  {
  }

  lemma RelabelDone(heap: seq<nat>, dl: seq<nat>, elems: nat, hmax: nat, h: nat, max: nat, bl: seq<nat>, lens: seq<nat>)
    requires Relabel(heap, dl, elems, hmax, h, max, bl, 0, 0, lens)
    ensures Counted(bl, lens)
    ensures Labelled(heap, dl, elems, hmax, max, lens)
  {
    NoLeafLeft(heap, hmax, h, elems);
    forall s | s !in heap[hmax..]
      ensures s !in heap[h..]
    {
      assert heap[hmax..] == heap[hmax..h] + heap[h..];
    }
  }

  // ---- gen_bitlen ----

  /** The code lengths of a tree: its leaves, and only they, have one, no longer than
      max, and together they make a complete code. */
  ghost predicate FullCode(leaves: seq<nat>, dl: seq<nat>, elems: nat, max: nat, bl: seq<nat>, lens: seq<nat>) {
    && |lens| == elems <= |dl| && max <= MAXBITS
    && (forall s :: 0 <= s < elems ==> dl[s] == lens[s] <= max)
    && (forall s :: 0 <= s < elems ==> (lens[s] > 0 <==> s in leaves))
    && Counted(bl, lens) && Used(lens, max) == Pow2(max)
  }

  lemma CutIsLabelled(leaves: seq<nat>, heap: seq<nat>, d0: seq<nat>, dl: seq<nat>, elems: nat, hmax: nat, max: nat,
                      lens: seq<nat>)
    requires Cut(leaves, heap, d0, dl, elems, hmax, HEAP_SIZE, max, lens)
    ensures Labelled(heap, dl, elems, hmax, max, lens)
  {
    assert heap[hmax..HEAP_SIZE] == heap[hmax..];
  }

  lemma LabelledIsFull(leaves: seq<nat>, heap: seq<nat>, d0: seq<nat>, dl: seq<nat>, elems: nat, hmax: nat, max: nat,
                       bl: seq<nat>, lens: seq<nat>)
    requires Leaves(leaves, elems) && Rooted(leaves, heap, d0, elems, hmax) && max <= MAXBITS
    requires Labelled(heap, dl, elems, hmax, max, lens) && Counted(bl, lens) && Used(lens, max) == Pow2(max)
    requires forall s :: 0 <= s < elems && s !in leaves ==> dl[s] == 0
    ensures FullCode(leaves, dl, elems, max, bl, lens)
  {
    forall s | 0 <= s < elems
      ensures dl[s] == lens[s] <= max && (lens[s] > 0 <==> s in leaves)
    {
      if s in leaves {
        LeafPlaced(leaves, heap, d0, elems, hmax, s);
        var i :| 0 <= i < |heap[hmax..HEAP_SIZE]| && heap[hmax..HEAP_SIZE][i] == s;
        assert heap[hmax + i] == s;
      } else {
        OnlyLeaves(leaves, heap, d0, elems, hmax, s);
      }
    }
  }

  lemma OnlyLeaves(leaves: seq<nat>, heap: seq<nat>, d0: seq<nat>, elems: nat, hmax: nat, s: nat)
    requires Leaves(leaves, elems) && Rooted(leaves, heap, d0, elems, hmax) && s < elems && s !in leaves
    ensures s !in heap[hmax..]
  {
    if s in heap[hmax..] {
      var i :| 0 <= i < |heap[hmax..]| && heap[hmax..][i] == s;
      IsNode(leaves, heap, d0, elems, hmax, hmax + i);
    }
  }

  /** At most as many codes as symbols. */
  lemma {:induction false} TotalIsOffset(bl: seq<nat>, lens: seq<nat>, l: nat)
    requires Counted(bl, lens) && l <= MAXBITS
    ensures Total(bl, l) == Offset(lens, l + 1)
  {
    if l > 0 {
      TotalIsOffset(bl, lens, l - 1);
    }
  }

  lemma OverStarts(bl: seq<nat>, lens: seq<nat>, max: nat, overflow: nat)
    requires Counted(bl, lens) && 1 < max <= MAXBITS && |lens| <= Pow2(max)
    requires 2 * Used(lens, max) == Pow2(max + 1) + overflow && Used(lens, max - 1) <= Pow2(max - 1)
    ensures Over(bl, max, overflow, Total(bl, max))
  {
    UsedByCounts(bl, lens, max);
    UsedByCounts(bl, lens, max - 1);
    TotalIsOffset(bl, lens, max);
    OffsetBound(lens, max + 1);
  }

  lemma LongerUnused(bl: seq<nat>, heap: seq<nat>, dl: seq<nat>, elems: nat, hmax: nat, max: nat, lens: seq<nat>)
    requires Counted(bl, lens) && Labelled(heap, dl, elems, hmax, max, lens) && max <= MAXBITS
    ensures forall l :: max < l <= MAXBITS ==> bl[l] == 0
  {
    forall s | 0 <= s < |lens|
      ensures lens[s] <= max
    {
      if s in heap[hmax..] {
        var i :| 0 <= i < |heap[hmax..]| && heap[hmax..][i] == s;
        assert heap[hmax + i] == s;
      }
    }
    forall l | max < l <= MAXBITS
      ensures Count(lens, l) == 0
    {
      CountAbove(lens, max, l);
    }
  }

  lemma {:induction false} CountAbove(lens: seq<nat>, max: nat, l: nat)
    requires l > max && forall s :: 0 <= s < |lens| ==> lens[s] <= max
    ensures Count(lens, l) == 0
  {
    if lens != [] {
      CountAbove(lens[..|lens| - 1], max, l);
    }
  }

  /** Limit the lengths after the first pass found nodes that are too deep. */
  method LimitLengths(heap: array<nat>, dl: array<nat>, bl: array<nat>, freq: seq<nat>, elems: nat, maxCode: nat,
                      hmax: nat, max: nat, overflow: nat, sizes1: Sizes, ghost leaves: seq<nat>, ghost d0: seq<nat>,
                      ghost lens0: seq<nat>, ghost desc: Desc, ghost sizes0: Sizes)
      returns (sizes: Sizes, ghost lens: seq<nat>)
    requires heap != dl && heap != bl && dl != bl && bl.Length == MAXBITS + 1
    requires 1 < max <= MAXBITS && overflow > 0 && elems <= Pow2(max)
    requires Leaves(leaves, elems) && Rooted(leaves, heap[..], d0, elems, hmax)
    requires Labelled(heap[..], dl[..], elems, hmax, max, lens0) && Counted(bl[..], lens0)
    requires Total(bl[..], max) == LeafCount(heap[..], hmax, HEAP_SIZE, elems)
    requires 2 * Used(lens0, max) == Pow2(max + 1) + overflow && Used(lens0, max - 1) <= Pow2(max - 1)
    requires LeafTest(heap[..], hmax, maxCode, elems)
    requires forall s :: 0 <= s < elems && s !in leaves ==> dl[s] == 0
    requires elems <= |freq| && elems <= dl.Length && Added(desc, sizes0, sizes1, freq[..elems], dl[..elems])
    modifies dl, bl
    ensures FullCode(leaves, dl[..], elems, max, bl[..], lens)
    ensures Added(desc, sizes0, sizes, freq[..elems], dl[..elems])
  {
    hide Pow2, Used, Total, LeafCount, LeafTest, FullCode, Added;
    ghost var hs, n, d1 := heap[..], Total(bl[..], max), dl[..];
    OverStarts(bl[..], lens0, max, overflow);
    LongerUnused(bl[..], hs, dl[..], elems, hmax, max, lens0);
    AllOnce(leaves, hs, d0, elems, hmax);
    Redistribute(bl, max, overflow, n);
    sizes, lens := Reassign(heap, dl, bl, freq, elems, maxCode, hmax, max, sizes1, desc, sizes0);
    UsedByCounts(bl[..], lens, max);
    forall s | 0 <= s < elems && s !in leaves
      ensures dl[s] == 0
    {
      OnlyLeaves(leaves, hs, d0, elems, hmax, s);
      assert d1[s] == 0;
    }
    LabelledIsFull(leaves, hs, d0, dl[..], elems, hmax, max, bl[..], lens);
  }

  /** Only symbols in the tree have a frequency. */
  ghost predicate InTree(leaves: seq<nat>, freq: seq<nat>, elems: nat) {
    elems <= |freq| && forall s :: 0 <= s < elems && s !in leaves ==> freq[s] == 0
  }

  /** gen_bitlen: lengths for the leaves of the tree that make a complete code, none
      longer than max. They are optimal unless the tree is too deep, which takes at least a
      Fibonacci number of symbols. The sizes grow by the bits of the symbols. */
  method GenBitlen(heap: array<nat>, dl: array<nat>, bl: array<nat>, freq: seq<nat>, elems: nat, maxCode: nat,
                   hmax: nat, max: nat, desc: Desc, sizes0: Sizes, ghost leaves: seq<nat>)
      returns (sizes: Sizes, ghost limited: bool, ghost lens: seq<nat>)
    requires heap != dl && heap != bl && dl != bl && bl.Length == MAXBITS + 1
    requires 1 < max <= MAXBITS && elems <= Pow2(max)
    requires Weighed(leaves, heap[..], dl[..], freq, elems, hmax) && dl.Length == |freq|
    requires InTree(leaves, freq, elems) && desc.For(elems)
    requires maxCode < elems && forall s :: s in leaves ==> s <= maxCode
    requires forall s :: 0 <= s < elems && s !in leaves ==> dl[s] == 0
    modifies dl, bl
    ensures FullCode(leaves, dl[..], elems, max, bl[..], lens) && |lens| == elems
    ensures Added(desc, sizes0, sizes, freq[..elems], lens)
    ensures !limited ==> Optimal(freq[..elems], lens)
    ensures limited ==> |leaves| > 2 && Sum(freq[..elems]) >= Fib(max + 3)
    ensures |leaves| == 2 ==> forall s :: 0 <= s < elems && s in leaves ==> lens[s] == 1
  {
    hide Weighed, Depths, SoFar, Added, Optimal, Fib, Desc.For, Cut, Labelled, Rooted, Leaves, FullCode, Pow2, Used,
      Counted, Total, LeafCount, LeafTest, InTree;
    ghost var hs, d0 := heap[..], dl[..];
    WeighedTree(leaves, hs, d0, freq, elems, hmax);
    TreeSymbols(leaves, freq, elems);
    var overflow;
    overflow, sizes, lens := FirstPass(heap, dl, bl, freq, elems, maxCode, hmax, max, desc, sizes0, leaves);
    ghost var d1 := dl[..];
    limited := overflow > 0;
    CutIsLabelled(leaves, hs, d0, d1, elems, hmax, max, lens);
    OnlyLeavesLeft(leaves, hs, d0, d1, elems, hmax, max, lens);
    DepthsEnd(leaves, hs, d0, d1, freq, elems, hmax, max, overflow);
    PassSizes(leaves, hs, d0, d1, elems, hmax, max, lens, desc, sizes0, sizes, freq);
    if overflow == 0 {
      WholeCut(max, Used(lens, max));
      LabelledIsFull(leaves, hs, d0, d1, elems, hmax, max, bl[..], lens);
    } else {
      LeafTestHolds(leaves, hs, d0, elems, hmax, maxCode);
      sizes, lens := LimitLengths(heap, dl, bl, freq, elems, maxCode, hmax, max, overflow, sizes, leaves, d0, lens,
        desc, sizes0);
    }
    FullLengths(leaves, dl[..], elems, max, bl[..], lens);
  }

  lemma WholeCut(max: nat, used: nat)
    requires 2 * used == Pow2(max + 1)
    ensures used == Pow2(max)
  {
  }

  lemma TreeSymbols(leaves: seq<nat>, freq: seq<nat>, elems: nat)
    requires InTree(leaves, freq, elems)
    ensures elems <= |freq|
  {
  }

  lemma FullLengths(leaves: seq<nat>, dl: seq<nat>, elems: nat, max: nat, bl: seq<nat>, lens: seq<nat>)
    requires FullCode(leaves, dl, elems, max, bl, lens)
    ensures |lens| == elems <= |dl| && dl[..elems] == lens
  {
    hide Pow2, Used, Counted;
    assert forall s :: 0 <= s < elems ==> dl[s] == lens[s];
  }

  lemma WeighedTree(leaves: seq<nat>, heap: seq<nat>, d0: seq<nat>, freq: seq<nat>, elems: nat, hmax: nat)
    requires Weighed(leaves, heap, d0, freq, elems, hmax)
    ensures Leaves(leaves, elems) && Rooted(leaves, heap, d0, elems, hmax)
  {
  }

  lemma OnlyLeavesLeft(leaves: seq<nat>, heap: seq<nat>, d0: seq<nat>, dl: seq<nat>, elems: nat, hmax: nat, max: nat,
                       lens: seq<nat>)
    requires Cut(leaves, heap, d0, dl, elems, hmax, HEAP_SIZE, max, lens)
    requires |d0| == |dl| >= elems && forall s :: 0 <= s < elems && s !in leaves ==> d0[s] == 0
    ensures forall s :: 0 <= s < elems && s !in leaves ==> dl[s] == 0
  {
  }

  /** What the depths say in the end. */
  lemma DepthsEnd(leaves: seq<nat>, heap: seq<nat>, d0: seq<nat>, dl: seq<nat>, freq: seq<nat>, elems: nat, hmax: nat,
                  max: nat, overflow: nat)
    requires Depths(leaves, heap, d0, dl, freq, elems, hmax, HEAP_SIZE, max, overflow) && InTree(leaves, freq, elems)
    requires elems <= |dl| == |freq|
    ensures overflow == 0 ==> Optimal(freq[..elems], dl[..elems])
    ensures overflow > 0 ==> |leaves| > 2 && Sum(freq[..elems]) >= Fib(max + 3)
    ensures |leaves| == 2 ==> forall s :: 0 <= s < elems && s in leaves ==> dl[s] == 1
  {
    hide Weighed, Optimal, Fib, Exact;
    if overflow == 0 {
      TreeIsOptimal(leaves, heap, d0, dl, freq, elems, hmax);
      if |leaves| == 2 {
        WeighedTree(leaves, heap, d0, freq, elems, hmax);
        forall s | 0 <= s < elems && s in leaves
          ensures dl[s] == 1
        {
          TwoOnes(leaves, heap, d0, dl, elems, hmax, s);
        }
      }
    } else {
      RootWeighs(leaves, heap, d0, freq, elems, hmax);
    }
  }

  lemma PassSizes(leaves: seq<nat>, heap: seq<nat>, d0: seq<nat>, dl: seq<nat>, elems: nat, hmax: nat, max: nat,
                  lens: seq<nat>, desc: Desc, sizes0: Sizes, sizes: Sizes, freq: seq<nat>)
    requires Leaves(leaves, elems) && Rooted(leaves, heap, d0, elems, hmax) && |d0| == |dl| >= elems
    requires Cut(leaves, heap, d0, dl, elems, hmax, HEAP_SIZE, max, lens)
    requires InTree(leaves, freq, elems) && forall s :: 0 <= s < elems && s !in leaves ==> dl[s] == 0
    requires SoFar(desc, sizes0, sizes, freq[..elems], lens)
    ensures Added(desc, sizes0, sizes, freq[..elems], dl[..elems])
  {
    hide SoFar, Added;
    forall s | 0 <= s < elems
      ensures dl[s] == lens[s] && (s in leaves ==> lens[s] > 0)
    {
      if s in leaves {
        LeafPlaced(leaves, heap, d0, elems, hmax, s);
        var g := PlaceOf(heap, hmax, HEAP_SIZE, s);
      } else {
        OnlyLeaves(leaves, heap, d0, elems, hmax, s);
        assert heap[hmax..] == heap[hmax..HEAP_SIZE];
      }
    }
    assert dl[..elems] == lens;
    AllSoFar(desc, sizes0, sizes, freq[..elems], lens);
  }

  lemma LeafTestHolds(leaves: seq<nat>, heap: seq<nat>, d0: seq<nat>, elems: nat, hmax: nat, maxCode: nat)
    requires Leaves(leaves, elems) && Rooted(leaves, heap, d0, elems, hmax)
    requires maxCode < elems && forall s :: s in leaves ==> s <= maxCode
    ensures LeafTest(heap, hmax, maxCode, elems)
  {
    forall h | hmax <= h < HEAP_SIZE
      ensures heap[h] <= maxCode <==> heap[h] < elems
    {
      IsNode(leaves, heap, d0, elems, hmax, h);
    }
  }

  // ---- gen_codes ----

  /** bi_reverse: the first len bits of a code, first bit lowest. */
  method BiReverse(code: nat, len: nat) returns (res: nat)
    requires 1 <= len
    ensures res < Pow2(len) && Pre(res, len) == Low(code, len)
  {
    var c, r, left := code, 0, len;
    ghost var i: nat, h: nat := 0, 0;
    while true
      invariant 0 < left && i + left == len
      invariant r == 2 * h && h < Pow2(i) && Pre(h, i) == Low(code, i) && c == Shr(code, i)
      decreases left
    {
      r := r + c % 2;
      PreCons(h, c % 2, i);
      LowStep(code, i);
      h, i := r, i + 1;
      c, r := c / 2, r * 2;
      left := left - 1;
      if left == 0 {
        break;
      }
    }
    res := r / 2;
  }

  /** The codes of the symbols below n, first bit lowest. */
  ghost predicate CodesUpTo(fc: seq<nat>, lens: seq<nat>, n: nat) {
    && n <= |lens| <= |fc|
    && forall s :: 0 <= s < n && lens[s] > 0 ==> fc[s] < Pow2(lens[s]) && Pre(fc[s], lens[s]) == CodeOf(lens, s)
  }

  /** The first code of each length. */
  method FirstCodes(bl: seq<nat>, ghost lens: seq<nat>) returns (next: seq<nat>)
    requires Counted(bl, lens) && Used(lens, MAXBITS) <= Pow2(MAXBITS)
    ensures |next| == MAXBITS + 1
    ensures forall l :: 1 <= l <= MAXBITS ==> next[l] == First(lens, l)
  {
    next := seq(MAXBITS + 1, _ => 0);
    var code: nat := 0;
    var bits: nat := 1;
    while bits <= MAXBITS
      invariant 1 <= bits <= MAXBITS + 1 && |next| == MAXBITS + 1
      invariant code + bl[bits - 1] == Used(lens, bits - 1) || bits == MAXBITS + 1
      invariant forall l :: 1 <= l < bits ==> next[l] == First(lens, l)
    {
      code := (code + bl[bits - 1]) * 2;
      NotOver(lens, bits - 1, MAXBITS);
      Pow2Mono(bits, MAXBITS);
      assert Pow2(15) == 32768;
      next := next[bits := code % 0x1_0000];
      bits := bits + 1;
    }
  }

  /** Every code fits in its length when the lengths do not over-subscribe. */
  lemma CodeFits(lens: seq<nat>, s: nat, max: nat)
    requires s < |lens| && 0 < lens[s] <= max && Used(lens, max) <= Pow2(max)
    ensures CodeOf(lens, s) < Pow2(lens[s])
  {
    CodeBounds(lens, s);
    NotOver(lens, lens[s], max);
  }

  /** gen_codes: the canonical codes of section 3.2.2 of RFC 1951, first bit lowest. */
  method GenCodes(fc: array<nat>, maxCode: nat, bl: seq<nat>, lens: seq<nat>, ghost max: nat)
    requires maxCode < |lens| <= fc.Length && max <= MAXBITS && Counted(bl, lens)
    requires Used(lens, max) <= Pow2(max) && Used(lens, MAXBITS) <= Pow2(MAXBITS)
    requires forall s :: 0 <= s < |lens| ==> lens[s] <= max && (s > maxCode ==> lens[s] == 0)
    modifies fc
    ensures CodesUpTo(fc[..], lens, |lens|)
  {
    hide Count, First, CodeOf, Used, Pow2, Pre, Low, CodesUpTo, Counted, NextCodes;
    var next := FirstCodes(bl, lens);
    NextFirst(lens, next);
    var n: nat := 0;
    NoCodesYet(fc[..], lens);
    while n <= maxCode
      invariant 0 <= n <= maxCode + 1 && |next| == MAXBITS + 1 && NextCodes(lens, n, next)
      invariant CodesUpTo(fc[..], lens, n)
    {
      var len := lens[n];
      NextStep(lens, n, next);
      ghost var was := fc[..];
      if len != 0 {
        CodeFits(lens, n, max);
        LowSmall(next[len], len);
        var r := BiReverse(next[len], len);
        fc[n] := r;
        next := next[len := next[len] + 1];
      }
      CodesGrow(was, fc[..], lens, n);
      n := n + 1;
    }
    CodesRest(fc[..], lens, n);
  }

  /** The next code of each length, after the first n symbols. */
  ghost predicate NextCodes(lens: seq<nat>, n: nat, next: seq<nat>)
    requires n <= |lens|
  {
    |next| == MAXBITS + 1 && forall l :: 1 <= l <= MAXBITS ==> next[l] == First(lens, l) + Count(lens[..n], l)
  }

  lemma NextFirst(lens: seq<nat>, next: seq<nat>)
    requires |next| == MAXBITS + 1 && forall l :: 1 <= l <= MAXBITS ==> next[l] == First(lens, l)
    ensures NextCodes(lens, 0, next)
  {
    hide First;
    assert lens[..0] == [];
  }

  lemma NextStep(lens: seq<nat>, n: nat, next: seq<nat>)
    requires n < |lens| && NextCodes(lens, n, next) && lens[n] <= MAXBITS
    ensures NextCodes(lens, n + 1, if lens[n] == 0 then next else next[lens[n] := next[lens[n]] + 1])
    ensures lens[n] > 0 ==> next[lens[n]] == CodeOf(lens, n)
  {
    hide First;
    assert lens[..n + 1][..n] == lens[..n];
  }

  lemma NoCodesYet(fc: seq<nat>, lens: seq<nat>)
    requires |lens| <= |fc|
    ensures CodesUpTo(fc, lens, 0)
  {
  }

  lemma CodesGrow(was: seq<nat>, fc: seq<nat>, lens: seq<nat>, n: nat)
    requires CodesUpTo(was, lens, n) && n < |lens| && |fc| == |was| && fc == was[n := fc[n]]
    requires lens[n] > 0 ==> fc[n] < Pow2(lens[n]) && Pre(fc[n], lens[n]) == CodeOf(lens, n)
    ensures CodesUpTo(fc, lens, n + 1)
  {
    hide Pow2, Pre, CodeOf;
  }

  lemma CodesRest(fc: seq<nat>, lens: seq<nat>, n: nat)
    requires CodesUpTo(fc, lens, n) && forall s :: n <= s < |lens| ==> lens[s] == 0
    ensures CodesUpTo(fc, lens, |lens|)
  {
    hide Pow2, Pre, CodeOf;
  }

  // ---- build_tree ----

  /** build_tree: from the symbols' frequencies to a complete set of code lengths and
      their codes. Every symbol with a frequency gets a code, no code is longer than
      max, and at least two symbols have one. Unless the lengths had to be limited, which takes
      at least a Fibonacci number of symbols, no prefix code for the frequencies is shorter.
      opt_len and static_len grow by the bits of the symbols in this code and in the fixed one. */
  method BuildTree(heap: array<nat>, fc: array<nat>, dl: array<nat>, depth: array<nat>, bl: array<nat>, elems: nat,
                   max: nat, desc: Desc, sizes0: Sizes)
      returns (maxCode: nat, sizes: Sizes, ghost limited: bool, ghost leaves: seq<nat>, ghost lens: seq<nat>)
    requires heap != fc && heap != dl && heap != depth && fc != dl && fc != depth && dl != depth
    requires bl != heap && bl != fc && bl != dl && bl != depth
    requires heap.Length == depth.Length == HEAP_SIZE && fc.Length == dl.Length == 2 * elems + 1
    requires bl.Length == MAXBITS + 1
    requires 3 <= elems && 2 * elems < HEAP_SIZE && 1 < max <= MAXBITS && elems <= Pow2(max) && desc.For(elems)
    modifies heap, fc, dl, depth, bl
    ensures FullCode(leaves, dl[..], elems, max, bl[..], lens) && Complete(lens) && |lens| == elems
    ensures CodesUpTo(fc[..], lens, elems)
    ensures forall s :: 0 <= s < elems && old(fc[s]) != 0 ==> lens[s] > 0
    ensures maxCode < elems && lens[maxCode] > 0 && forall s :: maxCode < s < elems ==> lens[s] == 0
    ensures 2 <= |leaves| <= elems
    ensures Added(desc, sizes0, sizes, old(fc[..elems]), lens)
    ensures !limited ==> Optimal(old(fc[..elems]), lens)
    ensures limited ==> Sum(old(fc[..elems])) >= Fib(max + 3)
  {
    hide Merging, Rooted, ByFrequency, Nodes, OrderedFrom, Added, Lowered, Optimal, Fib, Desc.For, Weighed, InTree,
      Forced, CodesUpTo, Complete, Counted, Pow2, Used, Leaves;
    ghost var f0 := fc[..];
    var hmax, s1;
    ghost var f1;
    hmax, maxCode, s1, leaves, f1 := GrowTree(heap, fc, dl, depth, elems, desc, sizes0);
    sizes, limited, lens := GenBitlen(heap, dl, bl, fc[..], elems, maxCode, hmax, max, desc, s1, leaves);
    Unforced(f0, f1, elems, |leaves|, leaves, lens, desc, sizes0, s1, sizes, limited, max);
    InUse(f0, f1, elems, leaves);
    FullIsComplete(leaves, dl[..], elems, max, bl[..], lens);
    FullLengths(leaves, dl[..], elems, max, bl[..], lens);
    GenCodes(fc, maxCode, bl[..], dl[..elems], max);
  }

  lemma InUse(f0: seq<nat>, f1: seq<nat>, elems: nat, leaves: seq<nat>)
    requires Forced(f0, f1, elems, |leaves|) && forall s :: 0 <= s < elems ==> (s in leaves <==> f1[s] != 0)
    ensures forall s :: 0 <= s < elems && f0[s] != 0 ==> s in leaves
  {
  }

  /** The Huffman tree of the frequencies; f1 are those with forced symbols. */
  method GrowTree(heap: array<nat>, fc: array<nat>, dl: array<nat>, depth: array<nat>, elems: nat,
                  desc: Desc, sizes0: Sizes)
      returns (hmax: nat, maxCode: nat, sizes: Sizes, ghost leaves: seq<nat>, ghost f1: seq<nat>)
    requires heap != fc && heap != dl && heap != depth && fc != dl && fc != depth && dl != depth
    requires heap.Length == depth.Length == HEAP_SIZE && fc.Length == dl.Length == 2 * elems + 1
    requires 3 <= elems && 2 * elems < HEAP_SIZE && desc.For(elems)
    modifies heap, fc, dl, depth
    ensures Weighed(leaves, heap[..], dl[..], fc[..], elems, hmax) && InTree(leaves, fc[..], elems)
    ensures |f1| == fc.Length && fc[..elems] == f1[..elems]
    ensures Forced(old(fc[..]), f1, elems, |leaves|)
    ensures Lowered(desc, sizes0, sizes, old(fc[..elems]), f1[..elems])
    ensures forall s :: 0 <= s < elems ==> (s in leaves <==> f1[s] != 0)
    ensures 2 <= |leaves| <= elems && maxCode < elems && maxCode in leaves && forall s :: s in leaves ==> s <= maxCode
    ensures forall s :: 0 <= s < elems && s !in leaves ==> dl[s] == 0
    ensures forall h :: hmax <= h < HEAP_SIZE ==> heap[h] < fc.Length && fc[heap[h]] <= Sum(f1[..elems])
  {
    hide Merging, Rooted, ByFrequency, Fathers, Nodes, OrderedFrom, Lowered, Desc.For, Weighed, InTree, Forced;
    var len, mc;
    len, mc, sizes, leaves := InitHeap(heap, fc, dl, depth, elems, desc, sizes0);
    maxCode := mc;
    ghost var h0 := heap[..];
    f1 := fc[..];
    HeapOfLeaves(leaves, h0, f1, depth[..], elems, len);
    Heapify(heap, len, fc[..], depth[..]);
    StartMerging(leaves, h0, heap[..], dl[..], fc[..], depth[..], elems, len);
    hmax := MergeAll(heap, fc, dl, depth, elems, len, leaves);
    MergedTree(leaves, heap[..], dl[..], f1, fc[..], elems, hmax);
    TreeWithin(leaves, heap[..], dl[..], fc[..], elems, hmax);
  }

  lemma TreeWithin(leaves: seq<nat>, heap: seq<nat>, dl: seq<nat>, freq: seq<nat>, elems: nat, hmax: nat)
    requires Weighed(leaves, heap, dl, freq, elems, hmax) && InTree(leaves, freq, elems)
    ensures forall h :: hmax <= h < |heap| ==> heap[h] < |freq| && freq[heap[h]] <= Sum(freq[..elems])
  {
    hide Weighed;
    NodesWithin(leaves, heap, dl, freq, elems, hmax);
  }

  lemma MergedTree(leaves: seq<nat>, heap: seq<nat>, dl: seq<nat>, f1: seq<nat>, freq: seq<nat>, elems: nat, hmax: nat)
    requires Leaves(leaves, elems) && Rooted(leaves, heap, dl, elems, hmax)
    requires ByFrequency(heap, freq, hmax) && Fathers(heap, freq, elems, |leaves| - 1)
    requires |f1| == |freq| >= elems && forall s :: 0 <= s < elems ==> freq[s] == f1[s]
    requires forall s :: 0 <= s < elems ==> (s in leaves <==> f1[s] != 0)
    ensures Weighed(leaves, heap, dl, freq, elems, hmax) && InTree(leaves, freq, elems) && freq[..elems] == f1[..elems]
  {
    hide Rooted, ByFrequency, Fathers;
  }

  /** Forced symbols do not count in the end. */
  lemma Unforced(f0: seq<nat>, f1: seq<nat>, elems: nat, len: nat, leaves: seq<nat>, lens: seq<nat>, desc: Desc,
                 s0: Sizes, s1: Sizes, s2: Sizes, limited: bool, max: nat)
    requires Forced(f0, f1, elems, len) && len == |leaves| && desc.For(elems) && |lens| == elems
    requires forall s :: 0 <= s < elems ==> (s in leaves <==> f1[s] != 0)
    requires Lowered(desc, s0, s1, f0[..elems], f1[..elems]) && Added(desc, s1, s2, f1[..elems], lens)
    requires !limited ==> Optimal(f1[..elems], lens)
    requires limited ==> len > 2 && Sum(f1[..elems]) >= Fib(max + 3)
    requires len == 2 ==> forall s :: 0 <= s < elems && s in leaves ==> lens[s] == 1
    requires len >= 2
    ensures Added(desc, s0, s2, f0[..elems], lens)
    ensures !limited ==> Optimal(f0[..elems], lens)
    ensures limited ==> Sum(f0[..elems]) >= Fib(max + 3)
  {
    hide Added, Lowered, Optimal, Fib;
    ForcedFree(desc, s0, s1, s2, f0[..elems], f1[..elems], lens);
    if len > 2 {
      assert f0[..elems] == f1[..elems];
    } else {
      OnesOptimal(f0[..elems], lens);
    }
  }

  lemma HeapOfLeaves(leaves: seq<nat>, heap: seq<nat>, freq: seq<nat>, depth: seq<nat>, elems: nat, len: nat)
    requires Leaves(leaves, elems) && |heap| == |depth| == HEAP_SIZE && |freq| == 2 * elems + 1
    requires len == |leaves| && heap[1..len + 1] == leaves
    ensures Nodes(heap, len, freq, depth)
  {
    forall i | 1 <= i <= len
      ensures heap[i] < |freq|
    {
      assert heap[1..len + 1][i - 1] == heap[i];
    }
  }

  lemma StartMerging(leaves: seq<nat>, h0: seq<nat>, heap: seq<nat>, dl: seq<nat>, freq: seq<nat>, depth: seq<nat>,
                     elems: nat, len: nat)
    requires Leaves(leaves, elems) && |h0| == |heap| == |depth| == HEAP_SIZE && |freq| == |dl| == 2 * elems + 1
    requires 2 <= len == |leaves| && h0[1..len + 1] == leaves
    requires Nodes(heap, len, freq, depth) && OrderedFrom(heap, len, freq, depth, 1)
    requires multiset(heap) == multiset(h0) && heap[0] == h0[0] && forall i :: len < i < HEAP_SIZE ==> heap[i] == h0[i]
    ensures Merging(leaves, heap, dl, freq, depth, elems, 0, len, HEAP_SIZE)
  {
    MiddleKeeps(heap, h0, len);
    assert heap[HEAP_SIZE..] == [] && Internal(elems, 0) == [];
  }

  lemma FullIsComplete(leaves: seq<nat>, dl: seq<nat>, elems: nat, max: nat, bl: seq<nat>, lens: seq<nat>)
    requires FullCode(leaves, dl, elems, max, bl, lens)
    ensures Complete(lens)
  {
    forall l | max < l <= MAXBITS
      ensures Count(lens, l) == 0
    {
      CountAbove(lens, max, l);
    }
    UsedBeyond(lens, max, MAXBITS);
    ShlPow2(max, MAXBITS - max);
  }

  /** Establish sub-heaps of increasing size. */
  method Heapify(heap: array<nat>, len: nat, freq: seq<nat>, depth: seq<nat>)
    requires 2 <= len && Nodes(heap[..], len, freq, depth)
    modifies heap
    ensures Nodes(heap[..], len, freq, depth) && OrderedFrom(heap[..], len, freq, depth, 1)
    ensures multiset(heap[..]) == old(multiset(heap[..])) && heap[0] == old(heap[0])
    ensures forall i :: len < i < heap.Length ==> heap[i] == old(heap[i])
  {
    var n := len / 2;
    while n >= 1
      invariant 0 <= n <= len / 2
      invariant Nodes(heap[..], len, freq, depth) && OrderedFrom(heap[..], len, freq, depth, n + 1)
      invariant multiset(heap[..]) == old(multiset(heap[..])) && heap[0] == old(heap[0])
      invariant forall i :: len < i < heap.Length ==> heap[i] == old(heap[i])
    {
      PqDownHeap(heap, len, freq, depth, n);
      n := n - 1;
    }
  }
}
