/** trees.c: the codes of fixed blocks (section 3.2.6 of RFC 1951). */
module StaticTrees {
  import opened Bits
  import opened Canonical
  import opened InflateSpec
  import opened TreeLengths
  import opened TreeCodes

  const L_CODES := 286
  const D_CODES := 30

  lemma {:induction false} CountCat(a: seq<nat>, b: seq<nat>, l: nat)
    ensures Count(a + b, l) == Count(a, l) + Count(b, l)
  {
    if b == [] {
      assert a + b == a;
    } else {
      var k := |b| - 1;
      CountCat(a, b[..k], l);
      assert (a + b)[..|a + b| - 1] == a + b[..k];
    }
  }

  lemma {:induction false} CountCopies(v: nat, n: nat, l: nat)
    ensures Count(Copies(v, n), l) == if v == l then n else 0
  {
    if n != 0 {
      CountCopies(v, n - 1, l);
      assert Copies(v, n)[..n - 1] == Copies(v, n - 1);
    }
  }

  lemma FixedRuns()
    ensures FixedLit() == Copies(8, 144) + Copies(9, 112) + Copies(7, 24) + Copies(8, 8)
    ensures FixedDist() == Copies(5, 32)
  {
  }

  lemma FixedCounts(l: nat)
    ensures Count(FixedLit(), l) == if l == 7 then 24 else if l == 8 then 152 else if l == 9 then 112 else 0
    ensures Count(FixedDist(), l) == if l == 5 then 32 else 0
  {
    FixedRuns();
    hide FixedLit, FixedDist, Count, Copies;
    CountCat(Copies(8, 144) + Copies(9, 112) + Copies(7, 24), Copies(8, 8), l);
    CountCat(Copies(8, 144) + Copies(9, 112), Copies(7, 24), l);
    CountCat(Copies(8, 144), Copies(9, 112), l);
    CountCopies(8, 144, l);
    CountCopies(9, 112, l);
    CountCopies(7, 24, l);
    CountCopies(8, 8, l);
    CountCopies(5, 32, l);
  }

  /** The fixed codes use up all codes there are. */
  lemma FixedComplete()
    ensures Used(FixedLit(), 9) == Pow2(9) && Complete(FixedLit())
    ensures Used(FixedDist(), 4) == 0
  {
    var L := FixedLit();
    forall l: nat
      ensures Count(L, l) == if l == 7 then 24 else if l == 8 then 152 else if l == 9 then 112 else 0
    {
      FixedCounts(l);
    }
    forall l: nat | 0 < l <= 4
      ensures Count(FixedDist(), l) == 0
    {
      FixedCounts(l);
    }
    hide FixedLit, FixedDist, Count;
    NoneUsed(FixedDist(), 4);
    NoneUsed(L, 6);
    assert Used(L, 7) == 24 && Used(L, 8) == 200 && Used(L, 9) == 512;
    assert Pow2(9) == 512;
    UsedBeyond(L, 9, MAXBITS);
    ShlPow2(9, MAXBITS - 9);
  }

  /** Setting one run of lengths and counting them. */
  method FillLens(lens: array<nat>, bl: array<nat>, from: nat, to: nat, v: nat)
    requires lens != bl && from <= to <= lens.Length && bl.Length == MAXBITS + 1 && 0 < v <= MAXBITS
    requires Counted(bl[..], lens[..from])
    modifies lens, bl
    ensures Counted(bl[..], lens[..to]) && lens[..to] == old(lens[..from]) + Copies(v, to - from)
  {
    var n := from;
    while n < to
      invariant from <= n <= to && Counted(bl[..], lens[..n])
      invariant lens[..n] == old(lens[..from]) + Copies(v, n - from)
    {
      ghost var was := lens[..n];
      lens[n] := v;
      bl[v] := bl[v] + 1;
      assert lens[..n + 1] == was + [v] && lens[..n + 1][..n] == was;
      n := n + 1;
    }
  }

  /** tr_static_init: the two codes of a fixed block. */
  method StaticInit() returns (lfc: array<nat>, dfc: array<nat>)
    ensures fresh(lfc) && fresh(dfc) && lfc.Length == L_CODES + 2 && dfc.Length == D_CODES
    ensures forall s :: 0 <= s < L_CODES + 2 ==> Coded(lfc[..], FixedLit(), s)
    ensures forall s :: 0 <= s < D_CODES ==> Coded(dfc[..], FixedDist(), s)
  {
    lfc, dfc := new nat[L_CODES + 2], new nat[D_CODES];
    LitCodes(lfc);
    DistCodes(dfc);
  }

  method LitCodes(lfc: array<nat>)
    requires lfc.Length == L_CODES + 2
    modifies lfc
    ensures forall s :: 0 <= s < L_CODES + 2 ==> Coded(lfc[..], FixedLit(), s)
  {
    var lens := StaticLens();
    FixedIsUsed();
    hide FixedLit, Used, CodesUpTo, Counted;
    GenCodes(lfc, L_CODES + 1, lens.1, lens.0, 9);
    FixedCoded(lfc[..]);
  }

  method StaticLens() returns (r: (seq<nat>, seq<nat>))
    ensures r.0 == FixedLit() && Counted(r.1, r.0)
  {
    var lens, bl := new nat[L_CODES + 2], new nat[MAXBITS + 1](_ => 0);
    assert lens[..0] == [];
    FillLens(lens, bl, 0, 144, 8);
    FillLens(lens, bl, 144, 256, 9);
    FillLens(lens, bl, 256, 280, 7);
    FillLens(lens, bl, 280, 288, 8);
    FixedRuns();
    assert lens[..] == lens[..288];
    r := (lens[..], bl[..]);
  }

  lemma FixedIsUsed()
    ensures |FixedLit()| == 288 && forall s :: 0 <= s < 288 ==> 7 <= FixedLit()[s] <= 9
    ensures Used(FixedLit(), 9) <= Pow2(9) && Used(FixedLit(), MAXBITS) <= Pow2(MAXBITS)
  {
    FixedComplete();
  }

  lemma FixedCoded(fc: seq<nat>)
    requires CodesUpTo(fc, FixedLit(), |FixedLit()|)
    ensures forall s :: 0 <= s < L_CODES + 2 ==> Coded(fc, FixedLit(), s)
  {
    FixedIsUsed();
    hide FixedLit, Pow2, Pre, CodeOf, Used;
  }

  lemma DistCode(s: nat)
    requires s < D_CODES
    ensures |FixedDist()| == 32 && FixedDist()[s] == 5 && CodeOf(FixedDist(), s) == s
  {
    FixedComplete();
    FixedRuns();
    assert Copies(5, 32)[..s] == Copies(5, s);
    CountCopies(5, s, 5);
  }

  method DistCodes(dfc: array<nat>)
    requires dfc.Length == D_CODES
    modifies dfc
    ensures forall s :: 0 <= s < D_CODES ==> Coded(dfc[..], FixedDist(), s)
  {
    var n := 0;
    while n < D_CODES
      invariant 0 <= n <= D_CODES
      invariant forall s :: 0 <= s < n ==> Coded(dfc[..], FixedDist(), s)
    {
      var r := BiReverse(n, 5);
      DistCode(n);
      FiveBits(n);
      ghost var was := dfc[..];
      dfc[n] := r;
      assert dfc[..] == was[n := r];
      CodedKept(was, dfc[..], FixedDist(), n, r);
      n := n + 1;
    }
  }

  lemma FiveBits(n: nat)
    requires n < 32
    ensures Low(n, 5) == n
  {
    assert Pow2(5) == 32;
    LowSmall(n, 5);
  }

  lemma CodedKept(fc: seq<nat>, fc': seq<nat>, lens: seq<nat>, n: nat, r: nat)
    requires n < |fc| && fc' == fc[n := r] && forall s :: 0 <= s < n ==> Coded(fc, lens, s)
    ensures forall s :: 0 <= s < n ==> Coded(fc', lens, s)
  {
    hide Pow2, Pre, CodeOf;
    forall s | 0 <= s < n
      ensures Coded(fc', lens, s)
    {
      assert Coded(fc, lens, s);
    }
  }
}
