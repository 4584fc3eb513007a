/** trees.c: how many bits a block takes, from the counts of its symbols. */
module BlockSizes {
  import opened Wrappers
  import opened Bits
  import opened Sums
  import opened Canonical
  import opened CodeLengths
  import opened SymbolCodes
  import opened HeaderDecode
  import opened BlockDecode
  import opened TreeSizes
  import opened TreeState
  import InflateSpec

  /** static_l_desc, static_d_desc and static_bl_desc. */
  function LitDesc(): Desc {
    Desc(Some(InflateSpec.FixedLit()[..L_CODES]), EXTRA_LBITS, 257)
  }

  function DistDesc(): Desc {
    Desc(Some(InflateSpec.FixedDist()[..D_CODES]), EXTRA_DBITS, 0)
  }

  function BlDesc(): Desc {
    Desc(None, seq(BL_CODES, s requires 0 <= s => ExtraBits(s)), 0)
  }

  lemma DescsFor()
    ensures LitDesc().For(L_CODES) && DistDesc().For(D_CODES) && BlDesc().For(BL_CODES)
  {
  }

  // ---- Counting ----

  function Bump(c: seq<nat>, s: nat): (r: seq<nat>)
    ensures |r| == |c|
  {
    if s < |c| then c[s := c[s] + 1] else c
  }

  lemma BumpBits(desc: Desc, f: seq<nat>, lens: seq<nat>, s: nat)
    requires |f| == |lens| && s < |f|
    ensures SymbolBits(desc, Bump(f, s), lens) == SymbolBits(desc, f, lens) + lens[s] + desc.Extra(s)
  {
    var v := Plus(lens, desc.Extras(|lens|));
    WeightUpdate(f, v, s, f[s] + 1);
    assert (f[s] + 1) * v[s] == f[s] * v[s] + v[s];
  }

  lemma NoBits(desc: Desc, f: seq<nat>, lens: seq<nat>)
    requires |f| == |lens| && forall i :: 0 <= i < |f| ==> f[i] == 0
    ensures SymbolBits(desc, f, lens) == 0
  {
    WeightedNone(f, Plus(lens, desc.Extras(|lens|)));
  }

  /** Items whose codes can be looked up. */
  ghost predicate Known(t: Coder, it: Item) {
    && ValidItem(it) && |t.lengthCode| == 256 && |t.distCode| == 512
    && LitSym(t.lengthCode, it) < L_CODES
    && (it.Reference? ==> DCode(t.distCode, it.dist - 1) < D_CODES)
  }

  ghost predicate AllKnown(t: Coder, items: seq<Item>) {
    |t.lengthCode| == 256 && |t.distCode| == 512 && forall i :: 0 <= i < |items| ==> Known(t, items[i])
  }

  /** How often each literal/length symbol is sent, the end of the block included. */
  ghost function LitCounts(t: Coder, items: seq<Item>): (r: seq<nat>)
    requires AllKnown(t, items)
    ensures |r| == L_CODES
  {
    if items == [] then seq(L_CODES, _ => 0)[END_BLOCK := 1]
    else
      var k := |items| - 1;
      Bump(LitCounts(t, items[..k]), LitSym(t.lengthCode, items[k]))
  }

  /** How often each distance code is sent. */
  ghost function DistCounts(t: Coder, items: seq<Item>): (r: seq<nat>)
    requires AllKnown(t, items)
    ensures |r| == D_CODES
  {
    if items == [] then seq(D_CODES, _ => 0)
    else
      var k := |items| - 1;
      var r := DistCounts(t, items[..k]);
      match items[k]
      case Literal(_) => r
      case Reference(_, dist) => Bump(r, DCode(t.distCode, dist - 1))
  }

  /** The frequencies are the counts. */
  ghost predicate CountsAre(t: Coder, lfreq: seq<nat>, dfreq: seq<nat>, items: seq<Item>) {
    && AllKnown(t, items) && L_CODES <= |lfreq| && D_CODES <= |dfreq|
    && lfreq[..L_CODES] == LitCounts(t, items) && dfreq[..D_CODES] == DistCounts(t, items)
  }

  lemma TallyNone(t: Coder, lfreq: seq<nat>, dfreq: seq<nat>)
    requires |t.lengthCode| == 256 && |t.distCode| == 512 && L_CODES <= |lfreq| && D_CODES <= |dfreq|
    requires forall s :: 0 <= s < L_CODES ==> lfreq[s] == if s == END_BLOCK then 1 else 0
    requires forall s :: 0 <= s < D_CODES ==> dfreq[s] == 0
    ensures CountsAre(t, lfreq, dfreq, [])
  {
    assert lfreq[..L_CODES] == LitCounts(t, []);
    assert dfreq[..D_CODES] == DistCounts(t, []);
  }

  lemma TallyNext(t: Coder, lf: seq<nat>, df: seq<nat>, lf': seq<nat>, df': seq<nat>, items: seq<Item>, it: Item)
    requires CountsAre(t, lf, df, items) && Known(t, it)
    requires lf' == Bump(lf, LitSym(t.lengthCode, it))
    requires df' == if it.Reference? then Bump(df, DCode(t.distCode, it.dist - 1)) else df
    ensures CountsAre(t, lf', df', items + [it])
  {
    var all := items + [it];
    assert all[..|all| - 1] == items;
    assert AllKnown(t, all);
    assert lf'[..L_CODES] == LitCounts(t, all);
    assert df'[..D_CODES] == DistCounts(t, all);
  }

  lemma BumpSum(c: seq<nat>, s: nat)
    requires s < |c|
    ensures Sum(Bump(c, s)) == Sum(c) + 1
  {
    hide Sum;
    SumUpdate(c, s, c[s] + 1);
  }

  /** As many symbols are counted as there are items, and one for the end of the block. */
  lemma {:induction false} CountsTotal(t: Coder, items: seq<Item>)
    requires AllKnown(t, items)
    ensures Sum(LitCounts(t, items)) == |items| + 1 && Sum(DistCounts(t, items)) <= |items|
  {
    hide Bump;
    if items == [] {
      SumZero(seq(L_CODES, _ => 0));
      SumZero(DistCounts(t, items));
      EndOnly();
      BumpSum(seq(L_CODES, _ => 0), END_BLOCK);
    } else {
      var k := |items| - 1;
      assert Known(t, items[k]);
      CountsTotal(t, items[..k]);
      BumpSum(LitCounts(t, items[..k]), LitSym(t.lengthCode, items[k]));
      if items[k].Reference? {
        BumpSum(DistCounts(t, items[..k]), DCode(t.distCode, items[k].dist - 1));
      }
    }
  }

  /** A full buffer keeps all frequencies of a tree, whose nodes are at most the total, in 16
      bits, two forced symbols included. */
  lemma FrequenciesFit(t: Coder, lfreq: seq<nat>, dfreq: seq<nat>, items: seq<Item>)
    requires CountsAre(t, lfreq, dfreq, items) && 3 * |items| < 0x1_8000
    ensures Sum(lfreq[..L_CODES]) + 2 < 0x1_0000 && Sum(dfreq[..D_CODES]) + 2 < 0x1_0000
  {
    CountsTotal(t, items);
  }

  /** Every symbol of every item has been counted. */
  lemma TallyCounts(t: Coder, lfreq: seq<nat>, dfreq: seq<nat>, items: seq<Item>)
    requires CountsAre(t, lfreq, dfreq, items)
    ensures AllCounted(t, lfreq, dfreq, items)
  {
    EndCounted(t, items);
    assert lfreq[END_BLOCK] == lfreq[..L_CODES][END_BLOCK];
    forall i | 0 <= i < |items|
      ensures HasCounts(t, lfreq, dfreq, items[i])
    {
      assert Known(t, items[i]);
      CountsHave(t, items, i);
      assert lfreq[LitSym(t.lengthCode, items[i])] == lfreq[..L_CODES][LitSym(t.lengthCode, items[i])];
      if items[i].Reference? {
        var d := DCode(t.distCode, items[i].dist - 1);
        assert dfreq[d] == dfreq[..D_CODES][d];
      }
    }
  }

  lemma {:induction false} EndCounted(t: Coder, items: seq<Item>)
    requires AllKnown(t, items)
    ensures LitCounts(t, items)[END_BLOCK] > 0
  {
    if items != [] {
      EndCounted(t, items[..|items| - 1]);
    }
  }

  lemma {:induction false} CountsHave(t: Coder, items: seq<Item>, i: nat)
    requires AllKnown(t, items) && i < |items|
    ensures Known(t, items[i]) && LitCounts(t, items)[LitSym(t.lengthCode, items[i])] > 0
    ensures items[i].Reference? ==> DistCounts(t, items)[DCode(t.distCode, items[i].dist - 1)] > 0
  {
    var k := |items| - 1;
    assert Known(t, items[i]) && Known(t, items[k]);
    if i < k {
      CountsHave(t, items[..k], i);
    }
  }

  // ---- The body ----

  /** As far as both go, the lengths are the same. */
  ghost predicate Agree(a: seq<nat>, b: seq<nat>) {
    forall s :: 0 <= s < |a| && s < |b| ==> a[s] == b[s]
  }

  lemma ItemLength(c: Coder, it: Item, llens: seq<nat>, dlens: seq<nat>)
    requires Sends(c, it) && Known(c, it) && Agree(c.llens, llens) && Agree(c.dlens, dlens)
    requires |llens| == L_CODES && |dlens| == D_CODES
    ensures var s := LitSym(c.lengthCode, it);
      ItemBits(c, it).len == llens[s] + LitDesc().Extra(s) +
        if it.Literal? then 0 else
          var d := DCode(c.distCode, it.dist - 1); dlens[d] + DistDesc().Extra(d)
  {
    hide LengthTable, DistTable, Pow2, LitDesc, DistDesc, LengthBits, DistBits, Pre, CodeOf, DCode;
    match it
    case Literal(b) =>
      PlainLiteral(b);
    case Reference(length, dist) =>
      LengthLen(c, length);
      DistLen(c, dist);
  }

  lemma PlainLiteral(b: byte)
    ensures LitDesc().Extra(b) == 0
  {
  }

  lemma LengthLen(c: Coder, length: nat)
    requires SendsLength(c, length) && |c.lengthCode| == 256 && c.lengthCode[length - 3] + 257 < L_CODES
    ensures var s := c.lengthCode[length - 3] + 257;
      s < |c.llens| && LengthBits(c, length).len == c.llens[s] + LitDesc().Extra(s)
  {
    var k := c.lengthCode[length - 3];
    assert LengthEntry(length - 3, k, c.baseLength);
    hide LengthTable, Pow2, InflateSpec.FixedLit, LengthEntry, Pre, CodeOf;
    assert LitDesc().Extra(k + 257) == EXTRA_LBITS[k];
    hide LitDesc, EXTRA_LBITS;
  }

  lemma DistLen(c: Coder, dist: nat)
    requires SendsDist(c, dist) && |c.distCode| == 512 && DCode(c.distCode, dist - 1) < D_CODES
    ensures var d := DCode(c.distCode, dist - 1);
      d < |c.dlens| && DistBits(c, dist).len == c.dlens[d] + DistDesc().Extra(d)
  {
  }

  lemma {:induction false} BodySnoc(c: Coder, items: seq<Item>, it: Item)
    requires SendsAll(c, items) && Sends(c, it)
    ensures SendsAll(c, items + [it])
    ensures BodyBits(c, items + [it]).len == BodyBits(c, items).len + ItemBits(c, it).len
    decreases |items|
  {
    hide Sends, ItemBits, Pow2;
    var all := items + [it];
    if items == [] {
      assert all[1..] == [];
    } else {
      assert all[1..] == items[1..] + [it];
      BodySnoc(c, items[1..], it);
    }
  }

  /** The length of a block's body, from its counts. */
  lemma {:induction false} BodyLength(c: Coder, items: seq<Item>, llens: seq<nat>, dlens: seq<nat>)
    requires SendsAll(c, items) && AllKnown(c, items) && Agree(c.llens, llens) && Agree(c.dlens, dlens)
    requires |llens| == L_CODES && |dlens| == D_CODES
    ensures BodyBits(c, items).len
      == SymbolBits(LitDesc(), LitCounts(c, items), llens) + SymbolBits(DistDesc(), DistCounts(c, items), dlens)
  {
    hide Sends, ItemBits, SymbolBits, Bump;
    if items == [] {
      var none := seq(L_CODES, _ => 0);
      NoBits(LitDesc(), none, llens);
      BumpBits(LitDesc(), none, llens, END_BLOCK);
      EndOnly();
      NoBits(DistDesc(), DistCounts(c, items), dlens);
    } else {
      var k := |items| - 1;
      var rest, it := items[..k], items[k];
      assert rest + [it] == items && Known(c, it);
      BodyLength(c, rest, llens, dlens);
      BodySnoc(c, rest, it);
      ItemLength(c, it, llens, dlens);
      BumpBits(LitDesc(), LitCounts(c, rest), llens, LitSym(c.lengthCode, it));
      if it.Reference? {
        BumpBits(DistDesc(), DistCounts(c, rest), dlens, DCode(c.distCode, it.dist - 1));
      }
    }
  }

  lemma EndOnly()
    ensures Bump(seq(L_CODES, _ => 0), END_BLOCK) == seq(L_CODES, _ => 0)[END_BLOCK := 1]
    ensures LitDesc().Extra(END_BLOCK) == 0
  {
  }

  // ---- The header ----

  ghost function OccursAll(ts: seq<Token>): (r: seq<nat>)
    ensures |r| == BL_CODES
  {
    seq(BL_CODES, k requires 0 <= k => Occurs(ts, k))
  }

  lemma {:induction false} TokensLength(ts: seq<Token>, fc: seq<nat>, lens: seq<nat>)
    requires Sendable(ts, fc, lens) && |lens| == BL_CODES
    ensures TokensBits(ts, fc, lens).len == SymbolBits(BlDesc(), OccursAll(ts), lens)
  {
    hide SymbolBits, Pow2;
    if ts == [] {
      NoBits(BlDesc(), OccursAll(ts), lens);
    } else {
      TokensLength(ts[1..], fc, lens);
      assert OccursAll(ts) == Bump(OccursAll(ts[1..]), ts[0].sym);
      BumpBits(BlDesc(), OccursAll(ts[1..]), lens, ts[0].sym);
    }
  }

  lemma {:induction false} LenLensLength(clens: seq<nat>, have: nat, ncode: nat)
    requires |clens| == BL_CODES && have <= ncode <= BL_CODES
    ensures LenLensBits(clens, have, ncode).len == 3 * (ncode - have)
    decreases ncode - have
  {
    hide Pow2, BL_ORDER;
    if have < ncode {
      LenLensLength(clens, have + 1, ncode);
    }
  }

  lemma HeaderLength(L: seq<nat>, D: seq<nat>, clens: seq<nat>, fc: seq<nat>, ncode: nat)
    requires Header(L, D, clens, fc, ncode)
    ensures HeaderBits(L, D, clens, fc, ncode).len
      == 14 + 3 * ncode + TokensBits(TreeTokens(L), fc, clens).len + TokensBits(TreeTokens(D), fc, clens).len
  {
    hide Pow2, TokensBits, TreeTokens, LenLensBits, Complete, Sendable;
    LenLensLength(clens, 0, ncode);
  }

  /** Counts of both trees together. */
  lemma BothTrees(f: seq<nat>, a: seq<Token>, b: seq<Token>, fc: seq<nat>, lens: seq<nat>)
    requires Sendable(a, fc, lens) && Sendable(b, fc, lens) && |lens| == |f| == BL_CODES
    requires forall k :: 0 <= k < BL_CODES ==> f[k] == Occurs(a, k) + Occurs(b, k)
    ensures SymbolBits(BlDesc(), f, lens) == TokensBits(a, fc, lens).len + TokensBits(b, fc, lens).len
  {
    hide SymbolBits, TokensBits, Sendable;
    TokensLength(a, fc, lens);
    TokensLength(b, fc, lens);
    assert f == Plus(OccursAll(a), OccursAll(b));
    BitsAdd(BlDesc(), OccursAll(a), OccursAll(b), lens);
  }

  lemma BitsAdd(desc: Desc, a: seq<nat>, b: seq<nat>, lens: seq<nat>)
    requires |a| == |b| == |lens|
    ensures SymbolBits(desc, Plus(a, b), lens) == SymbolBits(desc, a, lens) + SymbolBits(desc, b, lens)
  {
    PlusWeighted(a, b, Plus(lens, desc.Extras(|lens|)));
  }

  lemma {:induction false} PlusWeighted(a: seq<nat>, b: seq<nat>, l: seq<nat>)
    requires |a| == |b| == |l|
    ensures Weighted(Plus(a, b), l) == Weighted(a, l) + Weighted(b, l)
  {
    if a != [] {
      var m := |a| - 1;
      assert Plus(a, b)[..m] == Plus(a[..m], b[..m]);
      PlusWeighted(a[..m], b[..m], l[..m]);
      WeightedLast(Plus(a, b), l);
      WeightedLast(a, l);
      WeightedLast(b, l);
      assert (a[m] + b[m]) * l[m] == a[m] * l[m] + b[m] * l[m];
    }
  }
}
