/** trees.c: _tr_tally and _tr_flush_block. */
module TreeFlush {
  import opened Wrappers
  import opened Bits
  import opened Canonical
  import opened BitWriter
  import opened CodeLengths
  import opened SymbolCodes
  import opened HeaderDecode
  import opened BlockDecode
  import opened BlockReads
  import opened BlockWriter
  import opened TreeState
  import opened TreeSizes
  import opened BlockSizes
  import InflateSpec
  import StaticTrees

  const MAX_BL_BITS := 7

  /** A tree as the decoder sees it: cut after its last used code. */
  lemma CutTree(fc: seq<nat>, dl0: seq<nat>, freq: seq<nat>, lens: seq<nat>, elems: nat, max: nat, maxCode: nat,
                dl: seq<nat>)
    requires CodeFor(fc, dl0, freq, lens, elems, max, maxCode) && elems < |dl0| && dl == dl0[maxCode + 1 := GUARD]
    ensures var L := dl[..maxCode + 1];
      && Guarded(dl, maxCode) && Complete(L) && Covers(fc, L, freq, elems)
      && (forall i :: 0 <= i < |L| ==> L[i] < REP_3_6)
      && (forall s :: 0 <= s < elems && freq[s] > 0 ==> s <= maxCode && L[s] > 0)
  {
    var L := dl[..maxCode + 1];
    assert L == lens[..maxCode + 1];
    CutUsed(lens, maxCode + 1, MAXBITS);
    hide Used, Pow2, Coded;
    forall s | 0 <= s < elems && freq[s] > 0
      ensures Coded(fc, L, s) && s <= maxCode && L[s] > 0
    {
      assert lens[s] > 0;
      CutCoded(fc, lens, maxCode + 1, s);
    }
  }

  /** The code length code can send both trees. */
  lemma BlHeader(bfc: seq<nat>, bdl: seq<nat>, freq: seq<nat>, blens: seq<nat>, bmax: nat,
                 f0: seq<nat>, f1: seq<nat>, L: seq<nat>, D: seq<nat>)
    requires CodeFor(bfc, bdl, freq, blens, BL_CODES, MAX_BL_BITS, bmax)
    requires Adds(f0, f1, TreeTokens(L)) && Adds(f1, freq, TreeTokens(D))
    requires (forall i :: 0 <= i < |L| ==> L[i] < REP_3_6) && (forall i :: 0 <= i < |D| ==> D[i] < REP_3_6)
    ensures Sendable(TreeTokens(L), bfc, blens) && Sendable(TreeTokens(D), bfc, blens)
    ensures Complete(blens) && |blens| == BL_CODES && bdl[..BL_CODES] == blens
    ensures forall i :: 0 <= i < BL_CODES ==> blens[i] < 8 && (blens[i] > 0 ==> Coded(bfc, blens, i))
  {
    assert bdl[..BL_CODES] == blens;
    TreeTokensMean(L, []);
    TreeTokensMean(D, []);
    CoderCodes(bfc, blens);
    hide Complete, TreeTokens, Coded, Codes, Legal, Sendable;
    CountedSendable(TreeTokens(L), freq, blens, bfc, []);
    CountedSendable(TreeTokens(D), freq, blens, bfc, []);
  }

  lemma CoderCodes(fc: seq<nat>, lens: seq<nat>)
    requires |lens| <= |fc| && forall s :: 0 <= s < |lens| ==> lens[s] <= MAXBITS
    requires |lens| <= |fc| && forall s :: 0 <= s < |lens| ==> (lens[s] > 0 ==> Coded(fc, lens, s))
    ensures Codes(fc, lens)
  {
  }

  /** Some length sent is not zero, so a plain length symbol has a code. */
  lemma PlainHasCode(bfc: seq<nat>, blens: seq<nat>, L: seq<nat>, k: nat) returns (p: nat)
    requires Sendable(TreeTokens(L), bfc, blens) && |blens| == BL_CODES
    requires k < |L| && L[k] != 0 && forall j :: 0 <= j < |L| ==> L[j] < REP_3_6
    ensures p < REP_3_6 && blens[p] > 0
  {
    var i := SomePlain(L, k);
    p := TreeTokens(L)[i].sym;
  }

  lemma SmallTrees()
    ensures 286 <= Pow2(15) && 30 <= Pow2(15) && 19 <= Pow2(7)
  {
    assert Pow2(15) == 32768 && Pow2(7) == 128;
  }

  /** The code length code that sends the lengths L and D. */
  ghost predicate BlCode(L: seq<nat>, D: seq<nat>, blens: seq<nat>, bfc: seq<nat>, blcodes: nat) {
    && Sendable(TreeTokens(L), bfc, blens) && Sendable(TreeTokens(D), bfc, blens)
    && Complete(blens) && |blens| == BL_CODES && 4 <= blcodes <= BL_CODES
    && (forall i :: 0 <= i < BL_CODES ==> blens[i] < 8 && (blens[i] > 0 ==> Coded(bfc, blens, i)))
    && (forall i :: 0 <= i < BL_CODES && PLACE[i] >= blcodes ==> blens[i] == 0)
  }

  lemma HeaderHolds(L: seq<nat>, D: seq<nat>, blens: seq<nat>, bfc: seq<nat>, blcodes: nat)
    requires BlCode(L, D, blens, bfc, blcodes) && 257 <= |L| <= 286 && 1 <= |D| <= 30 && L[256] != 0
    requires Complete(L) && Complete(D)
    requires (forall i :: 0 <= i < |L| ==> L[i] < REP_3_6) && (forall i :: 0 <= i < |D| ==> D[i] < REP_3_6)
    ensures Header(L, D, blens, bfc, blcodes)
  {
    hide Complete, Sendable, Coded, TreeTokens;
  }

  /** build_bl_tree: count the symbols that send both trees, build their code, and find
      the last length of it that is sent. `some` is a symbol in use. opt_len grows by the bits of
      the header. */
  method BuildBlTree(l: Tree, d: Tree, b: Tree, k: Work, lmax: nat, dmax: nat, sizes0: Sizes, ghost some: nat)
      returns (blcodes: nat, sizes: Sizes)
    requires b.Shape(BL_CODES) && k.Shape() && Apart(b, k)
    requires l.dl != b.fc && l.dl != b.dl && d.dl != b.fc && d.dl != b.dl && l.dl != d.dl
    requires Apart(l, k) && Apart(d, k)
    requires lmax + 1 < l.dl.Length && dmax + 1 < d.dl.Length && some <= lmax && l.dl[some] != 0
    requires (forall i :: 0 <= i <= lmax ==> l.dl[i] < REP_3_6) && (forall i :: 0 <= i <= dmax ==> d.dl[i] < REP_3_6)
    requires forall i :: 0 <= i < BL_CODES ==> b.fc[i] == 0
    modifies l.dl, d.dl, b.fc, b.dl, k.heap, k.depth, k.blCount
    ensures l.dl[..] == old(l.dl[..])[lmax + 1 := GUARD] && d.dl[..] == old(d.dl[..])[dmax + 1 := GUARD]
    ensures BlCode(l.dl[..lmax + 1], d.dl[..dmax + 1], b.dl[..BL_CODES], b.fc[..], blcodes)
    ensures sizes == sizes0.(opt := sizes0.opt +
      TreesLen(l.dl[..lmax + 1], d.dl[..dmax + 1], b.dl[..BL_CODES], b.fc[..], blcodes))
  {
    hide Adds, Complete, Pow2, Coded, TreeTokens, Sendable, Added, Desc.For, TokensBits;
    ghost var f0 := b.fc[..];
    ghost var L, D := l.dl[..lmax + 1], d.dl[..dmax + 1];
    ScanTree(l.dl, lmax, b.fc);
    ghost var f1 := b.fc[..];
    ScanTree(d.dl, dmax, b.fc);
    ghost var f2 := b.fc[..];
    SmallTrees();
    DescsFor();
    var bmax;
    ghost var blens;
    bmax, sizes, blens := Build(b, k, MAX_BL_BITS, BlDesc(), sizes0);
    BlHeader(b.fc[..], b.dl[..], f2, blens, bmax, f0, f1, L, D);
    ghost var p := PlainHasCode(b.fc[..], blens, L, some);
    blcodes := CountCodes(b.dl[..BL_CODES], p);
    assert l.dl[..lmax + 1] == L && d.dl[..dmax + 1] == D;
    BlSizes(f0, f1, f2, L, D, b.fc[..], blens, sizes0, sizes);
    sizes := sizes.(opt := sizes.opt + 3 * blcodes + 5 + 5 + 4);
  }

  /** The bits of a header. */
  ghost function TreesLen(L: seq<nat>, D: seq<nat>, blens: seq<nat>, bfc: seq<nat>, blcodes: nat): nat
    requires BlCode(L, D, blens, bfc, blcodes)
  {
    14 + 3 * blcodes + TokensBits(TreeTokens(L), bfc, blens).len + TokensBits(TreeTokens(D), bfc, blens).len
  }

  lemma BlSizes(f0: seq<nat>, f1: seq<nat>, f2: seq<nat>, L: seq<nat>, D: seq<nat>, bfc: seq<nat>, blens: seq<nat>,
                s0: Sizes, s1: Sizes)
    requires |f0| >= BL_CODES && forall i :: 0 <= i < BL_CODES ==> f0[i] == 0
    requires Adds(f0, f1, TreeTokens(L)) && Adds(f1, f2, TreeTokens(D))
    requires Sendable(TreeTokens(L), bfc, blens) && Sendable(TreeTokens(D), bfc, blens) && |blens| == BL_CODES
    requires Added(BlDesc(), s0, s1, f2[..BL_CODES], blens)
    ensures s1.fixed == s0.fixed
    ensures s1.opt == s0.opt + TokensBits(TreeTokens(L), bfc, blens).len + TokensBits(TreeTokens(D), bfc, blens).len
  {
    hide TreeTokens, Sendable, TokensBits, SymbolBits;
    BothTrees(f2[..BL_CODES], TreeTokens(L), TreeTokens(D), bfc, blens);
  }

  class Trees {
    const l: Tree
    const d: Tree
    const b: Tree
    const k: Work
    const w: Writer
    /** The fixed codes, and the tables that choose length and distance codes. */
    const fixed: Coder
    var symBuf: seq<byte>
    /** sym_end: a full symbol buffer. */
    const symEnd: nat
    /** opt_len and static_len. */
    var sizes: Sizes

    ghost predicate Separate() {
      && l.Shape(L_CODES) && d.Shape(D_CODES) && b.Shape(BL_CODES) && k.Shape()
      && Apart(l, k) && Apart(d, k) && Apart(b, k)
      && l.fc != d.fc && l.fc != d.dl && l.fc != b.fc && l.fc != b.dl
      && l.dl != d.fc && l.dl != d.dl && l.dl != b.fc && l.dl != b.dl
      && d.fc != b.fc && d.fc != b.dl && d.dl != b.fc && d.dl != b.dl
    }

    ghost predicate Fixed() {
      && LengthTable(fixed.lengthCode, fixed.baseLength) && DistTable(fixed.distCode, fixed.baseDist)
      && fixed.llens == InflateSpec.FixedLit() && fixed.dlens == InflateSpec.FixedDist()
      && (forall s :: 0 <= s < L_CODES ==> Coded(fixed.lfc, fixed.llens, s))
      && (forall s :: 0 <= s < D_CODES ==> Coded(fixed.dfc, fixed.dlens, s))
    }

    /** Between blocks and while symbols are tallied. */
    ghost predicate Valid()
      reads this, l.fc, d.fc, b.fc, w
    {
      && Separate() && Fixed() && w.Valid() && sizes == Sizes(0, 0)
      && |symBuf| % 3 == 0 && |symBuf| <= symEnd && symEnd % 3 == 0 && 0 < symEnd < 0x1_8000
      && CountsAre(fixed, l.fc[..], d.fc[..], Items(symBuf))
      && forall i :: 0 <= i < BL_CODES ==> b.fc[i] == 0
    }

    /** _tr_init: a stream without a block yet. */
    constructor (memLevel: nat)
      requires 1 <= memLevel <= 9
      ensures Valid() && symBuf == [] && w.Stream() == EMPTY && symEnd == 3 * (Pow2(memLevel + 6) - 1)
      ensures fresh(w) && fresh(l.fc) && fresh(l.dl) && fresh(d.fc) && fresh(d.dl) && fresh(b.fc) && fresh(b.dl)
      ensures fresh(k.heap) && fresh(k.depth) && fresh(k.blCount)
    {
      hide LengthTable, DistTable, Coded, Pow2, CountsAre, InflateSpec.FixedLit, InflateSpec.FixedDist;
      var lengthCode, baseLength := InitLengths();
      var distCode, baseDist := InitDists();
      var lfc, dfc := StaticTrees.StaticInit();
      fixed := Coder(lfc[..], InflateSpec.FixedLit(), dfc[..], InflateSpec.FixedDist(),
                     lengthCode[..], baseLength[..], distCode[..], baseDist[..]);
      l := new Tree(L_CODES);
      d := new Tree(D_CODES);
      b := new Tree(BL_CODES);
      k := new Work();
      w := new Writer();
      symBuf, sizes := [], Sizes(0, 0);
      BufferSize(memLevel);
      symEnd := (Pow2(memLevel + 6) - 1) * 3;
      new;
      InitBlock();
    }

    /** init_block: no symbol counted but the end of the block. */
    method InitBlock()
      requires Separate() && Fixed() && w.Valid() && symEnd % 3 == 0 && 0 < symEnd < 0x1_8000
      modifies this, l.fc, d.fc, b.fc
      ensures Valid() && symBuf == []
    {
      Clear(l.fc, L_CODES);
      Clear(d.fc, D_CODES);
      Clear(b.fc, BL_CODES);
      l.fc[END_BLOCK] := 1;
      symBuf, sizes := [], Sizes(0, 0);
      TableSizes(fixed);
      TallyNone(fixed, l.fc[..], d.fc[..]);
    }

    /** _tr_tally: save a literal (dist == 0) or a match of length lc + 3 and count its
        symbols; whether the buffer is full then. */
    method Tally(dist: nat, lc: byte) returns (full: bool)
      requires Valid() && dist <= 32768 && |symBuf| + 3 <= symEnd
      modifies this, l.fc, d.fc
      ensures Valid() && full == (|symBuf| == symEnd)
      ensures Items(symBuf) == old(Items(symBuf)) + [if dist == 0 then Literal(lc) else Reference(lc + 3, dist)]
      ensures |symBuf| == old(|symBuf|) + 3
      ensures var sym := if dist == 0 then lc else fixed.lengthCode[lc] + 257;
        sym < L_CODES && l.fc[..] == old(l.fc[..])[sym := old(l.fc[sym]) + 1]
      ensures if dist == 0 then d.fc[..] == old(d.fc[..]) else
        var code := DCode(fixed.distCode, dist - 1);
        code < D_CODES && d.fc[..] == old(d.fc[..])[code := old(d.fc[code]) + 1]
    {
      hide LengthTable, DistTable, Coded, CountsAre, Items;
      ghost var lf, df, items := l.fc[..], d.fc[..], Items(symBuf);
      ItemsSnoc(symBuf, dist % 256, dist / 256, lc);
      symBuf := symBuf + [dist % 256, dist / 256, lc];
      TableSizes(fixed);
      ghost var it := if dist == 0 then Literal(lc) else Reference(lc + 3, dist);
      if dist == 0 {
        l.fc[lc] := l.fc[lc] + 1;
      } else {
        InTables(fixed, lc + 3, dist);
        var sym := fixed.lengthCode[lc] + 257;
        var code := DCode(fixed.distCode, dist - 1);
        l.fc[sym] := l.fc[sym] + 1;
        d.fc[code] := d.fc[code] + 1;
      }
      TallyNext(fixed, lf, df, l.fc[..], d.fc[..], items, it);
      full := |symBuf| == symEnd;
    }

    /** The three trees, built from the counts; how many codes of each are sent. opt_len and
        static_len are now the bits of the block with its own codes and with the fixed codes. */
    method BuildTrees() returns (lmax: nat, dmax: nat, blcodes: nat)
      requires Valid()
      modifies this`sizes, l.fc, l.dl, d.fc, d.dl, b.fc, b.dl, k.heap, k.depth, k.blCount
      ensures lmax < L_CODES && dmax < D_CODES
      ensures Guarded(l.dl[..], lmax) && Guarded(d.dl[..], dmax)
      ensures Header(l.dl[..lmax + 1], d.dl[..dmax + 1], b.dl[..BL_CODES], b.fc[..], blcodes)
      ensures SendsAll(fixed, Items(symBuf))
      ensures var c := WithCodes(fixed, l.fc[..], l.dl[..lmax + 1], d.fc[..], d.dl[..dmax + 1]);
        && SendsAll(c, Items(symBuf))
        && sizes.opt == HeaderBits(c.llens, c.dlens, b.dl[..BL_CODES], b.fc[..], blcodes).len
                        + BodyBits(c, Items(symBuf)).len
        && sizes.fixed == BodyBits(fixed, Items(symBuf)).len
    {
      hide CountsAre, AllCounted, Complete, Pow2, Coded, Header, SendsAll, Items, BlCode, CodeFor, Added,
        Desc.For, TreesLen, HeaderBits, BodyBits, LengthTable, DistTable, InflateSpec.FixedLit, InflateSpec.FixedDist;
      ghost var lfreq, dfreq, items := l.fc[..], d.fc[..], Items(symBuf);
      ghost var llens, dlens;
      SmallTrees();
      DescsFor();
      TallyCounts(fixed, lfreq, dfreq, items);
      FixedSends(fixed, lfreq, dfreq, items);
      BlockEnds(fixed, lfreq, dfreq, items);
      lmax, sizes, llens := Build(l, k, 15, LitDesc(), sizes);
      ghost var ldl, s1 := l.dl[..], sizes;
      dmax, sizes, dlens := Build(d, k, 15, DistDesc(), sizes);
      ghost var ddl, s2 := d.dl[..], sizes;
      InUse(l.fc[..], ldl, lfreq, llens, L_CODES, lmax, END_BLOCK);
      InUse(d.fc[..], ddl, dfreq, dlens, D_CODES, dmax, dmax);
      blcodes, sizes := BuildBlTree(l, d, b, k, lmax, dmax, sizes, END_BLOCK);
      CutTree(l.fc[..], ldl, lfreq, llens, L_CODES, 15, lmax, l.dl[..]);
      CutTree(d.fc[..], ddl, dfreq, dlens, D_CODES, 15, dmax, d.dl[..]);
      CoversSends(fixed, lfreq, dfreq, items, l.fc[..], l.dl[..lmax + 1], d.fc[..], d.dl[..dmax + 1]);
      HeaderHolds(l.dl[..lmax + 1], d.dl[..dmax + 1], b.dl[..BL_CODES], b.fc[..], blcodes);
      HeaderIs(l.dl[..lmax + 1], d.dl[..dmax + 1], b.dl[..BL_CODES], b.fc[..], blcodes);
      CutAgrees(l.fc[..], ldl, lfreq, llens, L_CODES, lmax, l.dl[..]);
      CutAgrees(d.fc[..], ddl, dfreq, dlens, D_CODES, dmax, d.dl[..]);
      BodySizes(fixed, WithCodes(fixed, l.fc[..], l.dl[..lmax + 1], d.fc[..], d.dl[..dmax + 1]), items, lfreq, dfreq,
        llens, dlens, s1, s2);
    }

    /** A block with the fixed codes. */
    method FixedBlock(last: bool) returns (ghost bits: BitString)
      requires w.Valid() && Fixed() && |symBuf| % 3 == 0 && SendsAll(fixed, Items(symBuf))
      modifies w
      ensures w.Valid() && w.Stream() == Cat(old(w.Stream()), bits) && old(w.pending) <= w.pending
      ensures Reads(bits, old(w.Stream()).len, Items(symBuf), last)
      ensures bits.len == 3 + BodyBits(fixed, Items(symBuf)).len
    {
      hide SendsAll, Cat, Pow2, BodyBits, Items, InflateSpec.FixedLit, InflateSpec.FixedDist, Coded, LengthTable,
        DistTable;
      ghost var s0, body := w.Stream(), BodyBits(fixed, Items(symBuf));
      bits := Cat(TypeBits(1, last), body);
      FixedReads(fixed, Items(symBuf), s0.len, last);
      CatAssoc(s0, TypeBits(1, last), body);
      CatLen(TypeBits(1, last), body);
      TypeValid(1, last);
      w.SendBits(2 + Flag(last), 3);
      CompressBlock(w, symBuf, fixed);
    }

    /** A block with its own codes. */
    method DynamicBlock(lmax: nat, dmax: nat, blcodes: nat, last: bool) returns (ghost bits: BitString)
      requires w.Valid() && |symBuf| % 3 == 0
      requires l.Shape(L_CODES) && d.Shape(D_CODES) && b.Shape(BL_CODES)
      requires lmax < L_CODES && dmax < D_CODES && Guarded(l.dl[..], lmax) && Guarded(d.dl[..], dmax)
      requires Header(l.dl[..lmax + 1], d.dl[..dmax + 1], b.dl[..BL_CODES], b.fc[..], blcodes)
      requires SendsAll(WithCodes(fixed, l.fc[..], l.dl[..lmax + 1], d.fc[..], d.dl[..dmax + 1]), Items(symBuf))
      modifies w
      ensures w.Valid() && w.Stream() == Cat(old(w.Stream()), bits) && old(w.pending) <= w.pending
      ensures Reads(bits, old(w.Stream()).len, Items(symBuf), last)
      ensures var c := WithCodes(fixed, l.fc[..], l.dl[..lmax + 1], d.fc[..], d.dl[..dmax + 1]);
        bits.len == 3 + HeaderBits(c.llens, c.dlens, b.dl[..BL_CODES], b.fc[..], blcodes).len
                    + BodyBits(c, Items(symBuf)).len
    {
      hide SendsAll, Cat, Pow2, BodyBits, HeaderBits, Items, Header, Guarded;
      var c := WithCodes(fixed, l.fc[..], l.dl[..lmax + 1], d.fc[..], d.dl[..dmax + 1]);
      ghost var s0, head := w.Stream(), HeaderBits(c.llens, c.dlens, b.dl[..BL_CODES], b.fc[..], blcodes);
      ghost var body := BodyBits(c, Items(symBuf));
      bits := Cat(TypeBits(2, last), Cat(head, body));
      DynamicReads(c, b.dl[..BL_CODES], b.fc[..], blcodes, Items(symBuf), s0.len, last);
      CatAssoc(s0, TypeBits(2, last), Cat(head, body));
      CatLen(TypeBits(2, last), Cat(head, body));
      CatLen(head, body);
      CatAssoc(Cat(s0, TypeBits(2, last)), head, body);
      TypeValid(2, last);
      w.SendBits(4 + Flag(last), 3);
      SendAllTrees(w, l.dl, lmax + 1, d.dl, dmax + 1, b.fc[..], b.dl[..BL_CODES], blcodes);
      CompressBlock(w, symBuf, c);
    }

    /** _tr_flush_block: write out the block as stored, fixed or dynamic, whichever takes the
        fewest bytes; `need` holds the bits of the other two kinds. */
    method FlushBlock(buf: Option<seq<byte>>, storedLen: nat, level: nat, fixedOnly: bool, last: bool)
        returns (kind: Kind, ghost bits: BitString, ghost need: Sizes)
      requires Valid() && (level == 0 ==> buf.Some?)
      requires buf.Some? ==> |buf.value| == storedLen < 0x1_0000
      modifies this, w, l.fc, l.dl, d.fc, d.dl, b.fc, b.dl, k.heap, k.depth, k.blCount
      ensures Valid() && symBuf == []
      ensures kind == Stored ==> buf.Some?
      ensures Reads(bits, old(w.Stream()).len, if kind == Stored then Literals(buf.value) else old(Items(symBuf)), last)
      ensures var s := Cat(old(w.Stream()), bits);
        w.Stream() == if last then Cat(s, BitString(0, Pad(s.len))) else s
      ensures last ==> w.biValid == 0
      ensures SendsAll(fixed, old(Items(symBuf)))
      ensures if level == 0 then kind == Stored
        else need.fixed == BodyBits(fixed, old(Items(symBuf))).len && Shortest(kind, need, buf, storedLen, fixedOnly)
      ensures bits.len == match kind
        case Stored => StoredLen(old(w.Stream()).len, storedLen)
        case Fixed => 3 + need.fixed
        case Dynamic => 3 + need.opt
      ensures level > 0 && buf.Some? ==> bits.len <= 8 * storedLen + 42
    {
      hide Reads, Cat, Pow2, Items, CountsAre, AllCounted, Coded, LengthTable, DistTable, Header, SendsAll,
        Guarded, BytesOf, HeaderBits, BodyBits, StoredLen, Shortest;
      var lmax, dmax, blcodes := 0, 0, 0;
      TallyCounts(fixed, l.fc[..], d.fc[..], Items(symBuf));
      FixedSends(fixed, l.fc[..], d.fc[..], Items(symBuf));
      if level > 0 {
        lmax, dmax, blcodes := BuildTrees();
      }
      need := sizes;
      kind := ChooseKind(sizes, buf, storedLen, level, fixedOnly);
      if level > 0 && buf.Some? {
        NeverMuchLonger(kind, sizes, buf, storedLen, fixedOnly, w.Stream().len);
      }
      match kind {
        case Stored => bits := StoredBlock(w, buf.value, last);
        case Fixed => bits := FixedBlock(last);
        case Dynamic => bits := DynamicBlock(lmax, dmax, blcodes, last);
      }
      InitBlock();
      if last {
        w.Windup();
      }
    }
  }

  datatype Kind = Stored | Fixed | Dynamic

  /** The bytes of a block of n bits after its three-bit header. */
  function InBytes(n: int): int {
    (n + 3 + 7) / 8
  }

  /** The kind takes no more bytes than any other kind that is open: stored if the bytes are
      there, dynamic if the codes need not be fixed. */
  ghost predicate Shortest(kind: Kind, need: Sizes, buf: Option<seq<byte>>, storedLen: nat, fixedOnly: bool) {
    var stored, fixed, dynamic := storedLen + 4, InBytes(need.fixed), InBytes(need.opt);
    match kind
    case Stored => stored <= fixed && (fixedOnly || stored <= dynamic)
    case Fixed => (fixedOnly || fixed <= dynamic) && (buf.Some? ==> fixed < stored)
    case Dynamic => !fixedOnly && dynamic < fixed && (buf.Some? ==> dynamic < stored)
  }

  /** Compare the block lengths in bytes. */
  method ChooseKind(sizes: Sizes, buf: Option<seq<byte>>, storedLen: nat, level: nat, fixedOnly: bool)
      returns (kind: Kind)
    requires level == 0 ==> buf.Some?
    ensures kind == Stored ==> buf.Some?
    ensures if level == 0 then kind == Stored else Shortest(kind, sizes, buf, storedLen, fixedOnly)
  {
    var optLenb, staticLenb := storedLen + 5, storedLen + 5;
    if level > 0 {
      optLenb, staticLenb := (sizes.opt + 3 + 7) / 8, (sizes.fixed + 3 + 7) / 8;
      if staticLenb <= optLenb || fixedOnly {
        optLenb := staticLenb;
      }
    }
    if storedLen + 4 <= optLenb && buf.Some? {
      kind := Stored;
    } else if staticLenb == optLenb {
      kind := Fixed;
    } else {
      kind := Dynamic;
    }
  }

  /** The bits of a stored block of n bytes after `start` bits. */
  function StoredLen(start: nat, n: nat): nat {
    3 + Pad(start + 3) + 32 + 8 * n
  }

  /** A block whose bytes are there is at most 42 bits longer than they are. */
  lemma NeverMuchLonger(kind: Kind, need: Sizes, buf: Option<seq<byte>>, storedLen: nat, fixedOnly: bool, start: nat)
    requires Shortest(kind, need, buf, storedLen, fixedOnly) && buf.Some?
    ensures 8 * storedLen + 42 >= match kind
      case Stored => StoredLen(start, storedLen)
      case Fixed => 3 + need.fixed
      case Dynamic => 3 + need.opt
  {
  }

  lemma BufferSize(memLevel: nat)
    requires 1 <= memLevel <= 9
    ensures 128 <= Pow2(memLevel + 6) <= 0x8000
  {
    Pow2Mono(7, memLevel + 6);
    Pow2Mono(memLevel + 6, 15);
    assert Pow2(7) == 128 && Pow2(15) == 0x8000;
  }

  lemma HeaderIs(L: seq<nat>, D: seq<nat>, blens: seq<nat>, bfc: seq<nat>, blcodes: nat)
    requires BlCode(L, D, blens, bfc, blcodes) && Header(L, D, blens, bfc, blcodes)
    ensures HeaderBits(L, D, blens, bfc, blcodes).len == TreesLen(L, D, blens, bfc, blcodes)
  {
    hide HeaderBits, TokensBits, TreeTokens, Header, BlCode;
    HeaderLength(L, D, blens, bfc, blcodes);
  }

  lemma CutAgrees(fc: seq<nat>, dl0: seq<nat>, freq: seq<nat>, lens: seq<nat>, elems: nat, maxCode: nat, dl: seq<nat>)
    requires CodeFor(fc, dl0, freq, lens, elems, 15, maxCode) && elems < |dl0| && dl == dl0[maxCode + 1 := GUARD]
    ensures Agree(dl[..maxCode + 1], lens)
  {
  }

  /** The bits of the body with both codes, from the sizes that build_tree adds up. */
  lemma BodySizes(fixed: Coder, c: Coder, items: seq<Item>, lfreq: seq<nat>, dfreq: seq<nat>, llens: seq<nat>,
                  dlens: seq<nat>, s1: Sizes, s2: Sizes)
    requires CountsAre(fixed, lfreq, dfreq, items) && SendsAll(fixed, items) && SendsAll(c, items)
    requires c == WithCodes(fixed, c.lfc, c.llens, c.dfc, c.dlens)
    requires fixed.llens == InflateSpec.FixedLit() && fixed.dlens == InflateSpec.FixedDist()
    requires |llens| == L_CODES && |dlens| == D_CODES && Agree(c.llens, llens) && Agree(c.dlens, dlens)
    requires Added(LitDesc(), Sizes(0, 0), s1, lfreq[..L_CODES], llens)
    requires Added(DistDesc(), s1, s2, dfreq[..D_CODES], dlens)
    ensures s2 == Sizes(BodyBits(c, items).len, BodyBits(fixed, items).len)
  {
    hide SendsAll, BodyBits, SymbolBits, LitCounts, DistCounts;
    var fl, fd := LitDesc().tree.value, DistDesc().tree.value;
    assert Agree(fixed.llens, fl) && Agree(fixed.dlens, fd) && |fl| == L_CODES && |fd| == D_CODES;
    SameCounts(fixed, c, items);
    BodyLength(c, items, llens, dlens);
    BodyLength(fixed, items, fl, fd);
  }

  lemma {:induction false} SameCounts(t: Coder, c: Coder, items: seq<Item>)
    requires AllKnown(t, items) && c.lengthCode == t.lengthCode && c.distCode == t.distCode
    ensures AllKnown(c, items) && LitCounts(c, items) == LitCounts(t, items)
    ensures DistCounts(c, items) == DistCounts(t, items)
  {
    forall i | 0 <= i < |items|
      ensures Known(c, items[i])
    {
      assert Known(t, items[i]);
    }
    if items != [] {
      SameCounts(t, c, items[..|items| - 1]);
    }
  }

  /** _tr_stored_block: align to a byte, the length and its complement, the bytes. */
  method StoredBlock(w: Writer, buf: seq<byte>, last: bool) returns (ghost bits: BitString)
    requires w.Valid() && |buf| < 0x1_0000
    modifies w
    ensures w.Valid() && w.Stream() == Cat(old(w.Stream()), bits) && old(w.pending) <= w.pending
    ensures Reads(bits, old(w.Stream()).len, Literals(buf), last)
    ensures bits.len == StoredLen(old(w.Stream()).len, |buf|)
  {
    hide Reads, Cat, Pow2, BytesOf, Pad;
    ghost var s0 := w.Stream();
    ghost var pad := Pad(s0.len + 3);
    bits := StoredBits(last, pad, buf);
    StoredReads(buf, s0.len, last);
    StoredBitsLen(last, pad, buf);
    TypeValid(0, last);
    w.SendBits(Flag(last), 3);
    ghost var s1 := w.Stream();
    CatLen(s0, TypeBits(0, last));
    w.Windup();
    ghost var s2 := w.Stream();
    Nothing();
    CatEmpty(BytesOf(w.pending));
    w.PutShort(|buf|);
    w.PutShort(0xffff - |buf|);
    ghost var s3 := BytesOf(w.pending);
    BytesCat(w.pending, buf);
    w.pending := w.pending + buf;
    CatEmpty(BytesOf(w.pending));
    StoredJoins(s0, TypeBits(0, last), BitString(0, pad), BitString(|buf|, 16), BitString(0xffff - |buf|, 16),
      BytesOf(buf));
  }

  lemma StoredBitsLen(last: bool, pad: nat, data: seq<byte>)
    requires |data| < 0x1_0000
    ensures StoredBits(last, pad, data).len == 3 + pad + 32 + 8 * |data|
  {
    BytesValid(data);
  }

  lemma StoredJoins(s: BitString, a: BitString, b: BitString, c: BitString, d: BitString, e: BitString)
    ensures Cat(Cat(Cat(Cat(Cat(s, a), b), c), d), e) == Cat(s, Cat(a, Cat(b, Cat(Cat(c, d), e))))
  {
    hide Cat;
    CatAssoc(s, a, Cat(b, Cat(Cat(c, d), e)));
    CatAssoc(Cat(s, a), b, Cat(Cat(c, d), e));
    var s2 := Cat(Cat(s, a), b);
    CatAssoc(s2, c, d);
    CatAssoc(s2, Cat(c, d), e);
  }

  lemma FixedSends(c: Coder, lfreq: seq<nat>, dfreq: seq<nat>, items: seq<Item>)
    requires AllCounted(c, lfreq, dfreq, items)
    requires LengthTable(c.lengthCode, c.baseLength) && DistTable(c.distCode, c.baseDist)
    requires forall s :: 0 <= s < L_CODES ==> Coded(c.lfc, c.llens, s)
    requires forall s :: 0 <= s < D_CODES ==> Coded(c.dfc, c.dlens, s)
    ensures SendsAll(c, items)
  {
    hide Coded, LengthTable, DistTable;
    forall i | 0 <= i < |items|
      ensures Sends(c, items[i])
    {
      assert HasCounts(c, lfreq, dfreq, items[i]);
    }
  }

  method Clear(a: array<nat>, n: nat)
    requires n <= a.Length
    modifies a
    ensures forall i :: 0 <= i < n ==> a[i] == 0
    ensures forall i :: n <= i < a.Length ==> a[i] == old(a[i])
  {
    for i := 0 to n
      invariant forall j :: 0 <= j < i ==> a[j] == 0
      invariant forall j :: n <= j < a.Length ==> a[j] == old(a[j])
    {
      a[i] := 0;
    }
  }

  lemma TableSizes(c: Coder)
    requires LengthTable(c.lengthCode, c.baseLength) && DistTable(c.distCode, c.baseDist)
    ensures |c.lengthCode| == 256 && |c.distCode| == 512
  {
  }

  lemma InTables(c: Coder, length: nat, dist: nat)
    requires LengthTable(c.lengthCode, c.baseLength) && DistTable(c.distCode, c.baseDist)
    requires ValidItem(Reference(length, dist))
    ensures |c.lengthCode| == 256 && |c.distCode| == 512
    ensures c.lengthCode[length - 3] + 257 < L_CODES && DCode(c.distCode, dist - 1) < D_CODES
  {
    assert LengthEntry(length - 3, c.lengthCode[length - 3], c.baseLength);
    assert DistEntry(dist - 1, DCode(c.distCode, dist - 1), c.baseDist);
  }

  lemma BlockEnds(t: Coder, lfreq: seq<nat>, dfreq: seq<nat>, items: seq<Item>)
    requires AllCounted(t, lfreq, dfreq, items)
    ensures END_BLOCK < |lfreq| && lfreq[END_BLOCK] > 0
  {
  }

  lemma InUse(fc: seq<nat>, dl: seq<nat>, freq: seq<nat>, lens: seq<nat>, elems: nat, maxCode: nat, s: nat)
    requires CodeFor(fc, dl, freq, lens, elems, 15, maxCode) && (s == maxCode || (s < elems && freq[s] > 0))
    ensures maxCode < elems <= |dl| && s <= maxCode && dl[s] != 0
    ensures forall i :: 0 <= i <= maxCode ==> dl[i] < REP_3_6
  {
    hide Coded, Complete;
    assert lens[s] > 0;
  }
}
