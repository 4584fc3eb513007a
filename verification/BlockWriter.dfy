/** trees.c: writing the body and the header of a block. */
module BlockWriter {
  import opened Bits
  import opened Canonical
  import opened BitWriter
  import opened CodeLengths
  import opened SymbolCodes
  import opened HeaderDecode
  import opened BlockDecode

  // ---- The symbol buffer ----

  function ItemOf(lo: byte, hi: byte, lc: byte): Item {
    if lo + 256 * hi == 0 then Literal(lc) else Reference(lc + 3, lo + 256 * hi)
  }

  /** The items tallied in sym_buf, three bytes each. */
  function Items(buf: seq<byte>): (r: seq<Item>)
    requires |buf| % 3 == 0
    ensures |r| == |buf| / 3
  {
    if buf == [] then [] else
      var k := |buf| - 3;
      Items(buf[..k]) + [ItemOf(buf[k], buf[k + 1], buf[k + 2])]
  }

  lemma {:induction false} ItemsAt(buf: seq<byte>, k: nat)
    requires |buf| % 3 == 0 && 3 * k < |buf|
    ensures 3 * k + 2 < |buf| && Items(buf)[k] == ItemOf(buf[3 * k], buf[3 * k + 1], buf[3 * k + 2])
  {
    if 3 * k + 3 < |buf| {
      ItemsAt(buf[..|buf| - 3], k);
    }
  }

  // ---- The body ----

  method SendCode(w: Writer, fc: seq<nat>, lens: seq<nat>, s: nat)
    requires w.Valid() && Coded(fc, lens, s)
    modifies w
    ensures w.Valid() && old(w.pending) <= w.pending
    ensures w.Stream() == Cat(old(w.Stream()), BitString(fc[s], lens[s]))
  {
    hide Pow2, Cat, Pre, CodeOf;
    w.SendBits(fc[s], lens[s]);
  }

  /** Extra bits, if there are any. */
  method SendExtra(w: Writer, value: nat, base: nat, bits: nat)
    requires w.Valid() && bits <= 13 && (bits == 0 || base <= value < base + Pow2(bits))
    modifies w
    ensures w.Valid() && old(w.pending) <= w.pending
    ensures w.Stream() == Cat(old(w.Stream()), Extra(value, base, bits))
  {
    hide Pow2, Cat;
    if bits != 0 {
      w.SendBits(value - base, bits);
    } else {
      CatEmpty(w.Stream());
    }
  }

  lemma EntryAt(c: Coder, length: nat)
    requires SendsLength(c, length)
    ensures |c.lengthCode| == 256 && LengthEntry(length - 3, c.lengthCode[length - 3], c.baseLength)
  {
  }

  lemma DistEntryAt(c: Coder, dist: nat)
    requires SendsDist(c, dist)
    ensures |c.distCode| == 512 && DistEntry(dist - 1, DCode(c.distCode, dist - 1), c.baseDist)
  {
  }

  method SendLength(w: Writer, c: Coder, length: nat)
    requires w.Valid() && SendsLength(c, length)
    modifies w
    ensures w.Valid() && old(w.pending) <= w.pending
    ensures w.Stream() == Cat(old(w.Stream()), LengthBits(c, length))
  {
    hide Pow2, Cat, Coded;
    EntryAt(c, length);
    var k := c.lengthCode[length - 3];
    ExtraBound(k);
    CodedValid(c.lfc, c.llens, k + 257);
    CatAssoc(w.Stream(), BitString(c.lfc[k + 257], c.llens[k + 257]),
      Extra(length - 3, c.baseLength[k], EXTRA_LBITS[k]));
    SendCode(w, c.lfc, c.llens, k + 257);
    SendExtra(w, length - 3, c.baseLength[k], EXTRA_LBITS[k]);
  }

  lemma ExtraBound(k: nat)
    ensures k < 29 ==> EXTRA_LBITS[k] <= 13
    ensures k < 30 ==> EXTRA_DBITS[k] <= 13
  {
  }

  method SendDist(w: Writer, c: Coder, dist: nat)
    requires w.Valid() && SendsDist(c, dist)
    modifies w
    ensures w.Valid() && old(w.pending) <= w.pending
    ensures w.Stream() == Cat(old(w.Stream()), DistBits(c, dist))
  {
    hide Pow2, Cat, Coded;
    DistEntryAt(c, dist);
    var k := DCode(c.distCode, dist - 1);
    ExtraBound(k);
    CodedValid(c.dfc, c.dlens, k);
    CatAssoc(w.Stream(), BitString(c.dfc[k], c.dlens[k]), Extra(dist - 1, c.baseDist[k], EXTRA_DBITS[k]));
    SendCode(w, c.dfc, c.dlens, k);
    SendExtra(w, dist - 1, c.baseDist[k], EXTRA_DBITS[k]);
  }

  method SendItem(w: Writer, c: Coder, dist: nat, lc: byte)
    requires w.Valid() && Sends(c, if dist == 0 then Literal(lc) else Reference(lc + 3, dist))
    modifies w
    ensures w.Valid() && old(w.pending) <= w.pending
    ensures w.Stream() == Cat(old(w.Stream()), ItemBits(c, if dist == 0 then Literal(lc) else Reference(lc + 3, dist)))
  {
    hide Pow2, Cat, SendsLength, SendsDist, LengthBits, DistBits;
    if dist == 0 {
      SendCode(w, c.lfc, c.llens, lc);
    } else {
      CatAssoc(w.Stream(), LengthBits(c, lc + 3), DistBits(c, dist));
      SendLength(w, c, lc + 3);
      SendDist(w, c, dist);
    }
  }

  lemma BodyStep(s: BitString, c: Coder, items: seq<Item>, k: nat)
    requires SendsAll(c, items) && k < |items|
    ensures SendsAll(c, items[k..]) && SendsAll(c, items[k + 1..])
    ensures Cat(s, BodyBits(c, items[k..])) == Cat(Cat(s, ItemBits(c, items[k])), BodyBits(c, items[k + 1..]))
  {
    hide Cat, Sends, ItemBits;
    assert items[k..][0] == items[k] && items[k..][1..] == items[k + 1..];
    CatAssoc(s, ItemBits(c, items[k]), BodyBits(c, items[k + 1..]));
  }

  lemma BodyEnd(c: Coder, items: seq<Item>)
    requires SendsAll(c, items)
    ensures Coded(c.lfc, c.llens, 256) && SendsAll(c, items[|items|..])
    ensures BodyBits(c, items[|items|..]) == BitString(c.lfc[256], c.llens[256])
  {
    assert items[|items|..] == [];
  }

  /** Sending the item at sx. */
  method SendNext(w: Writer, symBuf: seq<byte>, sx: nat, c: Coder, ghost k: nat)
    requires w.Valid() && |symBuf| % 3 == 0 && sx == 3 * k < |symBuf| && Sends(c, Items(symBuf)[k])
    modifies w
    ensures w.Valid() && old(w.pending) <= w.pending
    ensures w.Stream() == Cat(old(w.Stream()), ItemBits(c, Items(symBuf)[k]))
  {
    hide Cat, Pow2, ItemBits, Items, Sends;
    ItemsAt(symBuf, k);
    var lo: nat, hi: nat, lc: nat := symBuf[sx], symBuf[sx + 1], symBuf[sx + 2];
    var dist := lo + 256 * hi;
    assert ItemOf(lo, hi, lc) == if dist == 0 then Literal(lc) else Reference(lc + 3, dist);
    SendItem(w, c, dist, lc);
  }

  lemma SendsAt(c: Coder, items: seq<Item>, k: nat)
    requires SendsAll(c, items) && k < |items|
    ensures Sends(c, items[k])
  {
  }

  /** compress_block: send all tallied items, then the end of the block. */
  method CompressBlock(w: Writer, symBuf: seq<byte>, c: Coder)
    requires w.Valid() && |symBuf| % 3 == 0 && SendsAll(c, Items(symBuf))
    modifies w
    ensures w.Valid() && old(w.pending) <= w.pending
    ensures w.Stream() == Cat(old(w.Stream()), BodyBits(c, Items(symBuf)))
  {
    hide Cat, Pow2, BodyBits, Sends, ItemBits, Items, SendsAll;
    ghost var items, s0 := Items(symBuf), w.Stream();
    var sx := 0;
    ghost var k := 0;
    assert items[0..] == items;
    while sx < |symBuf|
      invariant sx == 3 * k && 0 <= k <= |items| == |symBuf| / 3 && w.Valid() && old(w.pending) <= w.pending
      invariant SendsAll(c, items[k..]) && Cat(w.Stream(), BodyBits(c, items[k..])) == Cat(s0, BodyBits(c, items))
    {
      BodyStep(w.Stream(), c, items, k);
      SendsAt(c, items, k);
      SendNext(w, symBuf, sx, c, k);
      sx := sx + 3;
      k := k + 1;
    }
    BodyEnd(c, items);
    SendCode(w, c.lfc, c.llens, 256);
  }

  // ---- The header ----

  /** The lengths of the code length code, in their order. */
  method SendCodeLengths(w: Writer, blens: seq<nat>, blcodes: nat)
    requires w.Valid() && |blens| == BL_CODES && blcodes <= BL_CODES && forall i :: 0 <= i < BL_CODES ==> blens[i] < 8
    modifies w
    ensures w.Valid() && old(w.pending) <= w.pending
    ensures w.Stream() == Cat(old(w.Stream()), LenLensBits(blens, 0, blcodes))
  {
    ghost var s0 := w.Stream();
    hide Cat, Pow2;
    var rank: nat := 0;
    while rank < blcodes
      invariant 0 <= rank <= blcodes && w.Valid() && old(w.pending) <= w.pending
      invariant Cat(w.Stream(), LenLensBits(blens, rank, blcodes)) == Cat(s0, LenLensBits(blens, 0, blcodes))
    {
      Pow2Of3();
      CatAssoc(w.Stream(), BitString(blens[BL_ORDER[rank]], 3), LenLensBits(blens, rank + 1, blcodes));
      w.SendBits(blens[BL_ORDER[rank]], 3);
      rank := rank + 1;
    }
    CatEmpty(w.Stream());
  }

  method SendCounts(w: Writer, lcodes: nat, dcodes: nat, blcodes: nat)
    requires w.Valid() && 257 <= lcodes <= 286 && 1 <= dcodes <= 30 && 4 <= blcodes <= BL_CODES
    modifies w
    ensures w.Valid() && old(w.pending) <= w.pending
    ensures w.Stream() == Cat(old(w.Stream()), CountBits(lcodes, dcodes, blcodes))
  {
    ghost var s0 := w.Stream();
    ghost var a, b, c := BitString(lcodes - 257, 5), BitString(dcodes - 1, 5), BitString(blcodes - 4, 4);
    CountValid(a, b, c);
    hide Cat, Pow2;
    CatAssoc(s0, a, Cat(b, c));
    CatAssoc(Cat(s0, a), b, c);
    w.SendBits(lcodes - 257, 5);
    w.SendBits(dcodes - 1, 5);
    w.SendBits(blcodes - 4, 4);
  }

  /** send_all_trees: the header of a dynamic block. */
  method SendAllTrees(w: Writer, ldl: array<nat>, lcodes: nat, ddl: array<nat>, dcodes: nat,
                      bfc: seq<nat>, blens: seq<nat>, blcodes: nat)
    requires 1 <= lcodes && 1 <= dcodes && Guarded(ldl[..], lcodes - 1) && Guarded(ddl[..], dcodes - 1)
    requires w.Valid() && Header(ldl[..lcodes], ddl[..dcodes], blens, bfc, blcodes)
    modifies w
    ensures w.Valid() && old(w.pending) <= w.pending
    ensures w.Stream() == Cat(old(w.Stream()), HeaderBits(ldl[..lcodes], ddl[..dcodes], blens, bfc, blcodes))
  {
    ghost var L, D := ldl[..lcodes], ddl[..dcodes];
    ghost var s0 := w.Stream();
    ghost var a, b := CountBits(|L|, |D|, blcodes), LenLensBits(blens, 0, blcodes);
    ghost var l, d := TokensBits(TreeTokens(L), bfc, blens), TokensBits(TreeTokens(D), bfc, blens);
    hide Cat, Pow2, CountBits, LenLensBits, TokensBits, Complete, TreeTokens;
    CatAssoc(s0, a, Cat(b, Cat(l, d)));
    CatAssoc(Cat(s0, a), b, Cat(l, d));
    CatAssoc(Cat(Cat(s0, a), b), l, d);
    SendCounts(w, lcodes, dcodes, blcodes);
    SendCodeLengths(w, blens, blcodes);
    assert ldl[..(lcodes - 1) + 1] == L && ddl[..(dcodes - 1) + 1] == D;
    SendTree(w, ldl, lcodes - 1, bfc, blens);
    SendTree(w, ddl, dcodes - 1, bfc, blens);
  }
}
