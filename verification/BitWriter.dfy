/** trees.c: packing bits into the pending output through a 16-bit buffer. */
module BitWriter {
  import opened Bits

  const BUF_SIZE := 16

  lemma Powers()
    ensures Pow2(0) == 1 && Pow2(8) == 256 && Pow2(16) == 0x1_0000
  {
    assert Pow2(8) == 256;
    Pow2Add(8, 8);
  }

  /** Bytes as a bit string, first byte first, low bit of each byte first. */
  function BytesOf(p: seq<byte>): BitString {
    if p == [] then EMPTY else Cat(BytesOf(p[..|p| - 1]), BitString(p[|p| - 1], 8))
  }

  lemma {:induction false} BytesValid(p: seq<byte>)
    ensures BytesOf(p).Valid() && BytesOf(p).len == 8 * |p|
  {
    if p != [] {
      BytesValid(p[..|p| - 1]);
      assert Pow2(8) == 256;
      CatValid(BytesOf(p[..|p| - 1]), BitString(p[|p| - 1], 8));
    }
  }

  lemma {:induction false} BytesCat(p: seq<byte>, q: seq<byte>)
    ensures BytesOf(p + q) == Cat(BytesOf(p), BytesOf(q))
  {
    hide Cat;
    if q == [] {
      assert p + q == p;
      CatEmpty(BytesOf(p));
    } else {
      var k := |q| - 1;
      BytesCat(p, q[..k]);
      assert (p + q)[..|p + q| - 1] == p + q[..k];
      CatAssoc(BytesOf(p), BytesOf(q[..k]), BitString(q[k], 8));
    }
  }

  lemma CatEmpty(a: BitString)
    ensures Cat(a, EMPTY) == a && Cat(EMPTY, a) == a
  {
  }

  lemma BytesOne(b: byte)
    ensures BytesOf([b]) == BitString(b, 8)
  {
    assert [b][..0] == [];
    CatEmpty(BitString(b, 8));
  }

  lemma BytesTwo(w: nat)
    requires w < 0x1_0000
    ensures BytesOf([w % 256, w / 256]) == BitString(w, 16)
  {
    hide Pow2, BytesOf;
    var lo: byte, hi: byte := w % 256, w / 256;
    BytesOne(lo);
    BytesOne(hi);
    BytesCat([lo], [hi]);
    assert [lo] + [hi] == [lo, hi];
    Powers();
  }

  /** A value shifted left by v, cut at 16 bits, and what is cut off. */
  lemma SplitShift(value: nat, v: nat, pv: nat)
    requires v <= BUF_SIZE && pv == Pow2(v)
    ensures Low(value * pv, BUF_SIZE) + pv <= 0x1_0000
    ensures value * pv == Low(value * pv, BUF_SIZE) + 0x1_0000 * Shr(value, BUF_SIZE - v)
  {
    hide Pow2, Low, Shr;
    var d: nat := BUF_SIZE - v;
    var lo, hi, pd := Low(value, d), Shr(value, d), Pow2(d);
    LowShr(value, d);
    Pow2Add(d, v);
    Powers();
    SplitSum(pv, pd, lo, hi);
    Unpack(lo * pv, hi, BUF_SIZE);
  }

  lemma SplitSum(pv: nat, pd: nat, lo: nat, hi: nat)
    requires lo < pd
    ensures (lo + pd * hi) * pv == lo * pv + (pd * pv) * hi
    ensures lo * pv + pv <= pd * pv
  {
    MulAdd(pv, lo, pd * hi);
    MulAssoc(pv, pd, hi);
    MulMono(pv, lo + 1, pd);
    MulAdd(pv, lo, 1);
  }

  class Writer {
    var pending: seq<byte>
    var biBuf: nat
    var biValid: nat

    /** Bits above the last valid bit are always zero. */
    ghost predicate Valid()
      reads this
    {
      biValid <= BUF_SIZE && biBuf < Pow2(biValid)
    }

    /** All bits written so far. */
    ghost function Stream(): BitString
      reads this
    {
      Cat(BytesOf(pending), BitString(biBuf, biValid))
    }

    constructor ()
      ensures Valid() && Stream() == EMPTY && pending == []
    {
      pending, biBuf, biValid := [], 0, 0;
    }

    method Put(b: byte)
      modifies this
      ensures pending == old(pending) + [b] && biBuf == old(biBuf) && biValid == old(biValid)
    {
      pending := pending + [b];
    }

    /** put_short: the low byte first. */
    method PutShort(w: nat)
      requires w < 0x1_0000
      modifies this
      ensures pending == old(pending) + [w % 256, w / 256] && biBuf == old(biBuf) && biValid == old(biValid)
      ensures BytesOf(pending) == Cat(BytesOf(old(pending)), BitString(w, 16))
    {
      BytesTwo(w);
      BytesCat(pending, [w % 256, w / 256]);
      hide Cat, BytesOf;
      Put(w % 256);
      Put(w / 256);
      assert pending == old(pending) + [w % 256, w / 256];
    }

    /** send_bits: append a value on a given number of bits. The or of the source is
        a sum here, since the bits are disjoint. */
    method SendBits(value: nat, length: nat)
      requires Valid() && length <= BUF_SIZE && value < Pow2(length)
      modifies this
      ensures Valid() && Stream() == Cat(old(Stream()), BitString(value, length))
      ensures old(pending) <= pending
    {
      hide Cat, BytesOf, Pow2, Low, Shr;
      ghost var p, v, buf := BytesOf(pending), biValid, biBuf;
      CatAssoc(p, BitString(buf, v), BitString(value, length));
      if biValid > BUF_SIZE - length {
        SendOver(buf, v, value, length, Pow2(v));
        biBuf := biBuf + Low(value * Pow2(biValid), BUF_SIZE);
        ghost var w := biBuf;
        PutShort(biBuf);
        biBuf := Shr(value, BUF_SIZE - biValid);
        biValid := biValid + length - BUF_SIZE;
        CatAssoc(p, BitString(w, 16), BitString(biBuf, biValid));
      } else {
        SendFits(buf, v, value, length, Pow2(v));
        biBuf := biBuf + value * Pow2(biValid);
        biValid := biValid + length;
      }
    }

    /** bi_flush: write out whole bytes, keeping at most 7 bits. */
    method Flush()
      requires Valid()
      modifies this
      ensures Valid() && Stream() == old(Stream()) && biValid < 8 && old(pending) <= pending
    {
      hide Cat, BytesOf, Pow2, Low, Shr;
      Small(biBuf, biValid);
      if biValid == 16 {
        CatEmpty(Cat(BytesOf(pending), BitString(biBuf, 16)));
        PutShort(biBuf);
        biBuf, biValid := 0, 0;
        Nothing();
      } else if biValid >= 8 {
        FlushByte(BytesOf(pending), biBuf, biValid);
        BytesOne(Low(biBuf, 8));
        BytesCat(pending, [Low(biBuf, 8)]);
        Put(Low(biBuf, 8));
        biBuf := Shr(biBuf, 8);
        biValid := biValid - 8;
      }
    }

    /** bi_windup: write out all bits, filling the last byte with zeros. */
    method Windup()
      requires Valid()
      modifies this
      ensures Valid() && biValid == 0 && old(pending) <= pending
      ensures Stream() == Cat(old(Stream()), BitString(0, Pad(old(Stream()).len)))
    {
      hide Cat, BytesOf, Pow2, Low, Shr;
      Small(biBuf, biValid);
      StreamPad(pending, biBuf, biValid);
      if biValid > 8 {
        PutShort(biBuf);
      } else if biValid > 0 {
        BytesOne(biBuf);
        BytesCat(pending, [biBuf]);
        Put(biBuf);
      }
      CatEmpty(BytesOf(pending));
      biBuf, biValid := 0, 0;
      Nothing();
    }
  }

  lemma Nothing()
    ensures BitString(0, 0) == EMPTY && EMPTY.Valid() && Pow2(0) == 1
  {
  }

  /** A buffer of v bits in numbers. */
  lemma Small(buf: nat, v: nat)
    requires v <= BUF_SIZE && buf < Pow2(v)
    ensures buf < 0x1_0000
    ensures v <= 8 ==> buf < 256
    ensures v == 0 ==> buf == 0
  {
    hide Pow2;
    Powers();
    Pow2Mono(v, 16);
    if v <= 8 {
      Pow2Mono(v, 8);
    }
  }

  /** Bits missing to a whole number of bytes. */
  function Pad(n: nat): nat {
    (8 - n % 8) % 8
  }

  /** Filling up v <= 16 bits gives 0, 8 or 16 bits. */
  lemma StreamPad(p: seq<byte>, buf: nat, v: nat)
    requires v <= BUF_SIZE
    ensures var s := Cat(BytesOf(p), BitString(buf, v));
      Cat(s, BitString(0, Pad(s.len))) == Cat(BytesOf(p), BitString(buf, if v > 8 then 16 else if v > 0 then 8 else 0))
  {
    hide Cat, BytesOf, Pow2;
    var s := Cat(BytesOf(p), BitString(buf, v));
    BytesValid(p);
    CatLen(BytesOf(p), BitString(buf, v));
    assert Pad(s.len) == Pad(v);
    CatZeros(buf, v, Pad(v));
    CatAssoc(BytesOf(p), BitString(buf, v), BitString(0, Pad(v)));
  }

  lemma CatLen(a: BitString, b: BitString)
    ensures Cat(a, b).len == a.len + b.len
  {
  }

  lemma CatZeros(buf: nat, v: nat, k: nat)
    ensures Cat(BitString(buf, v), BitString(0, k)) == BitString(buf, v + k)
  {
  }

  lemma SendFits(buf: nat, v: nat, value: nat, length: nat, pv: nat)
    requires v + length <= BUF_SIZE && buf < Pow2(v) && value < Pow2(length) && pv == Pow2(v)
    ensures buf + value * pv < Pow2(v + length)
    ensures BitString(buf + value * pv, v + length) == Cat(BitString(buf, v), BitString(value, length))
  {
    CatValid(BitString(buf, v), BitString(value, length));
    hide Pow2;
  }

  lemma SendOver(buf: nat, v: nat, value: nat, length: nat, pv: nat)
    requires v <= BUF_SIZE < v + length && length <= BUF_SIZE && buf < Pow2(v) && value < Pow2(length) && pv == Pow2(v)
    ensures buf + Low(value * pv, BUF_SIZE) < 0x1_0000
    ensures Shr(value, BUF_SIZE - v) < Pow2(v + length - BUF_SIZE)
    ensures Cat(BitString(buf + Low(value * pv, BUF_SIZE), 16),
                BitString(Shr(value, BUF_SIZE - v), v + length - BUF_SIZE))
      == Cat(BitString(buf, v), BitString(value, length))
  {
    hide Pow2, Low, Shr;
    SplitShift(value, v, pv);
    HighPart(value, length, BUF_SIZE - v);
    Powers();
  }

  lemma HighPart(value: nat, length: nat, d: nat)
    requires value < Pow2(length) && d <= length
    ensures Shr(value, d) < Pow2(length - d)
  {
    LowSmall(value, length);
    ShrLow(value, d, length - d);
    LowShr(Shr(value, d), length - d);
    hide Pow2, Low, Shr;
  }

  lemma FlushByte(p: BitString, buf: nat, v: nat)
    requires 8 <= v < 16 && buf < Pow2(v)
    ensures Low(buf, 8) < 256 && Shr(buf, 8) < Pow2(v - 8)
    ensures Cat(Cat(p, BitString(Low(buf, 8), 8)), BitString(Shr(buf, 8), v - 8)) == Cat(p, BitString(buf, v))
  {
    hide Pow2, Low, Shr;
    LowShr(buf, 8);
    Powers();
    HighPart(buf, v, 8);
    CatAssoc(p, BitString(Low(buf, 8), 8), BitString(Shr(buf, 8), v - 8));
  }
}
