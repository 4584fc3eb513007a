/** inflate.c: the bit accumulator over the input buffer of a call. */
module BitReader {
  import opened Bits
  import opened BitWriter

  lemma NothingToRead()
    ensures Cat(BitString(0, 0), BytesOf([])) == EMPTY && 0 < Pow2(0)
  {
    Powers();
    hide BytesOf, Cat, Pow2;
    NoBytes();
    CatEmpty(EMPTY);
  }

  /** A byte above the bits held. */
  function Above(hold: nat, bits: nat, b: nat): nat {
    hold + Pow2(bits) * b
  }

  /** The whole bytes held are the last ones before next. */
  ghost predicate LastPulled(hold: nat, bits: nat, input: seq<byte>, next: nat)
    requires next <= |input|
  {
    bits / 8 <= next && Shr(hold, bits % 8) == BytesOf(input[next - bits / 8..next]).val
  }

  class Reader {
    var input: seq<byte>
    var next: nat
    var hold: nat
    var bits: nat

    constructor ()
      ensures Valid() && Stream() == EMPTY && bits == 0 && input == [] && next == 0
    {
      hide Cat, BytesOf, Pow2;
      input, next, hold, bits := [], 0, 0, 0;
      new;
      assert input[next..] == [];
      NothingToRead();
    }

    ghost predicate Valid()
      reads this
    {
      next <= |input| && hold < Pow2(bits)
    }

    /** The bits still to be read: those held, then those of the bytes not pulled yet. */
    ghost function Stream(): BitString
      requires next <= |input|
      reads this
    {
      Cat(BitString(hold, bits), BytesOf(input[next..]))
    }

    /** The whole bytes held are the last ones pulled. */
    ghost predicate Recent()
      requires next <= |input|
      reads this
    {
      LastPulled(hold, bits, input, next)
    }

    /** A new input buffer: what was left of the old one, and more. */
    method Refill(more: seq<byte>)
      requires Valid()
      modifies this
      ensures Valid() && Stream() == Cat(old(Stream()), BytesOf(more))
      ensures hold == old(hold) && bits == old(bits)
    {
      hide Pow2, BytesOf, Cat;
      BytesCat(input[next..], more);
      CatAssoc(BitString(hold, bits), BytesOf(input[next..]), BytesOf(more));
      input, next := input[next..] + more, 0;
      assert input[next..] == input;
    }

    /** PULLBYTE. The accumulator may have no more than 32 bits: no call pulls a byte that
        would not fit. */
    method Pull()
      requires Valid() && next < |input| && bits <= 24
      modifies this`next, this`hold, this`bits
      ensures Valid() && next == old(next) + 1 && bits == old(bits) + 8 <= 32 && Stream() == old(Stream())
      ensures old(Recent()) ==> Recent()
    {
      hide Pow2, BytesOf, Cat, Shr, LastPulled, Above;
      Pulled(hold, bits, input, next, input[next]);
      if Recent() {
        RecentPulled(hold, bits, input, next, input[next]);
      }
      hold := Above(hold, bits, input[next]);
      bits := bits + 8;
      next := next + 1;
    }

    /** NEEDBITS. */
    method Need(n: nat) returns (ok: bool)
      requires Valid() && (n <= 25 || (n <= 32 && bits % 8 == 0))
      modifies this`next, this`hold, this`bits
      ensures Valid() && Stream() == old(Stream()) && old(bits) <= bits
      ensures if ok then bits >= n && (old(bits) < n ==> bits < n + 8) && (old(bits) >= n ==> bits == old(bits))
        else bits < n && next == |input|
      ensures (bits - old(bits)) % 8 == 0
      ensures old(Recent()) ==> Recent()
    {
      hide Pow2, BytesOf, Cat;
      while bits < n
        invariant Valid() && Stream() == old(Stream()) && old(bits) <= bits && (bits - old(bits)) % 8 == 0
        invariant old(bits) < n ==> bits < n + 8
        invariant old(bits) >= n ==> bits == old(bits)
        invariant old(Recent()) ==> Recent()
        decreases |input| - next
      {
        if next == |input| {
          return false;
        }
        Pull();
      }
      ok := true;
    }

    /** DROPBITS. */
    method Drop(k: nat)
      requires Valid() && k <= bits
      modifies this`hold, this`bits
      ensures Valid() && bits == old(bits) - k && hold == Shr(old(hold), k)
      ensures k <= old(Stream()).len && Stream() == BitString(Shr(old(Stream()).val, k), old(Stream()).len - k)
      ensures old(Recent()) ==> Recent()
    {
      hide Pow2, BytesOf, Cat, Shr;
      Dropped(hold, bits, k, BytesOf(input[next..]));
      if Recent() {
        RecentDropped(hold, bits, k, input, next);
      }
      hold := Shr(hold, k);
      bits := bits - k;
    }

    /** A whole byte straight from the buffer, when no bits are held. */
    method Next() returns (b: byte)
      requires Valid() && bits == 0 && next < |input|
      modifies this`next
      ensures Valid() && next == old(next) + 1 && old(Stream()).len >= 8 && b == Low(old(Stream()).val, 8)
      ensures Stream() == BitString(Shr(old(Stream()).val, 8), old(Stream()).len - 8)
    {
      hide Pow2, BytesOf, Cat, Shr, Low;
      b := input[next];
      NextIs(hold, input, next);
      next := next + 1;
    }

    /** The low bits held are the next bits of the stream. */
    lemma Peek(n: nat)
      requires Valid() && n <= bits
      ensures Low(hold, n) == Low(Stream().val, n) && bits <= Stream().len
    {
      hide Pow2, BytesOf, Low;
      LowOfCat(hold, bits, BytesOf(input[next..]), n);
    }

    /** inflate_fast at its end: hand back the whole bytes held. */
    method GiveBack()
      requires Valid() && Recent()
      modifies this`next, this`hold, this`bits
      ensures Valid() && bits == old(bits) % 8 && next == old(next) - old(bits) / 8 && Stream() == old(Stream())
    {
      hide Pow2, BytesOf, Cat, Shr, Low;
      var len := bits / 8;
      GivenBack(hold, bits, input, next);
      next := next - len;
      bits := bits - 8 * len;
      hold := Low(hold, bits);
    }
  }

  lemma NoBytes()
    ensures BytesOf([]) == EMPTY
  {
  }

  lemma NextIs(hold: nat, input: seq<byte>, next: nat)
    requires hold < Pow2(0) && next < |input|
    ensures var c := Cat(BitString(hold, 0), BytesOf(input[next..]));
      && c.len >= 8 && input[next] == Low(c.val, 8)
      && Cat(BitString(hold, 0), BytesOf(input[next + 1..])) == BitString(Shr(c.val, 8), c.len - 8)
  {
    hide BytesOf, Shr, Low;
    assert Pow2(0) == 1;
    CatEmpty(BytesOf(input[next..]));
    CatEmpty(BytesOf(input[next + 1..]));
    assert input[next..] == [input[next]] + input[next + 1..];
    BytesCat([input[next]], input[next + 1..]);
    BytesOne(input[next]);
    Powers();
    Unpack(input[next], BytesOf(input[next + 1..]).val, 8);
  }

  lemma Pulled(hold: nat, bits: nat, input: seq<byte>, next: nat, b: nat)
    requires hold < Pow2(bits) && next < |input| && b == input[next]
    ensures Above(hold, bits, b) < Pow2(bits + 8)
    ensures Cat(BitString(Above(hold, bits, b), bits + 8), BytesOf(input[next + 1..])) ==
      Cat(BitString(hold, bits), BytesOf(input[next..]))
  {
    hide Pow2, BytesOf, Cat;
    assert input[next..] == [input[next]] + input[next + 1..];
    BytesCat([input[next]], input[next + 1..]);
    BytesOne(input[next]);
    Powers();
    CatOne(hold, bits, b);
    CatValid(BitString(hold, bits), BitString(b, 8));
    CatAssoc(BitString(hold, bits), BitString(b, 8), BytesOf(input[next + 1..]));
  }

  lemma CatOne(hold: nat, bits: nat, b: nat)
    ensures Cat(BitString(hold, bits), BitString(b, 8)) == BitString(hold + Pow2(bits) * b, bits + 8)
  {
  }

  lemma Dropped(hold: nat, bits: nat, k: nat, rest: BitString)
    requires hold < Pow2(bits) && k <= bits
    ensures Shr(hold, k) < Pow2(bits - k)
    ensures var c := Cat(BitString(hold, bits), rest);
      k <= c.len && Cat(BitString(Shr(hold, k), bits - k), rest) == BitString(Shr(c.val, k), c.len - k)
  {
    hide Shr, Low;
    LowShr(hold, k);
    HighPart(hold, bits, k);
    Pow2Add(k, bits - k);
    var a, b, p, q := Low(hold, k), Shr(hold, k), Pow2(k), Pow2(bits - k);
    hide Pow2;
    MulAssoc(p, q, rest.val);
    MulAdd(p, b, q * rest.val);
    Unpack(a, b + q * rest.val, k);
  }

  lemma LowOfCat(hold: nat, bits: nat, rest: BitString, n: nat)
    requires hold < Pow2(bits) && n <= bits
    ensures Low(hold, n) == Low(Cat(BitString(hold, bits), rest).val, n) && bits <= Cat(BitString(hold, bits), rest).len
  {
    hide Low;
    Unpack(hold, rest.val, bits);
    LowLow(hold + Pow2(bits) * rest.val, n, bits);
  }

  lemma RecentPulled(hold: nat, bits: nat, input: seq<byte>, next: nat, b: nat)
    requires hold < Pow2(bits) && next < |input| && b == input[next] && LastPulled(hold, bits, input, next)
    ensures LastPulled(Above(hold, bits, b), bits + 8, input, next + 1)
  {
    hide Shr, BytesOf, Pow2, Above;
    assert bits == bits % 8 + 8 * (bits / 8) && (bits + 8) / 8 == bits / 8 + 1 && (bits + 8) % 8 == bits % 8;
    ByteMore(hold, bits, bits % 8, bits / 8, input, next, b);
  }

  lemma ByteMore(hold: nat, bits: nat, r: nat, k: nat, input: seq<byte>, next: nat, b: nat)
    requires bits == r + 8 * k && k <= next < |input| && b == input[next]
    requires Shr(hold, r) == BytesOf(input[next - k..next]).val
    ensures Shr(Above(hold, bits, b), r) == BytesOf(input[next - k..next + 1]).val
  {
    hide Shr, Low, BytesOf;
    var s := input[next - k..next];
    assert input[next - k..next + 1] == s + [input[next]];
    BytesCat(s, [input[next]]);
    BytesOne(input[next]);
    BytesValid(s);
    LowShr(hold, r);
    Pow2Add(r, 8 * k);
    var a, t, p, q := Low(hold, r), Shr(hold, r), Pow2(r), Pow2(8 * k);
    hide Pow2;
    MulAssoc(p, q, b);
    MulAdd(p, t, q * b);
    Unpack(a, t + q * b, r);
  }

  lemma RecentDropped(hold: nat, bits: nat, d: nat, input: seq<byte>, next: nat)
    requires d <= bits && next <= |input| && bits / 8 <= next
    requires Shr(hold, bits % 8) == BytesOf(input[next - bits / 8..next]).val
    ensures (bits - d) / 8 <= next
    ensures Shr(Shr(hold, d), (bits - d) % 8) == BytesOf(input[next - (bits - d) / 8..next]).val
  {
    hide Shr, BytesOf, Pow2;
    FewerBytes(bits, d);
    KeepLast(hold, d, input, next, bits / 8, (bits - d) / 8, bits % 8, (bits - d) % 8);
  }

  lemma KeepLast(hold: nat, d: nat, input: seq<byte>, next: nat, k: nat, k': nat, r: nat, r': nat)
    requires k' <= k <= next <= |input| && d + r' == r + 8 * (k - k')
    requires Shr(hold, r) == BytesOf(input[next - k..next]).val
    ensures Shr(Shr(hold, d), r') == BytesOf(input[next - k'..next]).val
  {
    hide Shr, BytesOf, Pow2;
    ShrShr(hold, d, r');
    ShrShr(hold, r, 8 * (k - k'));
    LastOfSlice(input, next, k, k');
  }

  /** Bytes pulled onto h of b bits are what is held above those. */
  lemma AbovePulled(h: nat, b: nat, hold: nat, bits: nat, input: seq<byte>, next: nat, k: nat)
    requires h < Pow2(b) && hold < Pow2(bits) && bits == b + 8 * k && k <= next <= |input|
    requires Cat(BitString(h, b), BytesOf(input[next - k..])) == Cat(BitString(hold, bits), BytesOf(input[next..]))
    ensures Shr(hold, b) == BytesOf(input[next - k..next]).val
  {
    hide Shr, BytesOf;
    var s, rest := BytesOf(input[next - k..next]), BytesOf(input[next..]);
    assert input[next - k..] == input[next - k..next] + input[next..];
    BytesCat(input[next - k..next], input[next..]);
    BytesValid(input[next - k..next]);
    CatAssoc(BitString(h, b), s, rest);
    CatValid(BitString(h, b), s);
    SamePrefix(Cat(BitString(h, b), s), BitString(hold, bits), rest);
    Unpack(h, s.val, b);
  }

  lemma SamePrefix(a: BitString, b: BitString, rest: BitString)
    requires a.len == b.len && Cat(a, rest) == Cat(b, rest)
    ensures a == b
  {
  }

  /** Dropping more than there was before leaves only bytes pulled since. */
  lemma RecentSince(hold: nat, b: nat, k: nat, d: nat, input: seq<byte>, next: nat)
    requires k <= next <= |input| && b <= d <= b + 8 * k && Shr(hold, b) == BytesOf(input[next - k..next]).val
    ensures var bits := b + 8 * k - d;
      bits / 8 <= next && Shr(Shr(hold, d), bits % 8) == BytesOf(input[next - bits / 8..next]).val
  {
    hide Shr, BytesOf;
    var bits := b + 8 * k - d;
    assert d + bits % 8 == b + 8 * (k - bits / 8);
    KeepLast(hold, d, input, next, k, bits / 8, b, bits % 8);
  }

  lemma FewerBytes(bits: nat, d: nat)
    requires d <= bits
    ensures (bits - d) / 8 <= bits / 8 && d + (bits - d) % 8 == bits % 8 + 8 * (bits / 8 - (bits - d) / 8)
  {
  }

  lemma LastOfSlice(input: seq<byte>, next: nat, k: nat, k': nat)
    requires k' <= k <= next <= |input|
    ensures Shr(BytesOf(input[next - k..next]).val, 8 * (k - k')) == BytesOf(input[next - k'..next]).val
  {
    hide Shr, BytesOf;
    var a, b := input[next - k..next - k'], input[next - k'..next];
    assert input[next - k..next] == a + b;
    LastBytes(a, b);
  }

  /** Shifting out the first bytes leaves the last ones. */
  lemma LastBytes(a: seq<byte>, b: seq<byte>)
    ensures Shr(BytesOf(a + b).val, 8 * |a|) == BytesOf(b).val
  {
    hide Shr, BytesOf;
    BytesCat(a, b);
    BytesValid(a);
    Unpack(BytesOf(a).val, BytesOf(b).val, 8 * |a|);
  }

  lemma GivenBack(hold: nat, bits: nat, input: seq<byte>, next: nat)
    requires next <= |input| && bits / 8 <= next
    requires Shr(hold, bits % 8) == BytesOf(input[next - bits / 8..next]).val
    ensures Low(hold, bits % 8) < Pow2(bits % 8) && bits - 8 * (bits / 8) == bits % 8
    ensures Cat(BitString(Low(hold, bits % 8), bits % 8), BytesOf(input[next - bits / 8..])) ==
      Cat(BitString(hold, bits), BytesOf(input[next..]))
  {
    hide Shr, BytesOf, Low, Cat;
    var r, k := bits % 8, bits / 8;
    var s := input[next - k..next];
    assert input[next - k..] == s + input[next..];
    BytesCat(s, input[next..]);
    BytesValid(s);
    LowShr(hold, r);
    CatAssoc(BitString(Low(hold, r), r), BytesOf(s), BytesOf(input[next..]));
    CatSplit(Low(hold, r), r, BytesOf(s), hold, bits);
  }

  lemma CatSplit(lo: nat, r: nat, s: BitString, hold: nat, bits: nat)
    requires hold == lo + Pow2(r) * s.val && bits == r + s.len
    ensures Cat(BitString(lo, r), s) == BitString(hold, bits)
  {
  }
}
