/** deflate.c: the running hash of three bytes. */
module Hash {
  import opened Bits

  /** Exclusive or. */
  function Xor(x: nat, y: nat): nat {
    if x == 0 && y == 0 then 0 else (if x % 2 == y % 2 then 0 else 1) + 2 * Xor(x / 2, y / 2)
  }

  /** A table of 2^bits heads; three shifts push a byte out of the hash. */
  predicate Sized(bits: nat, shift: nat) { 8 <= bits && bits <= 3 * shift }

  /** UPDATE_HASH. */
  function Upd(bits: nat, shift: nat, h: nat, c: nat): nat {
    Low(Xor(Shl(h, shift), c), bits)
  }

  /** The hash of three bytes. */
  function H3(bits: nat, shift: nat, a: nat, b: nat, c: nat): nat {
    Upd(bits, shift, Upd(bits, shift, Upd(bits, shift, 0, a), b), c)
  }

  lemma {:induction false} LowXor(x: nat, y: nat, z: nat, n: nat)
    requires Low(x, n) == Low(z, n)
    ensures Low(Xor(x, y), n) == Low(Xor(z, y), n)
  {
    if n != 0 {
      LowXor(x / 2, y / 2, z / 2, n - 1);
      XorHalf(x, y);
      XorHalf(z, y);
    }
  }

  lemma XorHalf(x: nat, y: nat)
    ensures Xor(x, y) / 2 == Xor(x / 2, y / 2) && Xor(x, y) % 2 == if x % 2 == y % 2 then 0 else 1
  {
    if x == 0 && y == 0 {
      assert Xor(x / 2, y / 2) == 0;
    }
  }

  lemma {:induction false} LowShl(x: nat, z: nat, k: nat, s: nat)
    requires Low(x, k) == Low(z, k)
    ensures Low(Shl(x, s), k + s) == Low(Shl(z, s), k + s)
  {
    if s != 0 {
      LowShl(x, z, k, s - 1);
      assert Shl(x, s) / 2 == Shl(x, s - 1) && Shl(x, s) % 2 == 0;
      assert Shl(z, s) / 2 == Shl(z, s - 1) && Shl(z, s) % 2 == 0;
    }
  }

  /** One more byte leaves less of the past in the hash. */
  lemma UpdAgrees(bits: nat, shift: nat, x: nat, z: nat, c: nat, k: nat)
    requires Low(x, k) == Low(z, k)
    ensures k + shift <= bits ==> Low(Upd(bits, shift, x, c), k + shift) == Low(Upd(bits, shift, z, c), k + shift)
    ensures k + shift >= bits ==> Upd(bits, shift, x, c) == Upd(bits, shift, z, c)
  {
    LowShl(x, z, k, shift);
    var p, q := Shl(x, shift), Shl(z, shift);
    LowXor(p, c, q, k + shift);
    hide Low, Shl, Xor;
    if k + shift <= bits {
      LowLow(Xor(p, c), k + shift, bits);
      LowLow(Xor(q, c), k + shift, bits);
    } else {
      LowLow(Xor(p, c), bits, k + shift);
      LowLow(Xor(q, c), bits, k + shift);
    }
    if k + shift == bits {
    }
  }

  /** Three bytes determine the hash, whatever came before. */
  lemma Forgets(bits: nat, shift: nat, x: nat, z: nat, a: nat, b: nat, c: nat)
    requires Sized(bits, shift)
    ensures Upd(bits, shift, Upd(bits, shift, Upd(bits, shift, x, a), b), c)
      == Upd(bits, shift, Upd(bits, shift, Upd(bits, shift, z, a), b), c)
  {
    hide Upd, Low;
    var x1, z1 := Upd(bits, shift, x, a), Upd(bits, shift, z, a);
    var x2, z2 := Upd(bits, shift, x1, b), Upd(bits, shift, z1, b);
    LowNone(x, z);
    UpdAgrees(bits, shift, x, z, a, 0);
    if shift < bits {
      UpdAgrees(bits, shift, x1, z1, b, shift);
      if 2 * shift < bits {
        UpdAgrees(bits, shift, x2, z2, c, 2 * shift);
      }
    }
  }

  lemma LowNone(x: nat, z: nat)
    ensures Low(x, 0) == Low(z, 0)
  {
  }

  lemma {:induction false} XorCancels(x: nat, y: nat, z: nat, n: nat)
    requires Low(Xor(x, y), n) == Low(Xor(x, z), n)
    ensures Low(y, n) == Low(z, n)
  {
    if n != 0 {
      XorHalf(x, y);
      XorHalf(x, z);
      XorCancels(x / 2, y / 2, z / 2, n - 1);
    }
  }

  /** Equal hashes and equal first two bytes make the third bytes equal: longest_match
      never compares the third byte. */
  lemma ThirdByte(bits: nat, shift: nat, a: byte, b: byte, c: byte, d: byte)
    requires Sized(bits, shift) && H3(bits, shift, a, b, c) == H3(bits, shift, a, b, d)
    ensures c == d
  {
    var h := Shl(Upd(bits, shift, Upd(bits, shift, 0, a), b), shift);
    XorCancels(h, c, d, bits);
    Pow2Mono(8, bits);
    assert Pow2(8) == 256;
    LowSmall(c, bits);
    LowSmall(d, bits);
  }

  lemma {:induction false} XorZero(c: nat)
    ensures Xor(0, c) == c
  {
    if c != 0 {
      XorZero(c / 2);
    }
  }

  /** A single byte is its own hash. */
  lemma OneByte(bits: nat, shift: nat, a: byte)
    requires Sized(bits, shift)
    ensures Upd(bits, shift, 0, a) == a
  {
    ShlMul(0, shift);
    XorZero(a);
    Pow2Mono(8, bits);
    assert Pow2(8) == 256;
    LowSmall(a, bits);
  }

  /** h is ready to take in the byte after a and b. */
  ghost predicate Primed(bits: nat, shift: nat, h: nat, a: nat, b: nat) {
    forall c: nat :: Upd(bits, shift, h, c) == H3(bits, shift, a, b, c)
  }

  lemma PrimeStart(bits: nat, shift: nat, a: byte, b: byte)
    requires Sized(bits, shift)
    ensures Primed(bits, shift, Upd(bits, shift, a, b), a, b)
  {
    OneByte(bits, shift, a);
    hide Upd;
  }

  lemma PrimeStep(bits: nat, shift: nat, h: nat, a: nat, b: nat, c: nat)
    requires Sized(bits, shift) && Primed(bits, shift, h, a, b)
    ensures Primed(bits, shift, Upd(bits, shift, h, c), b, c)
  {
    hide Upd;
    forall d: nat
      ensures Upd(bits, shift, Upd(bits, shift, h, c), d) == H3(bits, shift, b, c, d)
    {
      Forgets(bits, shift, Upd(bits, shift, 0, a), 0, b, c, d);
    }
  }

  lemma HashBound(bits: nat, shift: nat, h: nat, c: nat)
    ensures Upd(bits, shift, h, c) < Pow2(bits)
  {
    LowShr(Xor(Shl(h, shift), c), bits);
  }
}
