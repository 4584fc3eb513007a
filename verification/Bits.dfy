/** Bit strings held in natural numbers, least significant bit first, as
    section 3.1.1 of RFC 1951 packs them. `Low(x, n)` is the mask of x by
    2^n - 1 and `Shr(x, n)` the shift of x right by n. */
module Bits {

  type byte = b: nat | b < 256

  function Pow2(n: nat): (r: nat)
    ensures r >= 1
  {
    if n == 0 then 1 else 2 * Pow2(n - 1)
  }

  function Low(x: nat, n: nat): nat {
    if n == 0 then 0 else x % 2 + 2 * Low(x / 2, n - 1)
  }

  function Shr(x: nat, n: nat): nat {
    if n == 0 then x else Shr(x / 2, n - 1)
  }

  function Shl(x: nat, n: nat): nat {
    if n == 0 then x else 2 * Shl(x, n - 1)
  }

  /** Bit i of x. */
  function Bit(x: nat, i: nat): (b: nat)
    ensures b < 2
  {
    Shr(x, i) % 2
  }

  // ---- Powers of two and products ----

  lemma {:induction false} Pow2Add(a: nat, b: nat)
    ensures Pow2(a + b) == Pow2(a) * Pow2(b)
  {
    if a != 0 {
      Pow2Add(a - 1, b);
      MulAssoc(2, Pow2(a - 1), Pow2(b));
    }
  }

  lemma {:induction false} Pow2Mono(a: nat, b: nat)
    requires a <= b
    ensures Pow2(a) <= Pow2(b)
    decreases b - a
  {
    if a < b {
      Pow2Mono(a, b - 1);
    }
  }

  /** A part of a part. */
  lemma SliceOf(w: seq<byte>, p: nat, q: nat, a: nat, n: nat)
    requires p <= q <= |w| && a + n <= q - p
    ensures w[p..q][a..a + n] == w[p + a..p + a + n]
  {
    var l, r := w[p..q][a..a + n], w[p + a..p + a + n];
    forall k | 0 <= k < n
      ensures l[k] == r[k]
    {
      assert w[p..q][a + k] == w[p + (a + k)];
    }
  }

  lemma MulMono(p: nat, a: nat, b: nat)
    requires a <= b
    ensures p * a <= p * b
  {
  }

  lemma MulAssoc(a: nat, b: nat, c: nat)
    ensures (a * b) * c == a * (b * c)
  {
  }

  lemma MulAdd(p: nat, a: nat, b: nat)
    ensures p * (a + b) == p * a + p * b
  {
  }

  lemma {:induction false} ShlMul(x: nat, n: nat)
    ensures Shl(x, n) == x * Pow2(n)
  {
    if n != 0 {
      ShlMul(x, n - 1);
    }
  }

  lemma {:induction false} ShlMono(x: nat, y: nat, n: nat)
    ensures x <= y ==> Shl(x, n) <= Shl(y, n)
    ensures x < y ==> Shl(x, n) + Pow2(n) <= Shl(y, n)
  {
    if n != 0 {
      ShlMono(x, y, n - 1);
    }
  }

  lemma {:induction false} ShlCancel(x: nat, y: nat, n: nat)
    requires Shl(x, n) < Shl(y, n)
    ensures x < y
  {
    if n != 0 {
      ShlCancel(x, y, n - 1);
    }
  }

  lemma {:induction false} ShlShl(x: nat, a: nat, b: nat)
    ensures Shl(Shl(x, a), b) == Shl(x, a + b)
  {
    if b != 0 {
      ShlShl(x, a, b - 1);
    }
  }

  lemma {:induction false} ShlAdd(x: nat, y: nat, n: nat)
    ensures Shl(x + y, n) == Shl(x, n) + Shl(y, n)
  {
    if n != 0 {
      ShlAdd(x, y, n - 1);
    }
  }

  lemma {:induction false} ShlPow2(a: nat, n: nat)
    ensures Shl(Pow2(a), n) == Pow2(a + n)
  {
    if n != 0 {
      ShlPow2(a, n - 1);
    }
  }

  // ---- Masks and shifts ----

  /** A mask and a shift by n take x apart. */
  lemma {:induction false} LowShr(x: nat, n: nat)
    ensures Low(x, n) < Pow2(n)
    ensures x == Low(x, n) + Pow2(n) * Shr(x, n)
  {
    if n != 0 {
      LowShr(x / 2, n - 1);
      MulAssoc(2, Pow2(n - 1), Shr(x, n));
    }
  }

  /** Putting a below b and taking the sum apart again. */
  lemma {:induction false} Unpack(a: nat, b: nat, n: nat)
    requires a < Pow2(n)
    ensures Low(a + Pow2(n) * b, n) == a
    ensures Shr(a + Pow2(n) * b, n) == b
  {
    if n != 0 {
      Unpack(a / 2, b, n - 1);
      MulAssoc(2, Pow2(n - 1), b);
      assert (a + 2 * (Pow2(n - 1) * b)) / 2 == a / 2 + Pow2(n - 1) * b;
    }
  }

  lemma LowSmall(a: nat, n: nat)
    requires a < Pow2(n)
    ensures Low(a, n) == a && Shr(a, n) == 0
  {
    Unpack(a, 0, n);
  }

  lemma {:induction false} ShrShr(x: nat, a: nat, b: nat)
    ensures Shr(Shr(x, a), b) == Shr(x, a + b)
  {
    if a != 0 {
      ShrShr(x / 2, a - 1, b);
    }
  }

  lemma {:induction false} LowLow(x: nat, l: nat, m: nat)
    requires l <= m
    ensures Low(Low(x, m), l) == Low(x, l)
  {
    if l != 0 {
      LowLow(x / 2, l - 1, m - 1);
    }
  }

  lemma {:induction false} ShrLow(x: nat, a: nat, b: nat)
    ensures Shr(Low(x, a + b), a) == Low(Shr(x, a), b)
  {
    if a != 0 {
      ShrLow(x / 2, a - 1, b);
    }
  }

  /** The low a + b bits agree exactly when the low a bits and the b above them do. */
  lemma {:induction false} LowJoin(x: nat, y: nat, a: nat, b: nat)
    ensures Low(x, a + b) == Low(y, a + b) <==>
            Low(x, a) == Low(y, a) && Low(Shr(x, a), b) == Low(Shr(y, a), b)
  {
    if a != 0 {
      LowJoin(x / 2, y / 2, a - 1, b);
    }
  }

  lemma {:induction false} LowStep(x: nat, n: nat)
    ensures Low(x, n + 1) == Low(x, n) + (if Bit(x, n) == 1 then Pow2(n) else 0)
    ensures Shr(x, n + 1) == Shr(x, n) / 2
  {
    if n != 0 {
      LowStep(x / 2, n - 1);
    }
  }

  /** The top bit of an (n+1)-bit number. */
  lemma TopBit(h: nat, n: nat)
    requires h < Pow2(n)
    ensures Bit(h, n) == 0 && Low(h, n) == h
    ensures Bit(h + Pow2(n), n) == 1 && Low(h + Pow2(n), n) == h
  {
    Unpack(h, 0, n);
    Unpack(h, 1, n);
  }

  // ---- Streams ----

  /** The first l bits of the stream x, read most significant first: the value a
      Huffman code of length l is compared with (section 3.1.1 of RFC 1951). */
  function Pre(x: nat, l: nat): (v: nat)
  {
    if l == 0 then 0 else 2 * Pre(x, l - 1) + Bit(x, l - 1)
  }

  lemma {:induction false} PreBound(x: nat, l: nat)
    ensures Pre(x, l) < Pow2(l)
  {
    if l != 0 {
      PreBound(x, l - 1);
    }
  }

  /** Two streams agree on their first l bits exactly when their masks agree. */
  lemma {:induction false} PreInjective(x: nat, y: nat, l: nat)
    ensures Pre(x, l) == Pre(y, l) <==> Low(x, l) == Low(y, l)
  {
    if l != 0 {
      PreInjective(x, y, l - 1);
      LowStep(x, l - 1);
      LowStep(y, l - 1);
      LowShr(x, l - 1);
      LowShr(y, l - 1);
    }
  }

  /** A bit put in front of a stream is the most significant one read. */
  lemma {:induction false} PreCons(x: nat, b: nat, l: nat)
    requires b < 2
    ensures Pre(2 * x + b, l + 1) == (if b == 1 then Pow2(l) else 0) + Pre(x, l)
  {
    assert (2 * x + b) / 2 == x && (2 * x + b) % 2 == b;
    if l == 0 {
      assert Pre(2 * x + b, 1) == 2 * Pre(2 * x + b, 0) + Bit(2 * x + b, 0);
    } else {
      PreCons(x, b, l - 1);
      assert Shr(2 * x + b, l) == Shr(x, l - 1);
    }
  }

  /** A bit string: `len` bits, the first one in the low bit of `val`. */
  datatype BitString = BitString(val: nat, len: nat) {
    ghost predicate Valid() { val < Pow2(len) }
  }

  const EMPTY := BitString(0, 0)

  function Cat(a: BitString, b: BitString): BitString {
    BitString(a.val + Pow2(a.len) * b.val, a.len + b.len)
  }

  lemma CatAssoc(a: BitString, b: BitString, c: BitString)
    ensures Cat(Cat(a, b), c) == Cat(a, Cat(b, c))
  {
    Pow2Add(a.len, b.len);
    MulAdd(Pow2(a.len), b.val, Pow2(b.len) * c.val);
    MulAssoc(Pow2(a.len), Pow2(b.len), c.val);
  }

  lemma CatValid(a: BitString, b: BitString)
    requires a.Valid() && b.Valid()
    ensures Cat(a, b).Valid()
  {
    Pow2Add(a.len, b.len);
    MulMono(Pow2(a.len), b.val + 1, Pow2(b.len));
    MulAdd(Pow2(a.len), b.val, 1);
  }
}
