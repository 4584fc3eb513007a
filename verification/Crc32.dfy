/** crc32.c: CRC-32 as arithmetic on polynomials over two elements, modulo the CRC
    polynomial. A register is the sequence of its bits, highest first; as in the source,
    the highest bit of 32 is the constant term. */
module Crc32 {
  import Bits

  type Word = seq<bool>

  const W := 32

  /** The CRC polynomial 0xedb88320, without the term of degree 32. */
  const POLY: Word := [
    true, true, true, false, true, true, false, true, true, false, true, true, true, false, false, false,
    true, false, false, false, false, false, true, true, false, false, true, false, false, false, false, false]

  function Zero(n: nat): (r: Word)
    ensures |r| == n && forall i :: 0 <= i < n ==> !r[i]
  {
    seq(n, i => false)
  }

  function Xor(a: Word, b: Word): (r: Word)
    requires |a| == |b|
    ensures |r| == |a| && forall i :: 0 <= i < |a| ==> r[i] == (a[i] != b[i])
  {
    seq(|a|, i requires 0 <= i < |a| => a[i] != b[i])
  }

  function If(c: bool, b: Word): (r: Word)
    ensures |r| == |b|
  {
    if c then b else Zero(|b|)
  }

  lemma XorComm(a: Word, b: Word)
    requires |a| == |b|
    ensures Xor(a, b) == Xor(b, a)
  {
  }

  lemma XorAssoc(a: Word, b: Word, c: Word)
    requires |a| == |b| == |c|
    ensures Xor(Xor(a, b), c) == Xor(a, Xor(b, c))
  {
  }

  lemma XorSwap(a: Word, b: Word, c: Word, d: Word)
    requires |a| == |b| == |c| == |d|
    ensures Xor(Xor(a, b), Xor(c, d)) == Xor(Xor(a, c), Xor(b, d))
  {
  }

  lemma XorSelf(a: Word)
    ensures Xor(a, a) == Zero(|a|) && Xor(a, Zero(|a|)) == a && Xor(Zero(|a|), a) == a
  {
  }

  // ---- Multiplying by x ----

  /** Bit i of the polynomial aligned to the low 32 bits of n. */
  predicate PolyBit(n: nat, i: nat)
    requires W <= n && i < n
  {
    i >= n - W && POLY[i - (n - W)]
  }

  /** A shift right by one, with the polynomial added if a one falls off the end. For 32
      bits this is multiplying by x; a wider register has more input above. */
  function X(b: Word): (r: Word)
    requires |b| >= W
    ensures |r| == |b|
  {
    seq(|b|, i requires 0 <= i < |b| => (i > 0 && b[i - 1]) != (b[|b| - 1] && PolyBit(|b|, i)))
  }

  /** The source's way to say it. */
  lemma XIsShift(b: Word)
    requires |b| == W
    ensures X(b) == if b[W - 1] then Xor([false] + b[..W - 1], POLY) else [false] + b[..W - 1]
  {
  }

  function Xn(b: Word, n: nat): (r: Word)
    requires |b| >= W
    ensures |r| == |b|
  {
    if n == 0 then b else X(Xn(b, n - 1))
  }

  lemma XLinear(a: Word, b: Word)
    requires |a| == |b| >= W
    ensures X(Xor(a, b)) == Xor(X(a), X(b))
  {
  }

  lemma {:induction false} XnLinear(a: Word, b: Word, n: nat)
    requires |a| == |b| >= W
    ensures Xn(Xor(a, b), n) == Xor(Xn(a, n), Xn(b, n))
  {
    hide X, Xor;
    if n != 0 {
      XnLinear(a, b, n - 1);
      XLinear(Xn(a, n - 1), Xn(b, n - 1));
    }
  }

  lemma {:induction false} XnAdd(b: Word, m: nat, n: nat)
    requires |b| >= W
    ensures Xn(Xn(b, m), n) == Xn(b, m + n)
  {
    hide X;
    if n != 0 {
      XnAdd(b, m, n - 1);
    }
  }

  lemma {:induction false} XnZero(w: nat, n: nat)
    requires w >= W
    ensures Xn(Zero(w), n) == Zero(w)
  {
    if n != 0 {
      XnZero(w, n - 1);
      XZero(w);
    }
  }

  lemma XZero(w: nat)
    requires w >= W
    ensures X(Zero(w)) == Zero(w)
  {
  }

  // ---- Products ----

  /** The terms of a from degree i on, times b, where b has been multiplied by x^i. */
  function Part(a: Word, b: Word, i: nat): (r: Word)
    requires |a| == |b| == W && i <= W
    ensures |r| == W
    decreases W - i
  {
    if i == W then Zero(W) else Xor(If(a[i], b), Part(a, X(b), i + 1))
  }

  /** The product of two polynomials modulo the CRC polynomial. */
  function Mul(a: Word, b: Word): (r: Word)
    requires |a| == |b| == W
    ensures |r| == W
  {
    Part(a, b, 0)
  }

  /** x^n. */
  function Power(n: nat): (r: Word)
    ensures |r| == W
  {
    Xn(One(), n)
  }

  function One(): (r: Word)
    ensures |r| == W
  {
    seq(W, i => i == 0)
  }

  lemma IfLinear(c: bool, a: Word, b: Word)
    requires |a| == |b|
    ensures If(c, Xor(a, b)) == Xor(If(c, a), If(c, b))
  {
  }

  lemma {:induction false} PartLinear(a: Word, b: Word, c: Word, i: nat)
    requires |a| == |b| == |c| == W && i <= W
    ensures Part(a, Xor(b, c), i) == Xor(Part(a, b, i), Part(a, c, i))
    decreases W - i
  {
    hide X, Xor, If;
    if i == W {
      XorSelf(Zero(W));
    } else {
      XLinear(b, c);
      PartLinear(a, X(b), X(c), i + 1);
      IfLinear(a[i], b, c);
      XorSwap(If(a[i], b), If(a[i], c), Part(a, X(b), i + 1), Part(a, X(c), i + 1));
    }
  }

  lemma {:induction false} PartX(a: Word, b: Word, i: nat)
    requires |a| == |b| == W && i <= W
    ensures Part(a, X(b), i) == X(Part(a, b, i))
    decreases W - i
  {
    hide X, Xor;
    XZero(W);
    if i != W {
      PartX(a, X(b), i + 1);
      XLinear(If(a[i], b), Part(a, X(b), i + 1));
    }
  }

  lemma {:induction false} PartXn(a: Word, b: Word, i: nat, n: nat)
    requires |a| == |b| == W && i <= W
    ensures Part(a, Xn(b, n), i) == Xn(Part(a, b, i), n)
    decreases n
  {
    hide X, Part;
    if n != 0 {
      PartXn(a, b, i, n - 1);
      PartX(a, Xn(b, n - 1), i);
    }
  }

  /** Multiplying by fixed polynomials commutes. */
  lemma {:induction false} MulPart(a: Word, b: Word, c: Word, i: nat)
    requires |a| == |b| == |c| == W && i <= W
    ensures Mul(a, Part(b, c, i)) == Part(b, Mul(a, c), i)
    decreases W - i
  {
    hide X, Xor, Part, If;
    PartStep(b, c, i);
    PartStep(b, Mul(a, c), i);
    MulZero(a);
    if i != W {
      PartX(a, c, 0);
      MulPart(a, b, X(c), i + 1);
      PartLinear(a, If(b[i], c), Part(b, X(c), i + 1), 0);
      MulIf(a, b[i], c);
    }
  }

  lemma PartStep(a: Word, b: Word, i: nat)
    requires |a| == |b| == W && i <= W
    ensures Part(a, b, i) == if i == W then Zero(W) else Xor(If(a[i], b), Part(a, X(b), i + 1))
  {
  }

  lemma MulIf(a: Word, c: bool, b: Word)
    requires |a| == |b| == W
    ensures Mul(a, If(c, b)) == If(c, Mul(a, b))
  {
    MulZero(a);
  }

  lemma {:induction false} PartZero(a: Word, i: nat)
    requires |a| == W && i <= W
    ensures Part(a, Zero(W), i) == Zero(W)
    decreases W - i
  {
    if i != W {
      XZero(W);
      PartZero(a, i + 1);
      XorSelf(Zero(W));
    }
  }

  lemma MulZero(a: Word)
    requires |a| == W
    ensures Mul(a, Zero(W)) == Zero(W)
  {
    PartZero(a, 0);
  }

  /** x^i for i below 32. */
  function Unit(i: nat): (r: Word)
    ensures |r| == W
  {
    seq(W, j => j == i)
  }

  lemma XUnit(i: nat)
    requires i < W - 1
    ensures X(Unit(i)) == Unit(i + 1)
  {
  }

  /** a without its terms of degree below i. */
  function From(a: Word, i: nat): (r: Word)
    requires |a| == W
    ensures |r| == W
  {
    seq(W, j requires 0 <= j < W => j >= i && a[j])
  }

  lemma {:induction false} PartUnit(a: Word, i: nat)
    requires |a| == W && i < W
    ensures Part(a, Unit(i), i) == From(a, i)
    decreases W - i
  {
    PartStep(a, Unit(i), i);
    if i == W - 1 {
      PartStep(a, X(Unit(i)), W);
    } else {
      XUnit(i);
      PartUnit(a, i + 1);
    }
    hide Part, X;
    assert forall j :: 0 <= j < W ==> From(a, i)[j] == Part(a, Unit(i), i)[j];
  }

  lemma MulOne(a: Word)
    requires |a| == W
    ensures Mul(a, One()) == a
  {
    PartUnit(a, 0);
    assert One() == Unit(0) && From(a, 0) == a;
  }

  lemma MulComm(a: Word, b: Word)
    requires |a| == |b| == W
    ensures Mul(a, b) == Mul(b, a)
  {
    hide Part;
    MulOne(a);
    MulOne(b);
    MulPart(a, b, One(), 0);
  }

  lemma MulAssoc(a: Word, b: Word, c: Word)
    requires |a| == |b| == |c| == W
    ensures Mul(Mul(a, b), c) == Mul(a, Mul(b, c))
  {
    hide Part;
    MulComm(Mul(a, b), c);
    MulPart(c, a, b, 0);
    MulComm(c, b);
  }

  lemma MulLinear(a: Word, b: Word, c: Word)
    requires |a| == |b| == |c| == W
    ensures Mul(a, Xor(b, c)) == Xor(Mul(a, b), Mul(a, c))
  {
    PartLinear(a, b, c, 0);
  }

  /** The polynomial is zero: x^32 is the rest of it. */
  lemma XToThe32()
    ensures Power(W) == POLY
  {
    PowerUnit(W - 1);
    assert X(Unit(W - 1)) == POLY;
  }

  lemma {:induction false} PowerUnit(i: nat)
    requires i < W
    ensures Power(i) == Unit(i)
  {
    if i == 0 {
      assert One() == Unit(0);
    } else {
      PowerUnit(i - 1);
      XUnit(i - 1);
    }
  }

  /** Multiplying by x^n is multiplying n times by x. */
  lemma MulPower(n: nat, b: Word)
    requires |b| == W
    ensures Mul(Power(n), b) == Xn(b, n)
  {
    hide Part, X;
    MulComm(Power(n), b);
    PartXn(b, One(), 0, n);
    MulOne(b);
  }

  lemma PowerAdd(m: nat, n: nat)
    ensures Mul(Power(m), Power(n)) == Power(n + m)
  {
    hide Mul, X;
    MulPower(m, Power(n));
    XnAdd(One(), n, m);
  }

  lemma XNotZero(b: Word)
    requires |b| == W && X(b) == Zero(W)
    ensures b == Zero(W)
  {
    assert !X(b)[0];
    assert PolyBit(W, 0);
    forall i | 0 <= i < W
      ensures !b[i]
    {
      if i < W - 1 {
        assert !X(b)[i + 1];
      }
    }
  }

  lemma {:induction false} PowerNotZero(n: nat)
    ensures Power(n) != Zero(W)
  {
    if n == 0 {
      assert One()[0];
    } else {
      PowerNotZero(n - 1);
      if Power(n) == Zero(W) {
        XNotZero(Power(n - 1));
      }
    }
  }

  // ---- multmodp and x2nmodp ----

  lemma {:induction false} NoMore(a: Word, b: Word, i: nat)
    requires |a| == |b| == W && i <= W && forall j :: i <= j < W ==> !a[j]
    ensures Part(a, b, i) == Zero(W)
    decreases W - i
  {
    if i != W {
      NoMore(a, X(b), i + 1);
      XorSelf(Zero(W));
    }
  }

  lemma MultStep(a: Word, b: Word, m: nat, p: Word)
    requires |a| == |b| == |p| == W && m < W
    ensures Xor(p, Part(a, b, m)) == Xor(if a[m] then Xor(p, b) else p, Part(a, X(b), m + 1))
  {
    hide X, Part, Xor;
    PartStep(a, b, m);
    if a[m] {
      XorAssoc(p, b, Part(a, X(b), m + 1));
    } else {
      XorZeroLeft(Part(a, X(b), m + 1));
    }
  }

  lemma XorZeroLeft(a: Word)
    requires |a| == W
    ensures Xor(Zero(W), a) == a && Xor(a, Zero(W)) == a
  {
  }

  predicate AnyFrom(a: Word, m: nat)
    requires |a| == W
  {
    exists j :: m <= j < W && a[j]
  }

  lemma SomeBit(a: Word)
    requires |a| == W && a != Zero(W)
    ensures AnyFrom(a, 0)
  {
  }

  /** multmodp, for an a that is not zero. */
  method MultModP(a: Word, b: Word) returns (p: Word)
    requires |a| == |b| == W && a != Zero(W)
    ensures |p| == W && p == Mul(a, b)
  {
    hide X, Part, Xor;
    var m: nat := 0;
    var b': Word := b;
    p := Zero(W);
    XorZeroLeft(Mul(a, b));
    SomeBit(a);
    while true
      invariant m < W && |p| == |b'| == W && AnyFrom(a, m)
      invariant Xor(p, Part(a, b', m)) == Mul(a, b)
      decreases W - m
    {
      MultStep(a, b', m, p);
      if a[m] {
        p := Xor(p, b');
        if !AnyFrom(a, m + 1) {
          NoMore(a, X(b'), m + 1);
          XorZeroLeft(p);
          break;
        }
      }
      m := m + 1;
      b' := X(b');
    }
  }

  /** x2n_table: x^(2^n). */
  ghost predicate PowersTable(t: seq<Word>) {
    |t| == 32 && forall n :: 0 <= n < 32 ==> t[n] == Power(Bits.Pow2(n))
  }

  lemma Doubled(n: nat)
    ensures Bits.Pow2(n + 1) == Bits.Pow2(n) + Bits.Pow2(n) && Bits.Pow2(0) == 1
  {
  }

  method MakePowers() returns (t: seq<Word>)
    ensures PowersTable(t)
  {
    hide Mul, Power, Bits.Pow2, Unit;
    var p: Word := Unit(1);
    PowerUnit(1);
    Doubled(0);
    t := [p];
    var n: nat := 1;
    while n < 32
      invariant 1 <= n <= 32 && |t| == n && p == t[n - 1]
      invariant forall i :: 0 <= i < n ==> t[i] == Power(Bits.Pow2(i))
    {
      ghost var k := Bits.Pow2(n - 1);
      PowerNotZero(k);
      PowerAdd(k, k);
      Doubled(n - 1);
      p := MultModP(p, p);
      t := t + [p];
      n := n + 1;
    }
  }
}
