/** crc32.c: what makes the CRC-32 of the zlib format the one it is: its residue, its value for
    a zero byte, and the errors it finds. */
module CrcResidue {
  import opened Crc32
  import opened CrcPowers
  import opened CrcBytes

  /** The bytes of a register, low byte first. */
  function LowFirst(r: Word): seq<Octet>
    requires |r| == W
  {
    [r[24..32], r[16..24], r[8..16], r[0..8]]
  }

  const NOUGHT: Octet := [false, false, false, false, false, false, false, false]

  lemma NoughtIsZero()
    ensures NOUGHT == Zero(8) && Ext(NOUGHT, W) == Zero(W)
  {
  }

  // ---- Bits of a constant moved on ----

  function Eight8(b: bv32): bv32 {
    TimesX(TimesX(TimesX(TimesX(TimesX(TimesX(TimesX(TimesX(b))))))))
  }

  lemma Eight8Word(b: bv32)
    ensures ToWord(Eight8(b)) == Xn(ToWord(b), 8)
  {
    hide ToWord, X, TimesX;
    var w := ToWord(b);
    var b1 := TimesX(b);
    var b2 := TimesX(b1);
    var b3 := TimesX(b2);
    var b4 := TimesX(b3);
    var b5 := TimesX(b4);
    var b6 := TimesX(b5);
    var b7 := TimesX(b6);
    TimesXWord(b);
    TimesXWord(b1);
    TimesXWord(b2);
    TimesXWord(b3);
    TimesXWord(b4);
    TimesXWord(b5);
    TimesXWord(b6);
    TimesXWord(b7);
    assert Xn(w, 2) == X(Xn(w, 1)) == X(X(w));
    assert Xn(w, 4) == X(Xn(w, 3)) == X(X(Xn(w, 2)));
    assert Xn(w, 6) == X(Xn(w, 5)) == X(X(Xn(w, 4)));
    assert Xn(w, 8) == X(Xn(w, 7)) == X(X(Xn(w, 6)));
  }

  lemma FirstEight()
    ensures Eight8(0xffffffff) == 0x2dfd1072
  {
  }

  lemma SecondEight()
    ensures Eight8(0x2dfd1072) == 0xbe26ed00
  {
  }

  lemma ThirdEight()
    ensures Eight8(0xbe26ed00) == 0x00be26ed
  {
  }

  lemma FourthEight()
    ensures Eight8(0x00be26ed) == 0xdebb20e3
  {
  }

  lemma OnesWord()
    ensures Ones() == ToWord(0xffffffff)
  {
    hide ToWord;
    forall i | 0 <= i < W
      ensures ToWord(0xffffffff)[i]
    {
      AllOn(i);
    }
  }

  lemma AllOn(i: nat)
    requires i < W
    ensures ToWord(0xffffffff)[i]
  {
    MaskSingle(i);
    EveryBit(Mask(i));
  }

  lemma EveryBit(m: bv32)
    requires m != 0
    ensures On(0xffffffff, m)
  {
  }

  lemma NotWord(b: bv32)
    ensures Not(ToWord(b)) == ToWord(Add(b, 0xffffffff))
  {
    hide ToWord, Xor;
    OnesWord();
    XorWord(b, 0xffffffff);
  }

  /** Ones, moved on by four bytes. */
  lemma OnesFar()
    ensures Xn(Ones(), 32) == ToWord(0xdebb20e3)
  {
    hide Xn, ToWord, Eight8;
    OnesWord();
    FirstEight();
    SecondEight();
    ThirdEight();
    FourthEight();
    Eight8Word(0xffffffff);
    Eight8Word(0x2dfd1072);
    Eight8Word(0xbe26ed00);
    Eight8Word(0x00be26ed);
    XnAdd(Ones(), 8, 8);
    XnAdd(Ones(), 16, 8);
    XnAdd(Ones(), 24, 8);
  }

  // ---- The residue ----

  lemma LowFirstLoads(r: Word)
    requires |r| == W
    ensures Load(LowFirst(r)) == r
  {
    var b := LowFirst(r);
    assert b[1..] == [r[16..24], r[8..16], r[0..8]] && b[1..][1..] == [r[8..16], r[0..8]];
    assert b[1..][1..][1..] == [r[0..8]] && b[1..][1..][1..][1..] == [];
    assert Load([r[0..8]]) == r[0..8];
    assert Load(b[1..][1..]) == r[0..16];
    assert Load(b[1..]) == r[0..24];
  }

  function Noughts(k: nat): (r: seq<Octet>)
    ensures |r| == k
  {
    seq(k, _ => NOUGHT)
  }

  /** Zero bytes only move the register on. */
  lemma {:induction false} RegNoughts(c: Word, k: nat)
    requires |c| == W
    ensures Reg(c, Noughts(k)) == Xn(c, 8 * k)
  {
    hide Xn, Xor, Ext;
    if k == 0 {
      XnNone(c);
    } else {
      RegNoughts(c, k - 1);
      assert Noughts(k)[..k - 1] == Noughts(k - 1);
      NoughtIsZero();
      XorSelf(Xn(c, 8 * (k - 1)));
      XnAdd(c, 8 * (k - 1), 8);
    }
  }

  lemma FourNoughts()
    ensures Noughts(4) == LowFirst(Zero(W))
  {
    NoughtIsZero();
    var z := Zero(W);
    assert z[24..32] == Zero(8) && z[16..24] == Zero(8) && z[8..16] == Zero(8) && z[0..8] == Zero(8);
  }

  lemma SameStart(r: Word, c: Word)
    requires |r| == |c| == W && r == Not(c)
    ensures Xor(Ext(Load(LowFirst(r)), WORD), Ext(c, WORD)) == Xor(Ext(Load(Noughts(4)), WORD), Ext(Ones(), WORD))
  {
    LowFirstLoads(r);
    LowFirstLoads(Zero(W));
    FourNoughts();
    hide Load;
    var a, b := Xor(Ext(r, WORD), Ext(c, WORD)), Xor(Ext(Zero(W), WORD), Ext(Ones(), WORD));
    forall i | 0 <= i < WORD
      ensures a[i] == b[i]
    {
    }
  }

  /** Any bytes followed by their own CRC, low byte first, have the CRC 0x2144df1c. */
  lemma Residue(c: Word, data: seq<Octet>)
    requires |c| == W
    ensures Crc(c, data + LowFirst(Crc(c, data))) == ToWord(0x2144df1c)
  {
    hide Reg, Load, Xn, Ext, Xor, ToWord;
    var r := Crc(c, data);
    var q := Reg(Not(c), data);
    RegCat(Not(c), data, LowFirst(r));
    SameStart(r, q);
    SameWord(LowFirst(r), q, Noughts(4), Ones());
    RegNoughts(Ones(), 4);
    OnesFar();
    NotWord(0xdebb20e3);
    assert Add(0xdebb20e3, 0xffffffff) == 0x2144df1c;
  }

  /** The CRC of one zero byte. */
  lemma ZeroByte()
    ensures Crc(Zero(W), [NOUGHT]) == ToWord(0xd202ef8d)
  {
    hide Reg, Xn, Xor, ToWord, Eight8;
    XorZeroLeft(Ones());
    assert Noughts(1) == [NOUGHT];
    RegNoughts(Ones(), 1);
    OnesWord();
    FirstEight();
    Eight8Word(0xffffffff);
    NotWord(0x2dfd1072);
    assert Add(0x2dfd1072, 0xffffffff) == 0xd202ef8d;
  }

  // ---- Errors that are found ----

  lemma XNotZero(b: Word)
    requires |b| == W && X(b) == Zero(W)
    ensures b == Zero(W)
  {
    assert X(b)[0] == b[W - 1];
    forall i | 0 <= i < W - 1
      ensures !b[i]
    {
      assert X(b)[i + 1] == b[i];
    }
  }

  /** Moving on loses nothing. */
  lemma {:induction false} XnNotZero(b: Word, n: nat)
    requires |b| == W && Xn(b, n) == Zero(W)
    ensures b == Zero(W)
  {
    hide X;
    if n > 0 {
      XNotZero(Xn(b, n - 1));
      XnNotZero(b, n - 1);
    }
  }

  lemma XorNotZero(a: Word, b: Word)
    requires |a| == |b| && Xor(a, b) == Zero(|a|)
    ensures a == b
  {
    forall i | 0 <= i < |a|
      ensures a[i] == b[i]
    {
      assert Xor(a, b)[i] == Zero(|a|)[i];
    }
  }

  /** Different registers stay different over the same bytes. */
  lemma RegInjective(r: Word, s: Word, data: seq<Octet>)
    requires |r| == |s| == W && Reg(r, data) == Reg(s, data)
    ensures r == s
  {
    hide Reg, Xn, Xor;
    var d := Xor(r, s);
    RegLinear(r, d, data);
    XorAssoc(r, r, s);
    XorSelf(r);
    XorSelf(s);
    var p, q := Reg(r, data), Xn(d, 8 * |data|);
    assert p == Xor(p, q);
    XorAssoc(p, p, q);
    XorSelf(p);
    XorSelf(q);
    XnNotZero(d, 8 * |data|);
    XorNotZero(r, s);
  }

  /** A zero byte in front changes the CRC of anything. */
  lemma LeadingZero(data: seq<Octet>)
    ensures Crc(Zero(W), [NOUGHT] + data) != Crc(Zero(W), data)
  {
    hide Reg, Xn, Xor, ToWord, Eight8;
    var z, one := Zero(W), [NOUGHT];
    if Crc(z, one + data) == Crc(z, data) {
      XorZeroLeft(Ones());
      RegCat(Ones(), one, data);
      NotNot(Reg(Ones(), one + data));
      NotNot(Reg(Ones(), data));
      RegInjective(Reg(Ones(), one), Ones(), data);
      assert Noughts(1) == one;
      RegNoughts(Ones(), 1);
      OnesWord();
      FirstEight();
      Eight8Word(0xffffffff);
      WordsDiffer();
    }
  }

  lemma WordsDiffer()
    ensures ToWord(0x2dfd1072) != ToWord(0xffffffff)
  {
    assert Mask(0) == 0x80000000;
    assert ToWord(0x2dfd1072)[0] != ToWord(0xffffffff)[0];
  }

  /** A change of any one byte changes the CRC. */
  lemma OneByteChanged(c: Word, a: seq<Octet>, x: Octet, y: Octet, b: seq<Octet>)
    requires |c| == W && x != y
    ensures Crc(c, a + [x] + b) != Crc(c, a + [y] + b)
  {
    hide Reg, Xn, Xor, Ext;
    if Crc(c, a + [x] + b) == Crc(c, a + [y] + b) {
      var q := Reg(Not(c), a);
      RegCat(Not(c), a + [x], b);
      RegCat(Not(c), a + [y], b);
      RegCat(Not(c), a, [x]);
      RegCat(Not(c), a, [y]);
      NotNot(Reg(Not(c), a + [x] + b));
      NotNot(Reg(Not(c), a + [y] + b));
      RegInjective(Reg(q, [x]), Reg(q, [y]), b);
      RegOne(q, x);
      RegOne(q, y);
      XnInjective(Xor(q, Ext(x, W)), Xor(q, Ext(y, W)), 8);
      BytesSame(q, x, y);
    }
  }

  lemma XnInjective(a: Word, b: Word, n: nat)
    requires |a| == |b| == W && Xn(a, n) == Xn(b, n)
    ensures a == b
  {
    hide Xn, Xor;
    XnLinear(a, b, n);
    XorSelf(Xn(a, n));
    XnNotZero(Xor(a, b), n);
    XorNotZero(a, b);
  }

  lemma BytesSame(q: Word, x: Octet, y: Octet)
    requires |q| == W && Xor(q, Ext(x, W)) == Xor(q, Ext(y, W))
    ensures x == y
  {
    var u, v := Ext(x, W), Ext(y, W);
    forall i | 0 <= i < 8
      ensures x[i] == y[i]
    {
      assert Xor(q, u)[24 + i] == Xor(q, v)[24 + i];
      assert u[24 + i] == x[i] && v[24 + i] == y[i];
    }
  }
}
