/** crc32.c: the CRC of bytes, combining CRCs, and the braided loop. */
module CrcBytes {
  import opened Crc32
  import opened CrcPowers
  import Bits

  /** A byte as its bits, highest first. */
  type Octet = w: Word | |w| == 8 witness [false, false, false, false, false, false, false, false]

  function Ext(w: Word, n: nat): (r: Word)
    requires |w| <= n
    ensures |r| == n
  {
    Zero(n - |w|) + w
  }

  function Ones(): (r: Word)
    ensures |r| == W
  {
    seq(W, i => true)
  }

  function Not(c: Word): (r: Word)
    requires |c| == W
    ensures |r| == W
  {
    Xor(c, Ones())
  }

  /** The register after more bytes: each byte is added, then the whole multiplied by x^8. */
  function Reg(r: Word, data: seq<Octet>): (q: Word)
    requires |r| == W
    ensures |q| == W
  {
    if data == [] then r else Xn(Xor(Reg(r, data[..|data| - 1]), Ext(data[|data| - 1], W)), 8)
  }

  /** The CRC-32 of data that follows what has the CRC c. */
  function Crc(c: Word, data: seq<Octet>): (r: Word)
    requires |c| == W
    ensures |r| == W
  {
    Not(Reg(Not(c), data))
  }

  lemma {:induction false} RegCat(r: Word, a: seq<Octet>, b: seq<Octet>)
    requires |r| == W
    ensures Reg(r, a + b) == Reg(Reg(r, a), b)
  {
    hide Xn, Xor;
    if b == [] {
      assert a + b == a;
    } else {
      var k := |b| - 1;
      RegCat(r, a, b[..k]);
      assert (a + b)[..|a + b| - 1] == a + b[..k];
    }
  }

  /** What is in the register at the start only gets multiplied. */
  lemma {:induction false} RegLinear(r: Word, s: Word, data: seq<Octet>)
    requires |r| == |s| == W
    ensures Reg(Xor(r, s), data) == Xor(Reg(r, data), Xn(s, 8 * |data|))
  {
    hide Xn, Xor, Ext;
    if data == [] {
      XnNone(s);
    } else {
      var k := |data| - 1;
      RegLinear(r, s, data[..k]);
      var p, q, b := Reg(r, data[..k]), Xn(s, 8 * k), Ext(data[k], W);
      XorAssoc(p, q, b);
      XorComm(q, b);
      XorAssoc(p, b, q);
      XnLinear(Xor(p, b), q, 8);
      XnAdd(s, 8 * k, 8);
    }
  }

  lemma XnNone(s: Word)
    requires |s| >= W
    ensures Xn(s, 0) == s
  {
  }

  /** Splitting the data across calls does not matter. */
  lemma CrcCat(c: Word, a: seq<Octet>, b: seq<Octet>)
    requires |c| == W
    ensures Crc(c, a + b) == Crc(Crc(c, a), b)
  {
    hide Reg;
    RegCat(Not(c), a, b);
    NotNot(Reg(Not(c), a));
  }

  lemma NotNot(c: Word)
    requires |c| == W
    ensures Not(Not(c)) == c
  {
  }

  /** The CRC of a whole from the CRCs of its parts. */
  lemma CombineIs(a: seq<Octet>, b: seq<Octet>)
    ensures Xor(Mul(Power(8 * |b|), Crc(Zero(W), a)), Crc(Zero(W), b)) == Crc(Zero(W), a + b)
  {
    hide Reg, Mul, Power, Xn, Xor;
    var z := Zero(W);
    var n, ra, rb := 8 * |b|, Reg(Not(z), a), Reg(z, b);
    RegCat(Not(z), a, b);
    RegLinear(z, ra, b);
    RegLinear(z, Not(z), b);
    XorZeroLeft(ra);
    XorZeroLeft(Not(z));
    MulPower(n, Not(ra));
    XnLinear(ra, Ones(), n);
    XorZeroLeft(Ones());
    CancelTwice(Xn(ra, n), Xn(Ones(), n), rb, Ones());
  }

  lemma CancelTwice(p: Word, q: Word, r: Word, f: Word)
    requires |p| == |q| == |r| == |f|
    ensures Xor(Xor(p, q), Xor(Xor(r, q), f)) == Xor(Xor(r, p), f)
  {
  }

  /** crc32_combine64. */
  method Combine(t: seq<Word>, crc1: Word, crc2: Word, len2: nat, ghost a: seq<Octet>,
                 ghost b: seq<Octet>) returns (r: Word)
    requires PowersTable(t) && len2 == |b|
    requires crc1 == Crc(Zero(W), a) && crc2 == Crc(Zero(W), b)
    ensures r == Crc(Zero(W), a + b)
  {
    hide Mul, Power, Xor, Crc;
    EightTimes(len2);
    var op := X2nModP(t, len2, 3);
    PowerNotZero(8 * len2);
    CombineIs(a, b);
    var m := MultModP(op, crc1);
    r := Xor(m, crc2);
  }

  lemma EightTimes(n: nat)
    ensures n * Bits.Pow2(3) == 8 * n
  {
    assert Bits.Pow2(3) == 8;
  }

  // ---- A byte at a time, by table ----

  /** Shifting right over zeros adds nothing. */
  lemma {:induction false} PlainShift(u: Word, k: nat, j: nat)
    requires |u| + k >= W && j <= k
    ensures Xn(u + Zero(k), j) == Zero(j) + u + Zero(k - j)
  {
    if j > 0 {
      PlainShift(u, k, j - 1);
      var b := Zero(j - 1) + u + Zero(k - j + 1);
      assert !b[|b| - 1];
      assert X(b) == Zero(j) + u + Zero(k - j);
    } else {
      assert Zero(0) + u + Zero(k) == u + Zero(k);
    }
  }

  lemma {:induction false} XnExt(c: Word, n: nat, j: nat)
    requires |c| == W <= n
    ensures Xn(Ext(c, n), j) == Ext(Xn(c, j), n)
  {
    if j > 0 {
      XnExt(c, n, j - 1);
      XExt(Xn(c, j - 1), n);
    }
  }

  lemma XExt(c: Word, n: nat)
    requires |c| == W <= n
    ensures X(Ext(c, n)) == Ext(X(c), n)
  {
    var d, e := X(Ext(c, n)), Ext(X(c), n);
    forall i | 0 <= i < n
      ensures d[i] == e[i]
    {
      if i > n - W {
        assert Ext(c, n)[i - 1] == c[i - 1 - (n - W)];
      }
    }
  }

  /** The entry of the byte table. */
  function Entry(b: Word): (r: Word)
    requires |b| == 8
    ensures |r| == W
  {
    Xn(Ext(b, W), 8)
  }

  /** make_crc_table, one entry. */
  method MakeEntry(b: Octet) returns (p: Word)
    ensures |p| == W && p == Entry(b)
  {
    p := Ext(b, W);
    var j := 0;
    while j < 8
      invariant 0 <= j <= 8 && |p| == W && p == Xn(Ext(b, W), j)
    {
      XIsShift(p);
      p := if p[W - 1] then Xor([false] + p[..W - 1], POLY) else [false] + p[..W - 1];
      j := j + 1;
    }
  }

  /** Taking in one byte by table is multiplying by x^8. */
  lemma ByTable(d: Word, n: nat)
    requires |d| == n >= W
    ensures Xn(d, 8) == Xor(Ext(d[..n - 8], n), Ext(Entry(d[n - 8..]), n))
  {
    hide Xn, Xor, Ext;
    var hi, lo := d[..n - 8] + Zero(8), Ext(d[n - 8..], n);
    SplitByte(d, n);
    XnLinear(hi, lo, 8);
    PlainShift(d[..n - 8], 8, 8);
    ExtIs(d[..n - 8], n);
    ExtExt(d[n - 8..], n);
    XnExt(Ext(d[n - 8..], W), n, 8);
  }

  lemma SplitByte(d: Word, n: nat)
    requires |d| == n >= W
    ensures d == Xor(d[..n - 8] + Zero(8), Ext(d[n - 8..], n))
  {
  }

  lemma ExtIs(u: Word, n: nat)
    requires |u| == n - 8
    ensures Zero(8) + u + Zero(0) == Ext(u, n)
  {
  }

  lemma ExtExt(b: Word, n: nat)
    requires |b| <= W <= n
    ensures Ext(Ext(b, W), n) == Ext(b, n)
  {
  }

  /** One byte, as the source takes it in. */
  method AddByte(crc: Word, b: Octet) returns (r: Word)
    requires |crc| == W
    ensures |r| == W && r == Xn(Xor(crc, Ext(b, W)), 8)
  {
    var d := Xor(crc, Ext(b, W));
    ByTable(d, W);
    assert Ext(Entry(d[W - 8..]), W) == Entry(d[W - 8..]);
    assert d[..W - 8] == crc[..W - 8];
    var e := MakeEntry(Xor(crc[W - 8..], b));
    assert d[W - 8..] == Xor(crc[W - 8..], b);
    r := Xor(Ext(crc[..W - 8], W), e);
  }

  // ---- Words ----

  const WORD := 64

  /** Eight bytes as a little-endian word, highest bit first. */
  function Load(bytes: seq<Octet>): (r: Word)
    ensures |r| == 8 * |bytes|
  {
    if bytes == [] then [] else Load(bytes[1..]) + bytes[0]
  }

  /** One byte moves from the word into the register. */
  lemma LoadStep(bytes: seq<Octet>, c: Word, n: nat)
    requires |c| == W && bytes != [] && 8 * |bytes| <= n && W <= n
    ensures Xn(Xor(Ext(Load(bytes), n), Ext(c, n)), 8)
      == Xor(Ext(Load(bytes[1..]), n), Ext(Xn(Xor(c, Ext(bytes[0], W)), 8), n))
  {
    hide Xn, Xor, Ext, Load;
    var rest, b := Load(bytes[1..]), bytes[0];
    LoadUnfold(bytes, n);
    var z := Ext(rest, n - 8) + Zero(8);
    XnLinear(Ext(Load(bytes), n), Ext(c, n), 8);
    XnLinear(z, Ext(b, n), 8);
    ShiftDown(rest, n);
    ExtExt(b, n);
    XnExt(Ext(b, W), n, 8);
    XnExt(c, n, 8);
    XnLinear(c, Ext(b, W), 8);
    ExtXor(Xn(c, 8), Xn(Ext(b, W), 8), n);
    XorAssoc(Ext(rest, n), Ext(Xn(Ext(b, W), 8), n), Ext(Xn(c, 8), n));
    XorComm(Ext(Xn(Ext(b, W), 8), n), Ext(Xn(c, 8), n));
  }

  lemma LoadUnfold(bytes: seq<Octet>, n: nat)
    requires bytes != [] && 8 * |bytes| <= n
    ensures Ext(Load(bytes), n) == Xor(Ext(Load(bytes[1..]), n - 8) + Zero(8), Ext(bytes[0], n))
  {
    var rest, b := Load(bytes[1..]), bytes[0];
    assert Load(bytes) == rest + b;
    hide Load, Ext, Xor;
    LastByte(rest, b, n);
  }

  lemma LastByte(rest: Word, b: Word, n: nat)
    requires |b| == 8 && |rest| + 8 <= n
    ensures Ext(rest + b, n) == Xor(Ext(rest, n - 8) + Zero(8), Ext(b, n))
  {
  }

  lemma ShiftDown(rest: Word, n: nat)
    requires |rest| + 8 <= n && W <= n
    ensures Xn(Ext(rest, n - 8) + Zero(8), 8) == Ext(rest, n)
  {
    PlainShift(Ext(rest, n - 8), 8, 8);
    assert Zero(8) + Ext(rest, n - 8) + Zero(0) == Ext(rest, n);
  }

  lemma ExtXor(a: Word, b: Word, n: nat)
    requires |a| == |b| <= n
    ensures Ext(Xor(a, b), n) == Xor(Ext(a, n), Ext(b, n))
  {
  }

  /** crc_word: the register c and the eight bytes, put together in one word, give the
      register after those bytes. */
  method CrcWord(data: Word, ghost c: Word, ghost bytes: seq<Octet>) returns (r: Word)
    requires |data| == WORD && |c| == W && |bytes| == 8 && data == Xor(Load(bytes), Ext(c, WORD))
    ensures |r| == W && r == Reg(c, bytes)
  {
    hide Xn, Xor, Ext, Load, Reg;
    var d := data;
    var k := 0;
    ExtSame(Load(bytes), WORD);
    assert bytes[0..] == bytes && bytes[..0] == [];
    RegNone(c);
    while k < 8
      invariant 0 <= k <= 8 && |d| == WORD
      invariant d == Xor(Ext(Load(bytes[k..]), WORD), Ext(Reg(c, bytes[..k]), WORD))
    {
      LoadStep(bytes[k..], Reg(c, bytes[..k]), WORD);
      RegStep(c, bytes, k);
      assert bytes[k..][1..] == bytes[k + 1..];
      ByTable(d, WORD);
      var e := MakeEntry(d[WORD - 8..]);
      d := Xor(Ext(d[..WORD - 8], WORD), Ext(e, WORD));
      k := k + 1;
    }
    assert bytes[8..] == [] && bytes[..8] == bytes;
    AllTaken(Reg(c, bytes));
    r := d[WORD - W..];
  }

  lemma ExtSame(w: Word, n: nat)
    requires |w| == n
    ensures Ext(w, n) == w
  {
  }

  lemma RegNone(c: Word)
    requires |c| == W
    ensures Reg(c, []) == c
  {
  }

  lemma RegStep(c: Word, bytes: seq<Octet>, k: nat)
    requires |c| == W && k < |bytes|
    ensures Reg(c, bytes[..k + 1]) == Xn(Xor(Reg(c, bytes[..k]), Ext(bytes[k], W)), 8)
  {
    hide Xn, Xor, Ext;
    assert bytes[..k + 1][..k] == bytes[..k];
  }

  lemma AllTaken(c: Word)
    requires |c| == W
    ensures Xor(Ext(Load([]), WORD), Ext(c, WORD))[WORD - W..] == c
  {
  }

  // ---- Braids ----

  /** N braids of words. */
  const BRAIDS := 5
  const BLOCK := 40

  /** crc_braid_table: byte k of a word, moved on past the words of the other braids. */
  ghost predicate BraidEntry(e: Word, k: nat, b: Word)
    requires |b| == 8 && k < 8
  {
    |e| == W && e == Xn(Ext(b, W), 8 * (BLOCK - k))
  }

  lemma TopByte(b: Word)
    requires |b| == 8
    ensures Xn(b + Zero(24), 24) == Ext(b, W)
  {
    PlainShift(b, 24, 24);
    assert Zero(24) + b + Zero(0) == Ext(b, W);
  }

  lemma NoByte(k: nat)
    requires k < 8
    ensures Xn(Ext(Zero(8), W), 8 * (BLOCK - k)) == Zero(W)
  {
    assert Ext(Zero(8), W) == Zero(W);
    XnZero(W, 8 * (BLOCK - k));
  }

  lemma TopNotZero(b: Word)
    requires |b| == 8 && b != Zero(8)
    ensures b + Zero(24) != Zero(W)
  {
    assert (b + Zero(24))[..8] == b;
    assert Zero(W)[..8] == Zero(8);
  }

  /** braid, one entry: the byte at the top of a register, times x^(8 * (n * w + 3 - k)). */
  method MakeBraidEntry(t: seq<Word>, k: nat, b: Octet) returns (e: Word)
    requires PowersTable(t) && k < 8
    ensures BraidEntry(e, k, b)
  {
    hide Mul, Power, Xn;
    Doubled(0);
    var p := X2nModP(t, 8 * (BLOCK + 3 - k), 0);
    if b == Zero(8) {
      NoByte(k);
      e := Zero(W);
    } else {
      TopNotZero(b);
      e := MultModP(b + Zero(24), p);
      MulComm(b + Zero(24), p);
      MulPower(8 * (BLOCK + 3 - k), b + Zero(24));
      TopByte(b);
      XnAdd(b + Zero(24), 24, 8 * (BLOCK - k));
    }
  }

  /** Byte k of a word. */
  function ByteOf(w: Word, k: nat): (b: Octet)
    requires |w| == WORD && k < 8
  {
    w[WORD - 8 * k - 8..WORD - 8 * k]
  }

  function BytesOf(w: Word, k: nat): (r: seq<Octet>)
    requires |w| == WORD && k <= 8
    ensures |r| == k
  {
    if k == 0 then [] else BytesOf(w, k - 1) + [ByteOf(w, k - 1)]
  }

  lemma {:induction false} LoadSnoc(bytes: seq<Octet>, b: Octet)
    ensures Load(bytes + [b]) == b + Load(bytes)
  {
    if bytes == [] {
      assert [b][1..] == [];
    } else {
      assert (bytes + [b])[1..] == bytes[1..] + [b];
      LoadSnoc(bytes[1..], b);
      assert b + Load(bytes[1..]) + bytes[0] == b + (Load(bytes[1..]) + bytes[0]);
    }
  }

  lemma {:induction false} LoadBytes(w: Word, k: nat)
    requires |w| == WORD && k <= 8
    ensures Load(BytesOf(w, k)) == w[WORD - 8 * k..]
  {
    if k > 0 {
      LoadBytes(w, k - 1);
      LoadSnoc(BytesOf(w, k - 1), ByteOf(w, k - 1));
      assert w[WORD - 8 * k..] == ByteOf(w, k - 1) + w[WORD - 8 * (k - 1)..];
    }
  }

  /** Two ways to put a register and eight bytes into one word lead to the same register. */
  lemma {:induction false} SameWord(a: seq<Octet>, c: Word, b: seq<Octet>, d: Word)
    requires |a| == |b| && 8 * |a| <= WORD && |c| == |d| == W
    requires Xor(Ext(Load(a), WORD), Ext(c, WORD)) == Xor(Ext(Load(b), WORD), Ext(d, WORD))
    ensures Reg(c, a) == Reg(d, b)
    decreases |a|
  {
    hide Xn, Xor, Ext, Load, Reg;
    if a == [] {
      AllTaken(c);
      AllTaken(d);
      RegNone(c);
      RegNone(d);
    } else {
      LoadStep(a, c, WORD);
      LoadStep(b, d, WORD);
      var c', d' := Xn(Xor(c, Ext(a[0], W)), 8), Xn(Xor(d, Ext(b[0], W)), 8);
      SameWord(a[1..], c', b[1..], d');
      RegFirst(c, a);
      RegFirst(d, b);
    }
  }

  lemma RegFirst(c: Word, a: seq<Octet>)
    requires |c| == W && a != []
    ensures Reg(c, a) == Reg(Xn(Xor(c, Ext(a[0], W)), 8), a[1..])
  {
    hide Xn, Xor, Ext, Reg;
    assert a == [a[0]] + a[1..];
    RegCat(c, [a[0]], a[1..]);
    RegOne(c, a[0]);
  }

  lemma RegOne(c: Word, b: Octet)
    requires |c| == W
    ensures Reg(c, [b]) == Xn(Xor(c, Ext(b, W)), 8)
  {
    hide Xn, Xor, Ext;
    var s: seq<Octet> := [b];
    assert s[..|s| - 1] == [] && s[|s| - 1] == b;
  }

  /** One braid takes in a word and is moved on past the words of the others. */
  method BraidWord(t: seq<Word>, data: Word, ghost c: Word, ghost bytes: seq<Octet>) returns (r: Word)
    requires PowersTable(t) && |data| == WORD && |c| == W && |bytes| == 8 && data == Xor(Load(bytes), Ext(c, WORD))
    ensures |r| == W && r == Xn(Reg(c, bytes), 8 * (BLOCK - 8))
  {
    hide Xn, Xor, Ext, Load, Reg, PowersTable;
    ghost var z := Zero(W);
    r := MakeBraidEntry(t, 0, ByteOf(data, 0));
    var k := 1;
    FirstByte(data);
    while k < 8
      invariant 1 <= k <= 8 && |r| == W && r == Xn(Reg(z, BytesOf(data, k)), 8 * (BLOCK - k))
    {
      var e := MakeBraidEntry(t, k, ByteOf(data, k));
      NextByte(data, k);
      r := Xor(r, e);
      k := k + 1;
    }
    WholeWord(data, c, bytes);
  }

  lemma FirstByte(data: Word)
    requires |data| == WORD
    ensures Xn(Reg(Zero(W), BytesOf(data, 1)), 8 * (BLOCK - 1)) == Xn(Ext(ByteOf(data, 0), W), 8 * BLOCK)
  {
    hide Xn, Xor, Ext, ByteOf;
    var b := ByteOf(data, 0);
    assert BytesOf(data, 0) == [] && BytesOf(data, 1) == [b] && [b][..0] == [];
    RegNone(Zero(W));
    assert Reg(Zero(W), [b]) == Xn(Xor(Zero(W), Ext(b, W)), 8);
    XorZeroLeft(Ext(b, W));
    XnAdd(Ext(b, W), 8, 8 * (BLOCK - 1));
  }

  lemma NextByte(data: Word, k: nat)
    requires |data| == WORD && k < 8
    ensures Xn(Reg(Zero(W), BytesOf(data, k + 1)), 8 * (BLOCK - (k + 1)))
      == Xor(Xn(Reg(Zero(W), BytesOf(data, k)), 8 * (BLOCK - k)), Xn(Ext(ByteOf(data, k), W), 8 * (BLOCK - k)))
  {
    hide Xn, Xor, Ext, ByteOf;
    var p, b := Reg(Zero(W), BytesOf(data, k)), ByteOf(data, k);
    assert BytesOf(data, k + 1)[..k] == BytesOf(data, k);
    assert Reg(Zero(W), BytesOf(data, k + 1)) == Xn(Xor(p, Ext(b, W)), 8);
    XnAdd(Xor(p, Ext(b, W)), 8, 8 * (BLOCK - (k + 1)));
    XnLinear(p, Ext(b, W), 8 * (BLOCK - k));
  }

  lemma WholeWord(data: Word, c: Word, bytes: seq<Octet>)
    requires |data| == WORD && |c| == W && |bytes| == 8 && data == Xor(Load(bytes), Ext(c, WORD))
    ensures Reg(Zero(W), BytesOf(data, 8)) == Reg(c, bytes)
  {
    LoadBytes(data, 8);
    assert data[0..] == data;
    hide Xn, Xor, Load, Reg, BytesOf;
    ExtSame(data, WORD);
    ExtSame(Load(bytes), WORD);
    ExtNone(data);
    SameWord(BytesOf(data, 8), Zero(W), bytes, c);
  }

  lemma ExtNone(data: Word)
    requires |data| == WORD
    ensures Xor(data, Ext(Zero(W), WORD)) == data
  {
  }

  // ---- The braided loop ----

  /** What the registers of the first j braids amount to after j words of zeros. */
  function Inject(cs: seq<Word>, j: nat): (r: Word)
    requires j <= |cs| && forall i :: 0 <= i < |cs| ==> |cs[i]| == W
    ensures |r| == W
  {
    if j == 0 then Zero(W) else Xn(Xor(Inject(cs, j - 1), cs[j - 1]), WORD)
  }

  ghost predicate Registers(cs: seq<Word>) {
    |cs| == BRAIDS && forall i :: 0 <= i < |cs| ==> |cs[i]| == W
  }

  /** The words of a block that come before word j. */
  function Before(block: seq<Octet>, j: nat): seq<Octet>
    requires |block| == BLOCK && j <= BRAIDS
  {
    block[..8 * j]
  }

  function WordAt(block: seq<Octet>, j: nat): (r: seq<Octet>)
    requires |block| == BLOCK && j < BRAIDS
    ensures |r| == 8
  {
    block[8 * j..8 * j + 8]
  }

  lemma RegWord(r: Word, block: seq<Octet>, j: nat)
    requires |r| == W && |block| == BLOCK && j < BRAIDS
    ensures Reg(r, Before(block, j + 1)) == Reg(Reg(r, Before(block, j)), WordAt(block, j))
  {
    hide Reg;
    assert Before(block, j + 1) == Before(block, j) + WordAt(block, j);
    RegCat(r, Before(block, j), WordAt(block, j));
  }

  /** Combining the braids over the words of a block, word by word. */
  function Folded(cs: seq<Word>, block: seq<Octet>, j: nat): (r: Word)
    requires Registers(cs) && |block| == BLOCK && j <= BRAIDS
    ensures |r| == W
  {
    if j == 0 then Zero(W) else Reg(Xor(cs[j - 1], Folded(cs, block, j - 1)), WordAt(block, j - 1))
  }

  /** The fold is the register of the words, plus what the braids amount to. */
  lemma {:induction false} FoldedIs(cs: seq<Word>, block: seq<Octet>, j: nat)
    requires Registers(cs) && |block| == BLOCK && j <= BRAIDS
    ensures Folded(cs, block, j) == Xor(Reg(Zero(W), Before(block, j)), Inject(cs, j))
  {
    hide Reg, Xn, Xor, Before, WordAt;
    if j == 0 {
      NothingBefore(block);
      XorZeroLeft(Zero(W));
    } else {
      FoldedIs(cs, block, j - 1);
      RegWord(Zero(W), block, j - 1);
      var p, q, c, w := Reg(Zero(W), Before(block, j - 1)), Inject(cs, j - 1), cs[j - 1], WordAt(block, j - 1);
      XorComm(c, Xor(p, q));
      XorAssoc(p, q, c);
      RegLinear(p, Xor(q, c), w);
    }
  }

  lemma NothingBefore(block: seq<Octet>)
    requires |block| == BLOCK
    ensures Reg(Zero(W), Before(block, 0)) == Zero(W)
  {
    assert Before(block, 0) == [];
  }

  /** The braids stand for the register r: over the next block they amount to the same. */
  ghost predicate StandFor(cs: seq<Word>, r: Word) {
    Registers(cs) && |r| == W && Inject(cs, BRAIDS) == Xn(r, 8 * BLOCK)
  }

  /** The fold over a block gives the register after the block. */
  lemma FoldedAll(cs: seq<Word>, r: Word, block: seq<Octet>)
    requires StandFor(cs, r) && |block| == BLOCK
    ensures Folded(cs, block, BRAIDS) == Reg(r, block)
  {
    hide Reg, Xn, Xor, Folded, Inject;
    FoldedIs(cs, block, BRAIDS);
    assert Before(block, BRAIDS) == block;
    RegLinear(Zero(W), r, block);
    XorZeroLeft(r);
  }

  /** The braids after a block. */
  ghost predicate Updated(cs: seq<Word>, block: seq<Octet>, cs': seq<Word>, n: nat) {
    && Registers(cs) && |block| == BLOCK && n <= BRAIDS && |cs'| == n
    && forall j :: 0 <= j < n ==> |cs'[j]| == W && cs'[j] == Xn(Reg(cs[j], WordAt(block, j)), 8 * (BLOCK - 8))
  }

  lemma {:induction false} InjectUpdated(cs: seq<Word>, block: seq<Octet>, cs': seq<Word>, j: nat)
    requires Updated(cs, block, cs', BRAIDS) && j <= BRAIDS
    ensures Inject(cs', j) == Xn(Folded(cs, block, j), 8 * BLOCK)
  {
    hide Reg, Xn, Xor, WordAt;
    if j == 0 {
      XnZero(W, 8 * BLOCK);
    } else {
      InjectUpdated(cs, block, cs', j - 1);
      var f, c, w := Folded(cs, block, j - 1), cs[j - 1], WordAt(block, j - 1);
      RegLinear(c, f, w);
      InjectStep(f, Reg(c, w));
    }
  }

  /** Moving on past a block and past a word, in either order. */
  lemma InjectStep(f: Word, g: Word)
    requires |f| == |g| == W
    ensures Xn(Xor(Xn(f, 8 * BLOCK), Xn(g, 8 * (BLOCK - 8))), WORD) == Xn(Xor(g, Xn(f, WORD)), 8 * BLOCK)
  {
    hide Xn, Xor;
    XnLinear(Xn(f, 8 * BLOCK), Xn(g, 8 * (BLOCK - 8)), WORD);
    XnAdd(f, 8 * BLOCK, WORD);
    XnAdd(g, 8 * (BLOCK - 8), WORD);
    XnLinear(g, Xn(f, WORD), 8 * BLOCK);
    XnAdd(f, WORD, 8 * BLOCK);
    XorComm(Xn(f, 8 * BLOCK + WORD), Xn(g, 8 * BLOCK));
  }

  lemma StandAfter(cs: seq<Word>, r: Word, block: seq<Octet>, cs': seq<Word>)
    requires StandFor(cs, r) && Updated(cs, block, cs', BRAIDS)
    ensures StandFor(cs', Reg(r, block))
  {
    hide Reg, Xn, Xor, Folded, Inject;
    FoldedAll(cs, r, block);
    InjectUpdated(cs, block, cs', BRAIDS);
  }

  /** The first braid starts with the register, the others with zero. */
  lemma StandAtStart(r: Word)
    requires |r| == W
    ensures StandFor([r, Zero(W), Zero(W), Zero(W), Zero(W)], r)
  {
    var cs := [r, Zero(W), Zero(W), Zero(W), Zero(W)];
    hide Xn, Xor;
    XorZeroLeft(r);
    assert Inject(cs, 1) == Xn(r, WORD);
    Onwards(cs, r, 1);
    Onwards(cs, r, 2);
    Onwards(cs, r, 3);
    Onwards(cs, r, 4);
  }

  lemma Onwards(cs: seq<Word>, r: Word, j: nat)
    requires |r| == W && Registers(cs) && 1 <= j < BRAIDS && cs[j] == Zero(W) && Inject(cs, j) == Xn(r, WORD * j)
    ensures Inject(cs, j + 1) == Xn(r, WORD * (j + 1))
  {
    hide Xn, Xor;
    XorZeroLeft(Xn(r, WORD * j));
    XnAdd(r, WORD * j, WORD);
  }

  method AddBytes(crc: Word, data: seq<Octet>) returns (r: Word)
    requires |crc| == W
    ensures |r| == W && r == Reg(crc, data)
  {
    hide Xn, Xor, Ext, Reg;
    r := crc;
    RegNone(crc);
    assert data[..0] == [];
    for i := 0 to |data|
      invariant |r| == W && r == Reg(crc, data[..i])
    {
      RegStep(crc, data, i);
      r := AddByte(r, data[i]);
    }
    assert data[..|data|] == data;
  }

  /** One block, each braid on its own word. */
  method UpdateBraids(t: seq<Word>, cs: seq<Word>, block: seq<Octet>) returns (cs': seq<Word>)
    requires PowersTable(t) && Registers(cs) && |block| == BLOCK
    ensures Updated(cs, block, cs', BRAIDS)
  {
    hide Xn, Xor, Ext, Load, Reg, PowersTable, WordAt;
    cs' := [];
    var j := 0;
    while j < BRAIDS
      invariant 0 <= j <= BRAIDS && Updated(cs, block, cs', j)
    {
      var w := WordAt(block, j);
      var c := BraidWord(t, Xor(Load(w), Ext(cs[j], WORD)), cs[j], w);
      cs' := cs' + [c];
      j := j + 1;
    }
  }

  /** The last block, combining the braids. */
  method CombineBraids(cs: seq<Word>, block: seq<Octet>) returns (r: Word)
    requires Registers(cs) && |block| == BLOCK
    ensures |r| == W && r == Folded(cs, block, BRAIDS)
  {
    hide Xn, Xor, Ext, Load, Reg, WordAt;
    r := Zero(W);
    var j := 0;
    while j < BRAIDS
      invariant 0 <= j <= BRAIDS && |r| == W && r == Folded(cs, block, j)
    {
      var w := WordAt(block, j);
      TogetherInWord(Load(w), cs[j], r);
      r := CrcWord(Xor(Xor(Load(w), Ext(cs[j], WORD)), Ext(r, WORD)), Xor(cs[j], r), w);
      j := j + 1;
    }
  }

  lemma TogetherInWord(w: Word, c: Word, r: Word)
    requires |w| == WORD && |c| == |r| == W
    ensures Xor(Xor(w, Ext(c, WORD)), Ext(r, WORD)) == Xor(w, Ext(Xor(c, r), WORD))
  {
    ExtXor(c, r, WORD);
    XorAssoc(w, Ext(c, WORD), Ext(r, WORD));
  }

  /** As many whole blocks as there are, in braids. */
  method AddBlocks(t: seq<Word>, crc: Word, data: seq<Octet>, blks: nat) returns (r: Word)
    requires PowersTable(t) && |crc| == W && 1 <= blks && BLOCK * blks <= |data|
    ensures |r| == W && r == Reg(crc, data[..BLOCK * blks])
  {
    hide Xn, Xor, Reg, PowersTable, StandFor, Updated, Folded;
    var cs: seq<Word> := [crc, Zero(W), Zero(W), Zero(W), Zero(W)];
    StandAtStart(crc);
    StandRegs(cs, crc);
    var i := 0;
    assert data[..0] == [];
    RegNone(crc);
    while i < blks - 1
      invariant 0 <= i <= blks - 1 && Registers(cs) && StandFor(cs, Reg(crc, data[..BLOCK * i]))
    {
      var block := data[BLOCK * i..BLOCK * i + BLOCK];
      BlockNext(crc, data, i);
      var cs' := UpdateBraids(t, cs, block);
      StandAfter(cs, Reg(crc, data[..BLOCK * i]), block, cs');
      cs := cs';
      StandRegs(cs, Reg(crc, data[..BLOCK * (i + 1)]));
      i := i + 1;
    }
    var block := data[BLOCK * i..BLOCK * i + BLOCK];
    BlockNext(crc, data, i);
    FoldedAll(cs, Reg(crc, data[..BLOCK * i]), block);
    r := CombineBraids(cs, block);
  }

  lemma StandRegs(cs: seq<Word>, r: Word)
    requires StandFor(cs, r)
    ensures Registers(cs)
  {
  }

  lemma BlockNext(crc: Word, data: seq<Octet>, i: nat)
    requires |crc| == W && BLOCK * i + BLOCK <= |data|
    ensures Reg(crc, data[..BLOCK * (i + 1)]) == Reg(Reg(crc, data[..BLOCK * i]), data[BLOCK * i..BLOCK * i + BLOCK])
  {
    hide Reg;
    assert data[..BLOCK * (i + 1)] == data[..BLOCK * i] + data[BLOCK * i..BLOCK * i + BLOCK];
    RegCat(crc, data[..BLOCK * i], data[BLOCK * i..BLOCK * i + BLOCK]);
  }

  /** crc32_z on a little-endian machine with words of eight bytes: bytes up to a word
      boundary, whole blocks in braids, then bytes. `addr` is where the data lie. */
  method Crc32Z(t: seq<Word>, crc: Word, data: seq<Octet>, addr: nat) returns (r: Word)
    requires PowersTable(t) && |crc| == W
    ensures |r| == W && r == Crc(crc, data)
  {
    hide Xn, Xor, Ext, Reg, PowersTable;
    var c := Not(crc);
    var at := 0;
    assert data[..0] == [];
    RegNone(c);
    ghost var c0 := c;
    if |data| >= BLOCK + 7 {
      while at < |data| && (addr + at) % 8 != 0
        invariant 0 <= at <= |data| && at <= Gap(addr) && |c| == W && c == Reg(c0, data[..at])
        decreases |data| - at
      {
        RegStep(c0, data, at);
        c := AddByte(c, data[at]);
        at := at + 1;
      }
      var blks := (|data| - at) / BLOCK;
      var rest := data[at..];
      c := AddBlocks(t, c, rest, blks);
      Joined(c0, data, at, BLOCK * blks);
      at := at + BLOCK * blks;
    }
    c := AddBytes(c, data[at..]);
    RegCat(c0, data[..at], data[at..]);
    assert data == data[..at] + data[at..];
    r := Not(c);
  }

  /** Bytes before the next word boundary. */
  function Gap(addr: nat): (r: nat)
    ensures r < 8 && (addr + r) % 8 == 0
  {
    (8 - addr % 8) % 8
  }

  lemma Joined(c: Word, data: seq<Octet>, at: nat, n: nat)
    requires |c| == W && at + n <= |data|
    ensures Reg(Reg(c, data[..at]), data[at..][..n]) == Reg(c, data[..at + n])
  {
    hide Reg;
    assert data[..at + n] == data[..at] + data[at..][..n];
    RegCat(c, data[..at], data[at..][..n]);
  }
}
