/** adler32.c: the Adler-32 checksum of section 2.2 of RFC 1950. */
module Adler {
  import opened Bits

  const BASE := 65521
  const NMAX := 5552
  const WORD := 0x1_0000_0000

  /** The two running sums. */
  datatype Sums = Sums(a: nat, b: nat) {
    ghost predicate Reduced() { a < BASE && b < BASE }

    /** Sums of sixteen bits, reduced or not. */
    ghost predicate Short() { a < 65536 && b < 65536 }
  }

  const INITIAL := Sums(1, 0)

  /** The definition: both sums are taken modulo 65521 at every byte. */
  function Update(s: Sums, data: seq<byte>): (r: Sums)
    ensures data != [] ==> r.Reduced()
  {
    if data == [] then s
    else
      var t := Update(s, data[..|data| - 1]);
      var a := (t.a + data[|data| - 1]) % BASE;
      Sums(a, (t.b + a) % BASE)
  }

  function Pack(s: Sums): nat {
    s.b * 65536 + s.a
  }

  function Checksum(data: seq<byte>): nat {
    Pack(Update(INITIAL, data))
  }

  // ---- The sums without the modulo ----

  function Plain(s: Sums, data: seq<byte>): (r: Sums) {
    if data == [] then s
    else
      var t := Plain(s, data[..|data| - 1]);
      Sums(t.a + data[|data| - 1], t.b + t.a + data[|data| - 1])
  }

  function Reduce(s: Sums): Sums {
    Sums(s.a % BASE, s.b % BASE)
  }

  lemma {:induction false} PlainReduces(s: Sums, data: seq<byte>)
    ensures Reduce(Plain(s, data)) == Update(Reduce(s), data)
  {
    if data != [] {
      PlainReduces(s, data[..|data| - 1]);
      AddReduces(Plain(s, data[..|data| - 1]), data[|data| - 1]);
    }
  }

  lemma AddReduces(t: Sums, x: byte)
    ensures var r := Reduce(t); var a := (r.a + x) % BASE;
      Reduce(Sums(t.a + x, t.b + t.a + x)) == Sums(a, (r.b + a) % BASE)
  {
    ModAdd(t.a, x);
    ModAdd(t.b, t.a + x);
  }

  lemma ModAdd(x: nat, y: nat)
    ensures (x % BASE + y) % BASE == (x + y) % BASE
    ensures (x % BASE + y % BASE) % BASE == (x + y) % BASE
  {
  }

  lemma {:induction false} UpdateCat(s: Sums, a: seq<byte>, b: seq<byte>)
    ensures Update(s, a + b) == Update(Update(s, a), b)
  {
    if b == [] {
      assert a + b == a;
    } else {
      var m := |b| - 1;
      assert (a + b)[..|a + b| - 1] == a + b[..m];
      UpdateCat(s, a, b[..m]);
    }
  }

  lemma {:induction false} PlainCat(s: Sums, a: seq<byte>, b: seq<byte>)
    ensures Plain(s, a + b) == Plain(Plain(s, a), b)
  {
    if b == [] {
      assert a + b == a;
    } else {
      var m := |b| - 1;
      assert (a + b)[..|a + b| - 1] == a + b[..m];
      PlainCat(s, a, b[..m]);
    }
  }

  /** How far the plain sums can grow in n bytes: within NMAX bytes they stay below
      2^32, which is what lets the modulo wait, even if they start unreduced. */
  lemma {:induction false} PlainBound(s: Sums, data: seq<byte>)
    requires s.Short() && |data| <= NMAX
    ensures Plain(s, data).a <= 65535 + 255 * |data|
    ensures 2 * Plain(s, data).b <= 2 * 65535 * (|data| + 1) + 255 * (|data| * (|data| + 1))
    ensures Plain(s, data).a < WORD && Plain(s, data).b < WORD
  {
    if data != [] {
      var n := |data|;
      PlainBound(s, data[..n - 1]);
      assert n * (n + 1) == (n - 1) * n + 2 * n;
    }
    Square(|data|);
  }

  lemma Square(n: nat)
    requires n <= NMAX
    ensures n * (n + 1) <= NMAX * (NMAX + 1)
  {
    MulMono(n, n + 1, NMAX + 1);
  }

  // ---- adler32_z ----

  /** Add the bytes of data[i..j] to both sums; nothing wraps within NMAX bytes. */
  method AddBytes(s: Sums, data: seq<byte>, i: nat, j: nat, ghost from: nat, ghost s0: Sums) returns (r: Sums)
    requires from <= i <= j <= |data| && j - from <= NMAX && s0.Short()
    requires s == Plain(s0, data[from..i])
    ensures r == Plain(s0, data[from..j])
    ensures r.a < WORD && r.b < WORD
  {
    var k: nat, adler: nat, sum2: nat := i, s.a, s.b;
    while k < j
      invariant i <= k <= j
      invariant Sums(adler, sum2) == Plain(s0, data[from..k])
    {
      ghost var next := data[from..k + 1];
      assert next[..|next| - 1] == data[from..k];
      adler := adler + data[k];
      sum2 := sum2 + adler;
      PlainBound(s0, next);
      assert adler < WORD && sum2 < WORD;
      k := k + 1;
    }
    r := Sums(adler, sum2);
    PlainBound(s0, data[from..j]);
  }

  /** Add a run of at most NMAX bytes, sixteen at a time, and take the modulo once. */
  method AddBlock(s: Sums, data: seq<byte>, from: nat, to: nat) returns (r: Sums)
    requires from <= to <= |data| && to - from <= NMAX && s.Short()
    ensures r == Update(Reduce(s), data[from..to])
    ensures r.Reduced()
  {
    var t, k := s, from;
    assert data[from..from] == [];
    while to - k >= 16
      invariant from <= k <= to
      invariant t == Plain(s, data[from..k])
    {
      t := AddBytes(t, data, k, k + 16, from, s);
      k := k + 16;
    }
    t := AddBytes(t, data, k, to, from, s);
    r := Reduce(t);
    PlainReduces(s, data[from..to]);
  }

  /** One byte: a conditional subtraction does for the modulo, unless the second sum starts
      unreduced and comes to twice the modulus. */
  method AddByte(s: Sums, x: byte) returns (r: Sums)
    requires s.Short()
    ensures r.Short() && Reduce(r) == Update(Reduce(s), [x])
    ensures r.Reduced() <==> s.b + (s.a + x) % BASE < 2 * BASE
  {
    var a: nat := s.a + x;
    if a >= BASE {
      a := a - BASE;
    }
    var b: nat := s.b + a;
    if b >= BASE {
      b := b - BASE;
    }
    r := Sums(a, b);
    hide Update;
    UpdateOne(s, x);
    OneSubtraction(s.a + x, a);
    OneSubtraction(s.b + a, b);
  }

  lemma UpdateOne(s: Sums, x: byte)
    ensures var a := (s.a + x) % BASE; Update(Reduce(s), [x]) == Sums(a, (s.b + a) % BASE)
  {
    assert [x][..0] == [];
    assert Update(Reduce(s), []) == Reduce(s);
    ModAdd(s.a, x);
    ModAdd(s.b, (s.a + x) % BASE);
  }

  lemma OneSubtraction(x: nat, y: nat)
    requires x < 3 * BASE && y == if x >= BASE then x - BASE else x
    ensures y % BASE == x % BASE && (x < 2 * BASE <==> y < BASE) && (x < 2 * BASE ==> y == x % BASE)
  {
  }

  lemma FewBound(s: Sums, data: seq<byte>)
    requires s.Short() && |data| < 16
    ensures Plain(s, data).a < 2 * BASE
  {
    PlainBound(s, data);
  }

  /** Fewer than sixteen bytes. */
  method AddFew(s: Sums, data: seq<byte>) returns (r: Sums)
    requires s.Short() && |data| < 16
    ensures r == Update(Reduce(s), data) && r.Reduced()
  {
    assert data[0..0] == [] && data[0..|data|] == data && s == Plain(s, []);
    hide Update, Plain;
    var t := AddBytes(s, data, 0, |data|, 0, s);
    FewBound(s, data);
    PlainReduces(s, data);
    var a := Lessen(t.a);
    hide Reduce;
    r := Sums(a, t.b % BASE);
    assert r == Reduce(t) by {
      IsReduced(t);
    }
  }

  /** Only one subtraction is needed. */
  method Lessen(x: nat) returns (a: nat)
    requires x < 2 * BASE
    ensures a == x % BASE
  {
    a := x;
    if a >= BASE {
      a := a - BASE;
    }
  }

  lemma IsReduced(t: Sums)
    ensures Reduce(t) == Sums(t.a % BASE, t.b % BASE) && Reduce(t).Reduced()
  {
  }

  /** Runs of NMAX bytes, and what is left. */
  method AddMany(s: Sums, data: seq<byte>) returns (t: Sums)
    requires s.Short() && data != []
    ensures t == Update(Reduce(s), data) && t.Reduced()
  {
    hide Update;
    var k: nat := 0;
    t := s;
    Nothing(s);
    assert data[..0] == [];
    while |data| - k >= NMAX
      invariant 0 <= k <= |data|
      invariant t.Short() && Reduce(t) == Update(Reduce(s), data[..k]) && (k > 0 ==> t.Reduced())
    {
      t := AddBlock(t, data, k, k + NMAX);
      UpdateCat(Reduce(s), data[..k], data[k..k + NMAX]);
      assert data[..k] + data[k..k + NMAX] == data[..k + NMAX];
      k := k + NMAX;
    }
    if k < |data| {
      t := AddBlock(t, data, k, |data|);
      UpdateCat(Reduce(s), data[..k], data[k..|data|]);
      assert data[..k] + data[k..|data|] == data;
    } else {
      assert data[..k] == data;
    }
  }

  lemma Nothing(s: Sums)
    ensures Update(Reduce(s), []) == Reduce(s)
  {
  }

  /** The two sums in a word. */
  function Split(adler: nat): (s: Sums)
    ensures s.Short()
  {
    Sums(adler % 65536, adler / 65536 % 65536)
  }

  /** adler32_z: the checksum of data, started from the sums packed in adler. Whatever these
      are, both sums are right modulo 65521; they are reduced as well, but for one byte added
      to a second sum so large that one subtraction is not enough. */
  method Adler32(adler: nat, data: seq<byte>) returns (r: nat)
    ensures r < WORD && Reduce(Split(r)) == Update(Reduce(Split(adler)), data)
    ensures Split(r).Reduced() <==> |data| != 1 || Split(adler).b + (Split(adler).a + data[0]) % BASE < 2 * BASE
    ensures Split(adler).Reduced() ==> r == Pack(Update(Split(adler), data)) && Split(r).Reduced()
  {
    hide Update;
    var s := Split(adler);
    var t: Sums;
    if |data| == 1 {
      assert data == [data[0]];
      t := AddByte(s, data[0]);
    } else if |data| < 16 {
      t := AddFew(s, data);
    } else {
      t := AddMany(s, data);
    }
    PackSplit(t);
    r := Pack(t);
    if s.Reduced() {
      Reduces(s, t);
    }
  }

  lemma Reduces(s: Sums, t: Sums)
    ensures s.Reduced() ==> Reduce(s) == s
    ensures t.Reduced() ==> Reduce(t) == t
  {
  }

  lemma PackSplit(s: Sums)
    requires s.Short()
    ensures Split(Pack(s)) == s && Pack(s) < WORD
  {
  }

  /** Cutting the data across calls does not matter. */
  lemma ChecksumCat(a: seq<byte>, b: seq<byte>)
    ensures Checksum(a + b) == Pack(Update(Update(INITIAL, a), b))
  {
    UpdateCat(INITIAL, a, b);
  }

  // ---- adler32_combine_ ----

  /** What data adds to the plain sums, whatever they were. */
  lemma {:induction false} PlainLinear(s: Sums, data: seq<byte>)
    ensures Plain(s, data).a == s.a + Plain(Sums(0, 0), data).a
    ensures Plain(s, data).b == s.b + |data| * s.a + Plain(Sums(0, 0), data).b
  {
    if data != [] {
      var n := |data|;
      PlainLinear(s, data[..n - 1]);
      assert n * s.a == (n - 1) * s.a + s.a;
    }
  }

  lemma MulMod(n: nat, a: nat)
    ensures ((n % BASE) * a) % BASE == (n * a) % BASE
  {
    var q, r := n / BASE, n % BASE;
    assert n == BASE * q + r;
    assert n * a == BASE * (q * a) + r * a;
    ModMultiple(r * a, q * a);
  }

  lemma ModMultiple(x: nat, k: nat)
    ensures (BASE * k + x) % BASE == x % BASE
  {
  }

  /** The checksum of a + b from those of a and b, in reduced sums. */
  function Combined(s: Sums, t: Sums, n: nat): Sums
  {
    Sums((s.a + t.a + BASE - 1) % BASE, ((n % BASE) * s.a % BASE + s.b + t.b + BASE - n % BASE) % BASE)
  }

  lemma CombineSums(a: seq<byte>, b: seq<byte>)
    ensures Update(INITIAL, a + b) == Combined(Update(INITIAL, a), Update(INITIAL, b), |b|)
  {
    hide Update, Plain;
    var s, t, n := Update(INITIAL, a), Update(INITIAL, b), |b|;
    UpdateReduced(a);
    UpdateCat(INITIAL, a, b);
    var z := Plain(Sums(0, 0), b);
    PlainSum(s, b);
    PlainSum(INITIAL, b);
    CombineFirst(s.a, z.a);
    CombineSecond(s.a, s.b, z.b, n);
  }

  lemma PlainSum(s: Sums, data: seq<byte>)
    requires s.Reduced()
    ensures Update(s, data).a == (s.a + Plain(Sums(0, 0), data).a) % BASE
    ensures Update(s, data).b == (s.b + |data| * s.a + Plain(Sums(0, 0), data).b) % BASE
  {
    hide Update, Plain;
    PlainReduces(s, data);
    PlainLinear(s, data);
  }

  lemma CombineFirst(sa: nat, za: nat)
    ensures (sa + za) % BASE == (sa + (1 + za) % BASE + BASE - 1) % BASE
  {
  }

  lemma CombineSecond(sa: nat, sb: nat, zb: nat, n: nat)
    ensures (sb + n * sa + zb) % BASE ==
      ((n % BASE) * sa % BASE + sb + (0 + n * 1 + zb) % BASE + BASE - n % BASE) % BASE
  {
    MulMod(n, sa);
    CombineMod(sb, n * sa, zb, n);
  }

  lemma CombineMod(sb: nat, na: nat, zb: nat, n: nat)
    ensures (sb + na + zb) % BASE == (na % BASE + sb + (n + zb) % BASE + BASE - n % BASE) % BASE
  {
  }

  lemma UpdateReduced(data: seq<byte>)
    ensures Update(INITIAL, data).Reduced()
  {
  }

  /** Two sums below 3 and 4 times the modulus, reduced by conditional subtraction. */
  method ReduceSums(x: nat, y: nat) returns (r: Sums)
    requires x < 3 * BASE && y < 4 * BASE
    ensures r == Sums(x % BASE, y % BASE)
  {
    var sum1, sum2 := x, y;
    if sum1 >= BASE {
      sum1 := sum1 - BASE;
    }
    if sum1 >= BASE {
      sum1 := sum1 - BASE;
    }
    if sum2 >= 2 * BASE {
      sum2 := sum2 - 2 * BASE;
    }
    if sum2 >= BASE {
      sum2 := sum2 - BASE;
    }
    r := Sums(sum1, sum2);
  }

  /** adler32_combine_: the checksum of a concatenation from the parts' checksums and
      the length of the second part; all ones for a negative length. */
  method Combine(adler1: nat, adler2: nat, len2: int) returns (r: nat)
    requires adler1 < WORD && adler2 < WORD
    requires adler1 % 65536 < BASE && adler1 / 65536 < BASE && adler2 % 65536 < BASE && adler2 / 65536 < BASE
    ensures len2 < 0 ==> r == WORD - 1
    ensures forall a: seq<byte>, b: seq<byte> ::
      len2 == |b| && adler1 == Checksum(a) && adler2 == Checksum(b) ==> r == Checksum(a + b)
  {
    hide Update;
    if len2 < 0 {
      r := 0xffff_ffff;
      return;
    }
    hide Checksum, Combined, Pack;
    var s := CombineParts(Split(adler1), Split(adler2), len2);
    r := Pack(s);
    hide Split;
    forall a: seq<byte>, b: seq<byte> | len2 == |b| && adler1 == Checksum(a) && adler2 == Checksum(b)
      ensures r == Checksum(a + b)
    {
      CombineChecksums(a, b);
    }
  }

  method CombineParts(s: Sums, t: Sums, len2: nat) returns (r: Sums)
    requires s.Reduced() && t.Reduced()
    ensures r == Combined(s, t, len2)
  {
    var rem := len2 % BASE;
    var sum1: nat := s.a;
    var sum2: nat := rem * sum1;
    sum2 := sum2 % BASE;
    sum1 := sum1 + t.a + BASE - 1;
    sum2 := sum2 + s.b + t.b + BASE - rem;
    r := ReduceSums(sum1, sum2);
  }

  lemma CombineChecksums(a: seq<byte>, b: seq<byte>)
    ensures Pack(Combined(Split(Checksum(a)), Split(Checksum(b)), |b|)) == Checksum(a + b)
  {
    hide Update, Combined;
    UpdateReduced(a);
    UpdateReduced(b);
    PackSplit(Update(INITIAL, a));
    PackSplit(Update(INITIAL, b));
    CombineSums(a, b);
  }

  // ---- What the sums are ----

  /** The sum of all bytes. */
  function BytesSum(data: seq<byte>): nat {
    if data == [] then 0 else BytesSum(data[..|data| - 1]) + data[|data| - 1]
  }

  /** Each byte as often as there are bytes from it on. */
  function BytesWeighted(data: seq<byte>): nat {
    if data == [] then 0 else BytesWeighted(data[..|data| - 1]) + BytesSum(data)
  }

  lemma {:induction false} WeightedAt(data: seq<byte>)
    ensures BytesWeighted(data) == WeightedFrom(data, 0)
  {
    if data == [] {
    } else {
      var k := |data| - 1;
      WeightedAt(data[..k]);
      WeightedSnoc(data[..k], data[k], 0);
      assert data[..k] + [data[k]] == data;
      SumFromAll(data, 0);
      assert data[0..] == data;
    }
  }

  /** Byte i counts |data| - i times. */
  function WeightedFrom(data: seq<byte>, i: nat): nat
    requires i <= |data|
    decreases |data| - i
  {
    if i == |data| then 0 else (|data| - i) * data[i] + WeightedFrom(data, i + 1)
  }

  function SumFrom(data: seq<byte>, i: nat): nat
    requires i <= |data|
    decreases |data| - i
  {
    if i == |data| then 0 else data[i] + SumFrom(data, i + 1)
  }

  lemma {:induction false} WeightedSnoc(data: seq<byte>, x: byte, i: nat)
    requires i <= |data|
    ensures WeightedFrom(data + [x], i) == WeightedFrom(data, i) + SumFrom(data + [x], i)
    decreases |data| - i
  {
    var all := data + [x];
    if i < |data| {
      WeightedSnoc(data, x, i + 1);
      assert all[i] == data[i];
      assert (|data| + 1 - i) * data[i] == (|data| - i) * data[i] + data[i];
    } else {
      assert WeightedFrom(all, i + 1) == 0 && SumFrom(all, i + 1) == 0;
    }
  }

  lemma {:induction false} SumFromAll(data: seq<byte>, i: nat)
    requires i <= |data|
    ensures SumFrom(data, i) == BytesSum(data) - BytesSum(data[..i])
    decreases |data| - i
  {
    if i == |data| {
      assert data[..i] == data;
    } else {
      SumFromAll(data, i + 1);
      assert data[..i + 1][..i] == data[..i];
    }
  }

  lemma {:induction false} PlainIs(data: seq<byte>)
    ensures Plain(INITIAL, data) == Sums(1 + BytesSum(data), |data| + BytesWeighted(data))
  {
    if data != [] {
      PlainIs(data[..|data| - 1]);
    }
  }

  /** The checksum in closed form: one more than the sum of the bytes, and, above it, the number
      of bytes and byte i |data| - i times, each modulo 65521. */
  lemma ClosedForm(data: seq<byte>)
    ensures Checksum(data)
      == (|data| + WeightedFrom(data, 0)) % 65521 * 65536 + (1 + SumFrom(data, 0)) % 65521
  {
    PlainReduces(INITIAL, data);
    PlainIs(data);
    WeightedAt(data);
    SumFromAll(data, 0);
    hide Plain, Update;
    assert data[..0] == [];
  }

  // ---- The modulus ----

  ghost predicate Prime(n: nat) {
    n >= 2 && forall a: nat, b: nat :: Factors(n, a, b) ==> a < 2 || b < 2
  }

  predicate Factors(n: nat, a: nat, b: nat) {
    a * b == n
  }

  /** n lies between two multiples of d. */
  predicate Misses(n: nat, d: nat) {
    d > 0 && d * (n / d) < n < d * (n / d + 1)
  }

  /** All numbers from d up to 257 miss n. */
  predicate Missed(n: nat, d: nat)
    requires d >= 2
    decreases 258 - d
  {
    d > 257 || (SixteenMiss(n, d) && Missed(n, d + 16))
  }

  predicate SixteenMiss(n: nat, d: nat) {
    && Misses(n, d) && Misses(n, d + 1) && Misses(n, d + 2) && Misses(n, d + 3)
    && Misses(n, d + 4) && Misses(n, d + 5) && Misses(n, d + 6) && Misses(n, d + 7)
    && Misses(n, d + 8) && Misses(n, d + 9) && Misses(n, d + 10) && Misses(n, d + 11)
    && Misses(n, d + 12) && Misses(n, d + 13) && Misses(n, d + 14) && Misses(n, d + 15)
  }

  lemma {:induction false} MissedAt(n: nat, d: nat, e: nat)
    requires 2 <= d <= e < 256 && Missed(n, d)
    ensures Misses(n, e)
    decreases e - d
  {
    if e >= d + 16 {
      MissedAt(n, d + 16, e);
    }
  }

  lemma NoProduct(n: nat, a: nat, b: nat)
    requires Misses(n, a)
    ensures a * b != n
  {
    var q := n / a;
    if b <= q {
      MulMono(a, b, q);
    } else {
      MulMono(a, q + 1, b);
    }
  }

  lemma BigProduct(a: nat, b: nat)
    requires a >= 256 && b >= 256
    ensures a * b >= 65536
  {
    MulMono(a, 256, b);
  }

  lemma MissedStep(n: nat, d: nat)
    requires d >= 2 && SixteenMiss(n, d) && (d + 16 > 257 || Missed(n, d + 16))
    ensures Missed(n, d)
  {
    hide SixteenMiss;
  }

  lemma From210()
    ensures Missed(BASE, 210)
  {
    hide Missed;
    MissedStep(BASE, 242);
    MissedStep(BASE, 226);
    MissedStep(BASE, 210);
  }

  lemma From162()
    ensures Missed(BASE, 162)
  {
    hide Missed;
    From210();
    MissedStep(BASE, 194);
    MissedStep(BASE, 178);
    MissedStep(BASE, 162);
  }

  lemma From114()
    ensures Missed(BASE, 114)
  {
    hide Missed;
    From162();
    MissedStep(BASE, 146);
    MissedStep(BASE, 130);
    MissedStep(BASE, 114);
  }

  lemma From66()
    ensures Missed(BASE, 66)
  {
    hide Missed;
    From114();
    MissedStep(BASE, 98);
    MissedStep(BASE, 82);
    MissedStep(BASE, 66);
  }

  lemma From18()
    ensures Missed(BASE, 18)
  {
    hide Missed;
    From66();
    MissedStep(BASE, 50);
    MissedStep(BASE, 34);
    MissedStep(BASE, 18);
  }

  lemma BaseMissed()
    ensures Missed(BASE, 2)
  {
    hide Missed;
    From18();
    MissedStep(BASE, 2);
  }

  /** BASE is the largest prime below 65536. */
  lemma LargestPrime(n: nat)
    requires BASE <= n < 65536
    ensures Prime(n) <==> n == BASE
  {
    if n == BASE {
      BaseIsPrime();
    } else {
      NotPrime(n);
    }
  }

  lemma BaseIsPrime()
    ensures Prime(BASE)
  {
    BaseMissed();
    hide Missed, Misses;
    forall a: nat, b: nat | a >= 2 && b >= 2
      ensures !Factors(BASE, a, b)
    {
      if a < 256 {
        MissedAt(BASE, 2, a);
        NoProduct(BASE, a, b);
      } else if b < 256 {
        MissedAt(BASE, 2, b);
        NoProduct(BASE, b, a);
      } else {
        BigProduct(a, b);
      }
    }
  }

  lemma NotPrime(n: nat)
    requires BASE < n < 65536
    ensures !Prime(n)
  {
    var d: nat := if n % 2 == 0 then 2 else if n % 3 == 0 then 3 else if n % 5 == 0 then 5
                  else if n == 65533 then 13 else if n == 65531 then 19 else 7;
    var q: nat := n / d;
    assert Factors(n, d, q) && q >= 2;
  }
}
