/** How many bits inflate can hold when it enters inflate_fast. */
module FastEntry {
  import opened Bits
  import opened Canonical
  import opened BitWriter
  import opened InflateSpec
  import opened InflateChunks
  import StaticTrees
  import opened Inflate

  // ---- A stream of ones ----

  function Ones(n: nat): nat {
    Pow2(n) - 1
  }

  lemma OnesParts(k: nat, m: nat)
    ensures Ones(k + m) == Ones(k) + Pow2(k) * Ones(m)
    ensures Low(Ones(k + m), k) == Ones(k) && Shr(Ones(k + m), k) == Ones(m)
  {
    hide Pow2, Low, Shr;
    Pow2Add(k, m);
    MulAdd(Pow2(k), Ones(m), 1);
    Unpack(Ones(k), Ones(m), k);
  }

  lemma {:induction false} PreOnes(k: nat)
    ensures Pre(Ones(k), k) == Ones(k)
  {
    if k > 0 {
      hide Low, Shr;
      PreOnes(k - 1);
      OnesParts(k - 1, 1);
      LowSmall(Ones(k - 1), k - 1);
      BitOfOnes(k);
      PreSame(Ones(k), Ones(k - 1), k - 1);
    }
  }

  lemma BitOfOnes(k: nat)
    requires k > 0
    ensures Bit(Ones(k), k - 1) == 1 && Ones(k) == 2 * Ones(k - 1) + 1
  {
    TopBit(Ones(k - 1), k - 1);
  }

  lemma PreSame(x: nat, y: nat, k: nat)
    requires Low(x, k) == Low(y, k)
    ensures Pre(x, k) == Pre(y, k)
  {
    PreInjective(x, y, k);
  }

  /** Eight ones start a nine-bit code of a fixed block, which is a literal. */
  lemma NineBits(x: nat) returns (s: nat)
    requires Low(x, 8) == Ones(8)
    ensures Matches(FixedLit(), s, x) && FixedLit()[s] == 9 && s < 256
  {
    hide FixedLit, Used, Pre, Low, Pow2, Count;
    var L := FixedLit();
    FixedSums();
    ShortPre(x);
    PreBound(x, 9);
    s := MatchBelow(L, x, 9);
    CodeBounds(L, s);
    FixedLens(s);
  }

  lemma FixedSums()
    ensures forall l: nat :: l < 7 ==> Used(FixedLit(), l) == 0
    ensures Used(FixedLit(), 7) == 24 && Used(FixedLit(), 8) == 200 && Used(FixedLit(), 9) == 512 == Pow2(9)
  {
    StaticTrees.FixedComplete();
    StaticTrees.FixedCounts(7);
    StaticTrees.FixedCounts(8);
    StaticTrees.FixedCounts(9);
    forall l: nat | l < 7
      ensures Count(FixedLit(), l) == 0
    {
      StaticTrees.FixedCounts(l);
    }
    hide Count, FixedLit;
    forall l: nat | l < 7
      ensures Used(FixedLit(), l) == 0
    {
      NoneUsed(FixedLit(), l);
    }
  }

  lemma ShortPre(x: nat)
    requires Low(x, 8) == Ones(8)
    ensures Pre(x, 7) == 127 && Pre(x, 8) == 255
  {
    hide Low, Pre;
    assert Pow2(7) == 128 && Pow2(8) == 256;
    hide Pow2;
    PreOnes(8);
    PreOnes(7);
    OnesParts(7, 1);
    LowSmall(Ones(8), 8);
    LowSmall(Ones(7), 7);
    PreSame(x, Ones(8), 8);
    LowLow(x, 7, 8);
    PreSame(x, Ones(7), 7);
  }

  lemma FixedLens(s: nat)
    requires s < |FixedLit()|
    ensures FixedLit()[s] == 9 ==> 144 <= s < 256
  {
  }

  // ---- A block of literals, cut short ----

  /** In a fixed block, with nothing but n ones to read. */
  ghost predicate OnOnes(s: State, n: nat, room: nat) {
    s.mode == Len && s.lencode == FixedLit() && s.x == Ones(n) && s.n == n && s.room == room
  }

  lemma LowOnes(n: nat)
    requires n >= 8
    ensures Low(Ones(n), 8) == Ones(8)
  {
    hide Low, Ones;
    OnesParts(8, n - 8);
  }

  /** Nine ones are one literal. */
  lemma OneLiteral(s: State, n: nat, room: nat) returns (t: State)
    requires OnOnes(s, n + 9, room + 1)
    ensures Leads(s, t) && OnOnes(t, n, room)
  {
    hide FixedLit, Low, Shr, Decode, Leads, Ones, Step;
    var u := LiteralRead(s, n, room);
    t := u.(mode := Len, room := room, out := u.out + [u.length % 256]);
    LiteralPut(u, t);
    LeadsSelf(t);
    LeadsStep(u, t, t);
    LeadsStep(s, u, t);
  }

  lemma LiteralRead(s: State, n: nat, room: nat) returns (u: State)
    requires OnOnes(s, n + 9, room + 1)
    ensures Step(s) == Next(u) && u == Drop(s, 9).(mode := Lit, length := u.length)
    ensures OnOnes(u.(mode := Len), n, room + 1)
  {
    hide FixedLit, Low, Shr, Decode, Ones;
    LowOnes(n + 9);
    var sym := NineBits(s.x);
    DecodeSym(s.lencode, s.x, s.n, sym);
    OnesParts(9, n);
    u := Drop(s, 9).(mode := Lit, length := sym);
    assert Step(s) == StepLen(s) == Next(u);
  }

  lemma LiteralPut(u: State, t: State)
    requires u.mode == Lit && u.room > 0
    requires t == u.(mode := Len, room := u.room - 1, out := u.out + [u.length % 256])
    ensures Step(u) == Next(t)
  {
    assert Step(u) == StepLit(u);
  }

  lemma {:induction false} Literals(s: State, n: nat, k: nat) returns (t: State)
    requires OnOnes(s, n + 9 * k, k)
    ensures Leads(s, t) && OnOnes(t, n, 0)
    decreases k
  {
    hide OnOnes, Leads;
    if k == 0 {
      t := s;
      LeadsSelf(s);
    } else {
      var u := OneLiteral(s, n + 9 * (k - 1), k - 1);
      t := Literals(u, n, k - 1);
      LeadsTrans(s, u, t);
    }
  }

  /** With eight ones the code is cut short. */
  lemma CutShort(s: State, room: nat)
    requires OnOnes(s, 8, room)
    ensures Step(s) == Wait
  {
    hide FixedLit, Low, Shr, Decode, Ones;
    LowOnes(8);
    var sym := NineBits(s.x);
    DecodeSym(s.lencode, s.x, s.n, sym);
    assert Step(s) == StepLen(s);
  }

  // ---- The input ----

  function AllOnes(k: nat): (r: seq<byte>)
    ensures |r| == k
  {
    seq(k, _ => 255)
  }

  lemma {:induction false} BytesOnes(k: nat)
    ensures BytesOf(AllOnes(k)) == BitString(Ones(8 * k), 8 * k)
  {
    if k == 0 {
      assert AllOnes(0) == [] && Pow2(0) == 1;
    } else {
      BytesOnes(k - 1);
      assert AllOnes(k)[..k - 1] == AllOnes(k - 1);
      OnesParts(8 * (k - 1), 8);
      assert Pow2(8) == 256;
      hide Pow2;
    }
  }

  /** The first byte marks the last block, of the fixed kind; five of its bits and all that
      follow are ones. */
  const INPUT: seq<byte> := [0xFB] + AllOnes(6)

  lemma InputIs()
    ensures BytesOf(INPUT) == BitString(3 + 8 * Ones(53), 56)
  {
    hide BytesOf, Pow2;
    BytesCat([0xFB], AllOnes(6));
    BytesOne(0xFB);
    BytesOnes(6);
    OnesParts(5, 48);
    FirstPowers();
  }

  lemma FirstPowers()
    ensures Pow2(5) == 32 && Pow2(8) == 256 && Pow2(3) == 8 && Pow2(0) == 1
  {
  }

  /** From the start of the stream to LEN with eight bits and no space. */
  lemma RestsInLen() returns (t: State)
    ensures Leads(Feed(NotBegun(false), INPUT, 5), t) && Step(t) == Wait && t.mode == Len && t.n == 8 && t.room == 0
  {
    hide FixedLit, FixedDist, BytesOf, INPUT, Leads, Ones;
    var s := Feed(NotBegun(false), INPUT, 5);
    InputIs();
    InputSize();
    FirstPowers();
    var u := s.(mode := Type);
    assert Step(s) == StepHead(s) == Next(u);
    var v := Drop(u, 3).(mode := Len, last := true, lencode := FixedLit(), distcode := FixedDist());
    BlockBits();
    assert Step(u) == StepType(u) == Next(v);
    t := Literals(v, 8, 5);
    CutShort(t, 0);
    LeadsStep(u, v, t);
    LeadsStep(s, u, t);
  }

  lemma InputSize()
    ensures |INPUT| == 7
  {
  }

  lemma BlockBits()
    ensures var x := 3 + 8 * Ones(53); Low(x, 1) == 1 && Low(Shr(x, 1), 2) == 1 && Shr(x, 3) == Ones(53)
  {
    hide Ones;
    FirstPowers();
    Unpack(3, Ones(53), 3);
    var y := 1 + 4 * Ones(53);
    assert Pow2(1) == 2 && Pow2(2) == 4;
    Unpack(1, y, 1);
    Unpack(1, Ones(53), 2);
  }

  /** inflate itself rests in LEN with eight bits held, so that a next call with six bytes of
      input and 258 of space enters inflate_fast with them. */
  method EightBitsHeld() returns (f: Inflater)
    ensures fresh(f) && f.Resting() && f.mode == Len && f.r.bits == 8
  {
    hide Inflater.Resting, INPUT, NotBegun, Feed, Leads, Step;
    f := NewStream(false);
    var buffer := new byte[5];
    Beginning(false, 0);
    ghost var start := f.s;
    NoRoomYet(start);
    var ret, written := f.Inflate(INPUT, buffer);
    ghost var t := RestsInLen();
    OnlyEnd(Feed(start, INPUT, 5), f.s, t);
  }

  lemma NoRoomYet(s: State)
    requires s == NotBegun(false)
    ensures s.room == 0
  {
  }
}
