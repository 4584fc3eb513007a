/** Whole blocks read back: fixed, dynamic and stored (sections 3.2.4 to 3.2.7 of RFC
    1951), and sequences of blocks. */
module BlockReads {
  import opened Bits
  import opened InflateTable
  import opened BitWriter
  import opened InflateSpec
  import opened CodeLengths
  import opened HeaderDecode
  import opened BlockDecode

  // ---- Expanding ----

  lemma {:induction false} ExpandCat(out: seq<byte>, a: seq<Item>, b: seq<Item>)
    ensures Fits(out, a + b) <==> Fits(out, a) && Fits(Expand(out, a), b)
    ensures Fits(out, a + b) ==> Expand(out, a + b) == Expand(Expand(out, a), b)
    decreases |a|
  {
    if a == [] {
      assert a + b == b;
    } else {
      assert (a + b)[1..] == a[1..] + b;
      if FitsOne(out, a[0]) {
        ExpandCat(ExpandOne(out, a[0]), a[1..], b);
      }
    }
  }

  /** Bytes as literals. */
  function Literals(data: seq<byte>): (r: seq<Item>)
    ensures |r| == |data|
  {
    if data == [] then [] else [Literal(data[0])] + Literals(data[1..])
  }

  lemma {:induction false} ExpandLiterals(out: seq<byte>, data: seq<byte>)
    ensures Fits(out, Literals(data)) && Expand(out, Literals(data)) == out + data
    decreases |data|
  {
    if data != [] {
      ExpandLiterals(out + [data[0]], data[1..]);
      assert (out + [data[0]]) + data[1..] == out + data;
    }
  }

  // ---- What it means that bits read as a block ----

  /** s is about to read the bits of a block that starts `start` bits into a stream of
      whole bytes, and has room for what the items expand to. */
  ghost predicate Ready(s: State, bits: BitString, start: nat, items: seq<Item>, rest: BitString) {
    && s.mode == Type && !s.last && !s.limited && (s.n + start) % 8 == 0 && Starts(s, bits, rest)
    && Fits(s.out, items) && |Expand(s.out, items)| - |s.out| <= s.room
  }

  /** From s to t exactly the items were read. */
  ghost predicate HasRead(s: State, t: State, items: seq<Item>, last: bool, rest: BitString)
    requires Fits(s.out, items)
  {
    && t.mode == Type && t.last == last && t.wrap == s.wrap && t.limited == s.limited && t.x == rest.val
    && t.n == rest.len
    && t.out == Expand(s.out, items) && t.room == s.room - (|t.out| - |s.out|)
  }

  /** However the stream goes on, reading the bits gives the items and leaves the rest. */
  ghost predicate Reads(bits: BitString, start: nat, items: seq<Item>, last: bool) {
    && bits.Valid()
    && forall s: State, rest: BitString :: Ready(s, bits, start, items, rest) ==>
         exists t :: Leads(s, t) && HasRead(s, t, items, last, rest)
  }

  lemma ReadsNothing(start: nat)
    ensures Reads(EMPTY, start, [], false)
  {
    forall s: State, rest: BitString | Ready(s, EMPTY, start, [], rest)
      ensures exists t :: Leads(s, t) && HasRead(s, t, [], false, rest)
    {
      CatEmpty(rest);
      LeadsSelf(s);
    }
  }

  /** Blocks one after the other. */
  lemma ReadsCat(a: BitString, b: BitString, start: nat, i: seq<Item>, j: seq<Item>, last: bool)
    requires Reads(a, start, i, false) && Reads(b, start + a.len, j, last)
    ensures Reads(Cat(a, b), start, i + j, last)
  {
    hide Leads, Pow2, Expand, Fits, Cat;
    CatValid(a, b);
    CatLen(a, b);
    forall s: State, rest: BitString | Ready(s, Cat(a, b), start, i + j, rest)
      ensures exists t :: Leads(s, t) && HasRead(s, t, i + j, last, rest)
    {
      ExpandCat(s.out, i, j);
      StartsSplit(s, a, b, rest);
      CatLen(a, Cat(b, rest));
      assert Ready(s, a, start, i, Cat(b, rest));
      var t :| Leads(s, t) && HasRead(s, t, i, false, Cat(b, rest));
      assert Ready(t, b, start + a.len, j, rest);
      var u :| Leads(t, u) && HasRead(t, u, j, last, rest);
      LeadsTrans(s, t, u);
    }
  }

  // ---- The three kinds ----

  function Flag(last: bool): nat {
    if last then 1 else 0
  }

  function TypeBits(kind: nat, last: bool): BitString {
    BitString(2 * kind + Flag(last), 3)
  }

  lemma TypeStep(s: State, kind: nat, last: bool, rest: BitString)
    requires s.mode == Type && !s.last && kind < 3 && Starts(s, TypeBits(kind, last), rest)
    ensures Step(s) == Next(match kind
      case 0 => At(s, rest).(mode := Stored, last := last)
      case 1 => At(s, rest).(mode := Len, last := last, lencode := FixedLit(), distcode := FixedDist())
      case _ => At(s, rest).(mode := Table, last := last))
  {
    ReadBits(s, TypeBits(kind, last), rest);
    TypeParts(s.x, 2 * kind + Flag(last));
    hide Low, Shr, Cat, Pow2, FixedLit, FixedDist;
    assert Step(s) == StepType(s);
  }

  lemma TypeParts(x: nat, v: nat)
    requires Low(x, 3) == v
    ensures Low(x, 1) == v % 2 && Low(Shr(x, 1), 2) == v / 2
  {
    LowLow(x, 1, 3);
    ShrLow(x, 1, 2);
    assert Low(v, 1) == v % 2;
    assert Shr(v, 1) == v / 2;
  }

  lemma TypeValid(kind: nat, last: bool)
    requires kind < 3
    ensures TypeBits(kind, last).Valid()
  {
    assert Pow2(3) == 8;
  }

  /** A fixed block. */
  lemma FixedReads(c: Coder, items: seq<Item>, start: nat, last: bool)
    requires SendsAll(c, items) && c.llens == FixedLit() && c.dlens == FixedDist()
    ensures Reads(Cat(TypeBits(1, last), BodyBits(c, items)), start, items, last)
  {
    var a, b := TypeBits(1, last), BodyBits(c, items);
    BodyValid(c, items);
    TypeValid(1, last);
    CatValid(a, b);
    hide Leads, Cat, Pow2, BodyBits, FixedLit, FixedDist, SendsAll, Step;
    forall s: State, rest: BitString | Ready(s, Cat(a, b), start, items, rest)
      ensures exists t :: Leads(s, t) && HasRead(s, t, items, last, rest)
    {
      StartsSplit(s, a, b, rest);
      TypeStep(s, 1, last, Cat(b, rest));
      var u := At(s, Cat(b, rest)).(mode := Len, last := last, lencode := FixedLit(), distcode := FixedDist());
      var t := BodyRun(u, c, items, rest);
      LeadsStep(s, u, t);
    }
  }

  /** A dynamic block. */
  lemma DynamicReads(c: Coder, clens: seq<nat>, bfc: seq<nat>, ncode: nat, items: seq<Item>, start: nat, last: bool)
    requires SendsAll(c, items) && Header(c.llens, c.dlens, clens, bfc, ncode)
    ensures Reads(Cat(TypeBits(2, last), Cat(HeaderBits(c.llens, c.dlens, clens, bfc, ncode), BodyBits(c, items))),
      start, items, last)
  {
    var a, h, b := TypeBits(2, last), HeaderBits(c.llens, c.dlens, clens, bfc, ncode), BodyBits(c, items);
    BodyValid(c, items);
    HeaderValid(c.llens, c.dlens, clens, bfc, ncode);
    TypeValid(2, last);
    CatValid(h, b);
    CatValid(a, Cat(h, b));
    hide Leads, Cat, Pow2, BodyBits, HeaderBits, Header, SendsAll, Step;
    forall s: State, rest: BitString | Ready(s, Cat(a, Cat(h, b)), start, items, rest)
      ensures exists t :: Leads(s, t) && HasRead(s, t, items, last, rest)
    {
      StartsSplit(s, a, Cat(h, b), rest);
      TypeStep(s, 2, last, Cat(Cat(h, b), rest));
      var u := At(s, Cat(Cat(h, b), rest)).(mode := Table, last := last);
      var t := DynamicRun(u, c, clens, bfc, ncode, items, rest);
      LeadsStep(s, u, t);
    }
  }

  lemma DynamicRun(u: State, c: Coder, clens: seq<nat>, bfc: seq<nat>, ncode: nat, items: seq<Item>,
                   rest: BitString) returns (t: State)
    requires u.mode == Table && !u.limited && SendsAll(c, items) && Header(c.llens, c.dlens, clens, bfc, ncode)
    requires Starts(u, Cat(HeaderBits(c.llens, c.dlens, clens, bfc, ncode), BodyBits(c, items)), rest)
    requires Fits(u.out, items) && |Expand(u.out, items)| - |u.out| <= u.room
    ensures Leads(u, t) && t.last == u.last && HasRead(u, t, items, t.last, rest)
  {
    var h, b := HeaderBits(c.llens, c.dlens, clens, bfc, ncode), BodyBits(c, items);
    BodyValid(c, items);
    HeaderValid(c.llens, c.dlens, clens, bfc, ncode);
    hide Leads, Cat, Pow2, BodyBits, HeaderBits, Header, SendsAll, Expand, Fits;
    StartsSplit(u, h, b, rest);
    HeaderRun(u, c.llens, c.dlens, clens, bfc, ncode, Cat(b, rest));
    var v := At(u, Cat(b, rest)).(mode := Len, nlen := |c.llens|, ndist := |c.dlens|, ncode := ncode, have := ncode,
      clens := clens, lens := c.llens + c.dlens, lencode := c.llens, distcode := c.dlens);
    t := BodyRun(v, c, items, rest);
    LeadsTrans(u, v, t);
  }

  // ---- Stored blocks ----

  ghost function StoredBits(last: bool, pad: nat, data: seq<byte>): BitString
    requires |data| < 0x1_0000
  {
    Cat(TypeBits(0, last), Cat(BitString(0, pad), Cat(LenBits(|data|), BytesOf(data))))
  }

  /** The length and its complement. */
  ghost function LenBits(len: nat): BitString
    requires len < 0x1_0000
  {
    Cat(BitString(len, 16), BitString(0xffff - len, 16))
  }

  lemma LenValid(len: nat)
    requires len < 0x1_0000
    ensures LenBits(len).Valid() && LenBits(len).len == 32
    ensures BitString(len, 16).Valid() && BitString(0xffff - len, 16).Valid()
  {
    Powers();
    CatValid(BitString(len, 16), BitString(0xffff - len, 16));
  }

  lemma LenStep(s: State, len: nat, rest: BitString)
    requires s.mode == Stored && s.n % 8 == 0 && len < 0x1_0000 && Starts(s, LenBits(len), rest)
    ensures Step(s) == Next(At(s, rest).(mode := Copy, length := len))
  {
    var a, b := BitString(len, 16), BitString(0xffff - len, 16);
    LenValid(len);
    ReadBits(s, LenBits(len), rest);
    StartsSplit(s, a, b, rest);
    ReadBits(s, a, Cat(b, rest));
    var t := Drop(s, 16);
    assert Starts(t, b, rest);
    ReadBits(t, b, rest);
    hide Low, Shr, Cat, Pow2;
    assert Step(s) == StepStored(s);
  }

  lemma PadStep(s: State, pad: BitString, rest: BitString)
    requires s.mode == Stored && s.n % 8 == pad.len != 0 && Starts(s, pad, rest)
    ensures Step(s) == Next(At(s, rest))
  {
    ReadBits(s, pad, rest);
    hide Low, Shr, Cat, Pow2;
    assert Step(s) == StepStored(s);
  }

  /** A first byte. */
  lemma BytesFirst(data: seq<byte>)
    requires data != []
    ensures BytesOf(data) == Cat(BitString(data[0], 8), BytesOf(data[1..]))
  {
    assert data == [data[0]] + data[1..];
    BytesCat([data[0]], data[1..]);
    BytesOne(data[0]);
  }

  lemma {:induction false} CopyRun(s: State, data: seq<byte>, rest: BitString) returns (t: State)
    requires s.mode == Copy && s.length == |data| <= s.room && Starts(s, BytesOf(data), rest)
    ensures Leads(s, t) && t == At(s, rest).(mode := Type, length := 0, room := s.room - |data|, out := s.out + data)
    decreases |data|
  {
    hide Leads, Cat, Pow2, BytesOf, Low, Shr;
    if data == [] {
      BytesNone();
      CatEmpty(rest);
      t := s.(mode := Type);
      LeadsSelf(t);
      LeadsStep(s, t, t);
      assert s.out + data == s.out;
    } else {
      BytesFirst(data);
      BytesValid(data[1..]);
      Powers();
      StartsSplit(s, BitString(data[0], 8), BytesOf(data[1..]), rest);
      ReadBits(s, BitString(data[0], 8), Cat(BytesOf(data[1..]), rest));
      var u := At(s, Cat(BytesOf(data[1..]), rest)).(length := s.length - 1, room := s.room - 1,
        out := s.out + [data[0]]);
      assert Step(s) == StepCopy(s) == Next(u);
      t := CopyRun(u, data[1..], rest);
      LeadsStep(s, u, t);
      assert u.out + data[1..] == s.out + data;
    }
  }

  lemma BytesNone()
    ensures BytesOf([]) == EMPTY
  {
  }

  lemma PadRun(s: State, pad: BitString, rest: BitString)
    requires s.mode == Stored && s.n % 8 == pad.len && Starts(s, pad, rest)
    ensures Leads(s, At(s, rest))
  {
    var t := At(s, rest);
    if pad.len == 0 {
      assert pad == EMPTY;
      CatEmpty(rest);
      assert t == s;
      LeadsSelf(s);
    } else {
      PadStep(s, pad, rest);
      LeadsSelf(t);
      LeadsStep(s, t, t);
    }
  }

  lemma ZerosValid(pad: nat)
    ensures BitString(0, pad).Valid()
  {
  }

  lemma WholeBytes(data: seq<byte>, rest: BitString)
    requires |data| < 0x1_0000 && rest.len % 8 == 0
    ensures var b, d := LenBits(|data|), BytesOf(data);
      b.Valid() && d.Valid() && Cat(b, d).Valid() && Cat(Cat(b, d), rest).len % 8 == 0
  {
    hide Pow2, LenBits, BytesOf, Cat;
    var b, d := LenBits(|data|), BytesOf(data);
    LenValid(|data|);
    BytesValid(data);
    CatValid(b, d);
    CatLen(b, d);
    CatLen(Cat(b, d), rest);
  }

  lemma StoredRun(u: State, p: BitString, data: seq<byte>, rest: BitString) returns (t: State)
    requires u.mode == Stored && u.n % 8 == p.len && p.Valid() && |data| < 0x1_0000 && |data| <= u.room
    requires rest.len % 8 == 0
    requires Starts(u, Cat(p, Cat(LenBits(|data|), BytesOf(data))), rest)
    ensures Leads(u, t) && t == At(u, rest).(mode := Type, length := 0, room := u.room - |data|, out := u.out + data)
  {
    hide Leads, Cat, Pow2, BytesOf, LenBits, Step;
    var b, d := LenBits(|data|), BytesOf(data);
    WholeBytes(data, rest);
    StartsSplit(u, p, Cat(b, d), rest);
    PadRun(u, p, Cat(Cat(b, d), rest));
    var v := At(u, Cat(Cat(b, d), rest));
    StartsSplit(v, b, d, rest);
    LenStep(v, |data|, Cat(d, rest));
    var w := At(v, Cat(d, rest)).(mode := Copy, length := |data|);
    t := CopyRun(w, data, rest);
    LeadsStep(v, w, t);
    LeadsTrans(u, v, t);
  }

  /** A stored block: padded to a byte boundary, then its bytes as they are. */
  lemma StoredReads(data: seq<byte>, start: nat, last: bool)
    requires |data| < 0x1_0000
    ensures Reads(StoredBits(last, Pad(start + 3), data), start, Literals(data), last)
  {
    hide Leads, Cat, Pow2, BytesOf, LenBits, Step, Pad, Expand, Fits, Literals;
    var pad := Pad(start + 3);
    ZerosValid(pad);
    StoredValid(data, BitString(0, pad));
    TypeValid(0, last);
    CatValid(TypeBits(0, last), Cat(BitString(0, pad), Cat(LenBits(|data|), BytesOf(data))));
    forall s: State, rest: BitString | Ready(s, StoredBits(last, pad, data), start, Literals(data), rest)
      ensures exists t :: Leads(s, t) && HasRead(s, t, Literals(data), last, rest)
    {
      StoredReadsFrom(s, data, start, last, rest);
    }
  }

  lemma StoredReadsFrom(s: State, data: seq<byte>, start: nat, last: bool, rest: BitString)
    requires |data| < 0x1_0000 && Ready(s, StoredBits(last, Pad(start + 3), data), start, Literals(data), rest)
    ensures exists t :: Leads(s, t) && HasRead(s, t, Literals(data), last, rest)
  {
    hide Leads, Cat, Pow2, BytesOf, LenBits, Step, Pad, Expand, Fits, Literals;
    var pad := Pad(start + 3);
    var a, b := TypeBits(0, last), Cat(BitString(0, pad), Cat(LenBits(|data|), BytesOf(data)));
    ZerosValid(pad);
    StoredValid(data, BitString(0, pad));
    TypeValid(0, last);
    CatLen(a, b);
    CatLen(Cat(a, b), rest);
    PadAligned(start, |data|, rest.len, s.n);
    StartsSplit(s, a, b, rest);
    ExpandLiterals(s.out, data);
    var t := StoredBlockRun(s, last, BitString(0, pad), data, rest);
  }

  lemma StoredBlockRun(s: State, last: bool, p: BitString, data: seq<byte>, rest: BitString) returns (t: State)
    requires s.mode == Type && !s.last && s.n >= 3 && (s.n - 3) % 8 == p.len && p.Valid() && |data| < 0x1_0000
    requires |data| <= s.room && rest.len % 8 == 0
    requires var b := Cat(p, Cat(LenBits(|data|), BytesOf(data)));
      Starts(s, TypeBits(0, last), Cat(b, rest))
    ensures Leads(s, t)
    ensures t == At(s, rest).(mode := Type, last := last, length := 0, room := s.room - |data|, out := s.out + data)
  {
    hide Leads, Cat, Pow2, BytesOf, LenBits, Step;
    var b := Cat(p, Cat(LenBits(|data|), BytesOf(data)));
    StoredValid(data, p);
    TypeStep(s, 0, last, Cat(b, rest));
    CatLen(TypeBits(0, last), Cat(b, rest));
    var u := At(s, Cat(b, rest)).(mode := Stored, last := last);
    t := StoredRun(u, p, data, rest);
    LeadsStep(s, u, t);
  }

  lemma StoredValid(data: seq<byte>, p: BitString)
    requires |data| < 0x1_0000 && p.Valid()
    ensures var b := Cat(p, Cat(LenBits(|data|), BytesOf(data)));
      b.Valid() && b.len == p.len + 32 + 8 * |data|
  {
    LenValid(|data|);
    BytesValid(data);
    CatValid(LenBits(|data|), BytesOf(data));
    CatValid(p, Cat(LenBits(|data|), BytesOf(data)));
  }

  lemma PadAligned(start: nat, d: nat, rest: nat, n: nat)
    requires n == 3 + (Pad(start + 3) + 32 + 8 * d) + rest && (n + start) % 8 == 0
    ensures rest % 8 == 0 && (n - 3) % 8 == Pad(start + 3)
  {
    var p := Pad(start + 3);
    PadFills(start + 3);
    hide Pad;
    var q, k := (start + 3 + p) / 8, (n + start) / 8;
    assert rest == 8 * (k - q - 4 - d);
    assert n - 3 == p + 8 * (k - q);
  }

  lemma PadFills(n: nat)
    ensures (n + Pad(n)) % 8 == 0 && Pad(n) < 8
  {
  }

  lemma HeaderValid(L: seq<nat>, D: seq<nat>, clens: seq<nat>, fc: seq<nat>, ncode: nat)
    requires Header(L, D, clens, fc, ncode)
    ensures HeaderBits(L, D, clens, fc, ncode).Valid()
  {
    hide Cat, Pow2, LenLensBits, TreeBits;
    CountValid(BitString(|L| - 257, 5), BitString(|D| - 1, 5), BitString(ncode - 4, 4));
    LenLensValid(clens, 0, ncode);
    TreeValid(L, D, clens, fc);
    CatValid(LenLensBits(clens, 0, ncode), TreeBits(L, D, clens, fc));
    CatValid(CountBits(|L|, |D|, ncode), Cat(LenLensBits(clens, 0, ncode), TreeBits(L, D, clens, fc)));
  }

  // ---- Whole streams ----

  /** The last block, the padding after it and the trailer's check: inflate is done. */
  lemma StreamEnds(s: State, pad: nat)
    requires s.mode == Type && s.last && !s.wrap && s.n % 8 == pad
    ensures exists t :: Leads(s, t) && t.mode == Done && t.out == s.out && t.n == s.n - pad
  {
    var u := Drop(s, s.n % 8).(mode := Check);
    var v := u.(mode := Done);
    assert Step(s) == Next(u) && Step(u) == Next(v);
    LeadsSelf(v);
    LeadsStep(u, v, v);
    LeadsStep(s, u, v);
  }
}
