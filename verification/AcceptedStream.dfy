/** inflate.c: whole streams that inflate ends well are streams of the format. */
module AcceptedStream {
  import opened Bits
  import opened InflateTable
  import opened BitWriter
  import opened InflateSpec
  import opened BlockReads
  import opened Format
  import opened Accepted
  import opened AcceptedHeader
  import Adler

  // ---- Stored blocks ----

  lemma CopyStep(s: State, t: State, k: nat) returns (b: byte, u: State)
    requires s.mode == Copy && s.length > 0 && Held(s) && Goes(s, t, k)
    ensures k > 0 && Goes(u, t, k - 1) && Takes(s, BitString(b, 8), u)
    ensures u == s.(x := u.x, n := u.n, length := s.length - 1, room := u.room, out := s.out + [b])
  {
    hide Low, Shr, Pow2;
    StepOn(s, t, k);
    assert Step(s) == StepCopy(s);
    u := Step(s).s;
    LowByte(s.x);
    b := Low(s.x, 8);
    TakesDrop(s, 8);
    TakesSame(s, BitString(b, 8), Drop(s, 8), s, u);
  }

  lemma {:induction false} CopySound(s: State, t: State, k: nat) returns (data: seq<byte>, u: State, j: nat)
    requires s.mode == Copy && Held(s) && Goes(s, t, k)
    ensures j < k && Goes(u, t, j) && Takes(s, BytesOf(data), u) && |data| == s.length
    ensures u == s.(x := u.x, n := u.n, length := 0, room := u.room, mode := Type, out := s.out + data)
    decreases k
  {
    hide Pow2, Cat, BytesOf;
    if s.length == 0 {
      StepOn(s, t, k);
      data, u, j := [], Step(s).s, k - 1;
      BytesNone();
      TakesNone(s, u);
      assert s.out + data == s.out;
    } else {
      var b, v := CopyStep(s, t, k);
      var rest;
      rest, u, j := CopySound(v, t, k - 1);
      data := [b] + rest;
      assert data[1..] == rest;
      BytesFirst(data);
      TakesCat(s, BitString(b, 8), v, BytesOf(rest), u);
      assert v.out + rest == s.out + data;
    }
  }

  lemma PadIs(n: nat, start: nat)
    requires (n + start) % 8 == 0
    ensures n % 8 == Pad(start)
  {
  }

  /** Fill up to a byte. */
  lemma PadSound(s: State, t: State, k: nat, start: nat) returns (pad: BitString, u: State, j: nat)
    requires s.mode == Stored && Held(s) && Goes(s, t, k) && (s.n + start) % 8 == 0
    ensures j <= k && Goes(u, t, j) && Takes(s, pad, u) && pad.len == Pad(start) && u.n % 8 == 0
    ensures u == s.(x := u.x, n := u.n)
  {
    hide Low, Shr, Pow2, Cat, Pad;
    PadIs(s.n, start);
    if s.n % 8 == 0 {
      pad, u, j := EMPTY, s, k;
      TakesNone(s, s);
    } else {
      StepOn(s, t, k);
      assert Step(s) == StepStored(s);
      u, j := Step(s).s, k - 1;
      pad := BitString(Low(s.x, s.n % 8), s.n % 8);
      TakesDrop(s, s.n % 8);
    }
  }

  lemma LenSound(s: State, t: State, k: nat) returns (len: nat, u: State)
    requires s.mode == Stored && s.n % 8 == 0 && Held(s) && Goes(s, t, k)
    ensures k > 0 && Goes(u, t, k - 1) && len < 0x1_0000 && Takes(s, LenBits(len), u)
    ensures u == s.(x := u.x, n := u.n, mode := Copy, length := len)
  {
    hide Low, Shr, Pow2, Cat;
    StepOn(s, t, k);
    assert Step(s) == StepStored(s);
    u := Step(s).s;
    NeverBad(u, t, k - 1);
    len := Low(s.x, 16);
    var v := Drop(s, 16);
    LowOf16(s.x);
    TakesDrop(s, 16);
    TakesDrop(v, 16);
    DropTwice(s, 16, 16);
    TakesCat(s, BitString(len, 16), v, BitString(Low(v.x, 16), 16), Drop(s, 32));
    TakesSame(s, LenBits(len), Drop(s, 32), s, u);
  }

  lemma LowOf16(x: nat)
    ensures Low(x, 16) < 0x1_0000
  {
    LowShr(x, 16);
    Powers();
  }

  lemma StoredSound(s: State, t: State, k: nat, start: nat) returns (data: seq<byte>, c: BitString, u: State, j: nat)
    requires s.mode == Stored && Held(s) && Goes(s, t, k) && (s.n + start) % 8 == 0
    ensures j < k && Goes(u, t, j) && Takes(s, c, u) && IsStored(c, start, data) && u.out == s.out + data
    ensures u.mode == Type && u.wrap == s.wrap && u.last == s.last
  {
    hide Pow2, Cat, BytesOf, Pad, LenBits, Goes;
    var pad, s1;
    pad, s1, j := PadSound(s, t, k, start);
    var len, s2 := LenSound(s1, t, j);
    data, u, j := CopySound(s2, t, j - 1);
    TakesCat(s1, LenBits(len), s2, BytesOf(data), u);
    TakesCat(s, pad, s1, Cat(LenBits(len), BytesOf(data)), u);
    c := Cat(pad, Cat(LenBits(len), BytesOf(data)));
    assert StoredIs(c, start, data, pad);
  }

  // ---- Blocks ----

  lemma TypeSound(s: State, t: State, k: nat) returns (kind: nat, last: bool, u: State)
    requires s.mode == Type && !s.last && Held(s) && Goes(s, t, k)
    ensures k > 0 && Goes(u, t, k - 1) && kind < 3 && Takes(s, TypeBits(kind, last), u) && u.n + 3 == s.n
    ensures var v := s.(x := u.x, n := u.n, last := last);
      u == match kind
        case 0 => v.(mode := Stored)
        case 1 => v.(mode := Len, lencode := FixedLit(), distcode := FixedDist())
        case _ => v.(mode := Table)
  {
    hide Low, Shr, Pow2, FixedLit, FixedDist;
    StepOn(s, t, k);
    assert Step(s) == StepType(s);
    u := Step(s).s;
    NeverBad(u, t, k - 1);
    var v := Low(s.x, 3);
    TypeParts(s.x, v);
    LowOf3(s.x);
    kind, last := v / 2, v % 2 == 1;
    TakesDrop(s, 3);
    TakesSame(s, BitString(v, 3), Drop(s, 3), s, u);
  }

  /** A block. */
  lemma BlockSound(s: State, t: State, k: nat, start: nat) returns (c: BitString, u: State, j: nat)
    requires s.mode == Type && !s.last && Held(s) && Goes(s, t, k) && (s.n + start) % 8 == 0
    ensures j < k && Goes(u, t, j) && Takes(s, c, u) && IsBlock(c, start, u.last, s.out, u.out)
    ensures u.mode == Type && u.wrap == s.wrap
  {
    hide Pow2, Cat, IsStored, IsHeader, CodesGive, Goes, FixedLit, FixedDist, TypeBits, IsContent;
    var kind, last, v := TypeSound(s, t, k);
    var b;
    b, u, j := ContentSound(v, t, k - 1, kind, start + 3);
    c := Cat(TypeBits(kind, last), b);
    TakesCat(s, TypeBits(kind, last), v, b, u);
    assert BlockIs(c, start, u.last, s.out, u.out, kind, b);
  }

  lemma ContentSound(s: State, t: State, k: nat, kind: nat, start: nat) returns (c: BitString, u: State, j: nat)
    requires kind < 3 && Held(s) && Goes(s, t, k) && (s.n + start) % 8 == 0
    requires s.mode == if kind == 0 then Stored else if kind == 1 then Len else Table
    requires kind == 1 ==> s.lencode == FixedLit() && s.distcode == FixedDist()
    ensures j < k && Goes(u, t, j) && Takes(s, c, u) && IsContent(c, kind, start, s.out, u.out)
    ensures u.mode == Type && u.wrap == s.wrap && u.last == s.last
  {
    hide Pow2, Cat, IsStored, IsHeader, CodesGive, Goes, FixedLit, FixedDist;
    if kind == 0 {
      var data;
      data, c, u, j := StoredSound(s, t, k, start);
    } else if kind == 1 {
      var items;
      items, c, u, j := BodySound(s, t, k);
    } else {
      var h, v;
      h, v, j := HeaderSound(s, t, k);
      var items, b;
      items, b, u, j := BodySound(v, t, j);
      c := Cat(h, b);
      TakesCat(s, h, v, b, u);
      assert DynamicIs(c, h, b, v.lencode, v.distcode, items, s.out, u.out);
    }
  }

  lemma TakesLen(s: State, c: BitString, u: State)
    requires Takes(s, c, u)
    ensures s.n == c.len + u.n
  {
  }

  lemma Moved(n: nat, c: nat, m: nat, start: nat)
    requires n == c + m && (n + start) % 8 == 0
    ensures (m + (start + c)) % 8 == 0
  {
  }

  /** All blocks, up to the last one. */
  lemma {:induction false} BlocksSound(s: State, t: State, k: nat, start: nat) returns (c: BitString, n: nat, u: State,
                                                                                       j: nat)
    requires s.mode == Type && !s.last && Held(s) && Goes(s, t, k) && (s.n + start) % 8 == 0
    ensures j < k && Goes(u, t, j) && Takes(s, c, u) && AreBlocks(c, start, s.out, u.out, n)
    ensures u.mode == Type && u.last && u.wrap == s.wrap
    decreases k
  {
    hide Pow2, Cat, IsBlock, Goes;
    c, u, j := BlockSound(s, t, k, start);
    n := 0;
    if !u.last {
      var a, v, b := c, u, c;
      TakesLen(s, a, v);
      Moved(s.n, a.len, v.n, start);
      b, n, u, j := BlocksSound(v, t, j, start + a.len);
      n := n + 1;
      c := Cat(a, b);
      TakesCat(s, a, v, b, u);
      assert BlocksGo(c, start, s.out, u.out, n, a, b, v.out);
    }
  }

  // ---- What is around them ----

  /** The end of the last block: fill up to a byte. */
  lemma LastSound(s: State, t: State, k: nat, start: nat) returns (pad: BitString, u: State)
    requires s.mode == Type && s.last && Held(s) && Goes(s, t, k) && (s.n + start) % 8 == 0
    ensures k > 0 && Goes(u, t, k - 1) && Takes(s, pad, u) && pad.len == Pad(start)
    ensures u == s.(x := u.x, n := u.n, mode := Check)
  {
    hide Low, Shr, Pow2, Cat, Pad;
    PadIs(s.n, start);
    StepOn(s, t, k);
    assert Step(s) == StepType(s);
    u := Step(s).s;
    pad := BitString(Low(s.x, s.n % 8), s.n % 8);
    TakesDrop(s, s.n % 8);
    TakesSame(s, pad, Drop(s, s.n % 8), s, u);
  }

  /** Nothing follows. */
  lemma DoneIs(s: State, t: State, k: nat)
    requires s.mode == Done && Goes(s, t, k)
    ensures s == t
  {
    assert Step(s) == Wait;
    assert k > 0 ==> Run(s, k) == Wait;
  }

  lemma {:induction false} BytesTwo(a: byte, b: byte)
    ensures BytesOf([a, b]) == BitString(a + 256 * b, 16)
  {
    BytesFirst([a, b]);
    BytesOne(b);
    assert [a, b][1..] == [b];
    assert Pow2(8) == 256;
  }

  lemma BytesFour(a: byte, b: byte, c: byte, d: byte)
    ensures BytesOf([a, b, c, d]) == BitString(a + 256 * (b + 256 * (c + 256 * d)), 32)
  {
    BytesFirst([a, b, c, d]);
    assert [a, b, c, d][1..] == [b, c, d];
    BytesFirst([b, c, d]);
    assert [b, c, d][1..] == [c, d];
    BytesTwo(c, d);
    hide BytesOf;
    assert Pow2(8) == 256;
  }

  /** The four bytes of a number. */
  lemma FourBytes(v: nat) returns (b: seq<byte>)
    requires v < 0x1_0000_0000
    ensures |b| == 4 && BytesOf(b) == BitString(v, 32) && BigEndian(b[0], b[1], b[2], b[3]) == Swap32(v)
  {
    var x: byte, y: byte, z: byte, w: byte := v % 256, v / 256 % 256, v / 0x1_0000 % 256, v / 0x100_0000 % 256;
    b := [x, y, z, w];
    BytesFour(x, y, z, w);
    hide BytesOf;
    assert v / 0x1_0000 == v / 256 / 256 && v / 0x100_0000 == v / 0x1_0000 / 256;
  }

  /** The trailer: there is one with a zlib header, and it is the checksum of the output. */
  lemma CheckSound(s: State, t: State, k: nat) returns (b: seq<byte>)
    requires s.mode == Check && Held(s) && Goes(s, t, k)
    ensures t.out == s.out
    ensures if s.wrap then GoodTrailer(b, t.out) && Takes(s, BytesOf(b), t) else Takes(s, EMPTY, t)
  {
    hide Low, Shr, Pow2, Cat, Swap32, Adler.Checksum, BytesOf;
    StepOn(s, t, k);
    assert Step(s) == StepCheck(s);
    var u := Step(s).s;
    NeverBad(u, t, k - 1);
    DoneIs(u, t, k - 1);
    b := [];
    if s.wrap {
      LowOf32(s.x);
      b := FourBytes(Low(s.x, 32));
      TakesDrop(s, 32);
      TakesSame(s, BytesOf(b), Drop(s, 32), s, t);
    } else {
      TakesNone(s, t);
    }
  }

  lemma LowOf32(x: nat)
    ensures Low(x, 32) < 0x1_0000_0000
  {
    LowShr(x, 32);
    Pow2Add(16, 16);
    Powers();
  }

  /** The header of a zlib stream. */
  lemma HeadSound(s: State, t: State, k: nat) returns (b0: byte, b1: byte, u: State)
    requires s.mode == Head && s.wrap && Held(s) && Goes(s, t, k)
    ensures k > 0 && Goes(u, t, k - 1) && GoodHeader(b0, b1) && Takes(s, BytesOf([b0, b1]), u)
    ensures u == s.(x := u.x, n := u.n, mode := Type) && s.n == u.n + 16
  {
    hide Low, Shr, Pow2, Cat, BytesOf, HeadVerdict, GoodHeader;
    StepOn(s, t, k);
    assert Step(s) == StepHead(s);
    u := Step(s).s;
    NeverBad(u, t, k - 1);
    var v := Drop(s, 8);
    LowByte(s.x);
    LowByte(v.x);
    b0, b1 := Low(s.x, 8), Low(v.x, 8);
    GoodHead(b0, b1);
    TakesDrop(s, 8);
    TakesDrop(v, 8);
    DropTwice(s, 8, 8);
    TakesCat(s, BitString(b0, 8), v, BitString(b1, 8), Drop(s, 16));
    BytesFirst([b0, b1]);
    assert [b0, b1][1..] == [b1];
    BytesOne(b1);
    TakesSame(s, BytesOf([b0, b1]), Drop(s, 16), s, u);
  }

  lemma GoodHead(b0: byte, b1: byte)
    requires HeadVerdict(b0, b1).1 == Type
    ensures GoodHeader(b0, b1) && HeadVerdict(b0, b1).0 == 16
  {
  }

  lemma RawSound(s: State, t: State, k: nat) returns (c: BitString)
    requires s.mode == Head && !s.wrap && !s.last && s.out == [] && Held(s) && s.n % 8 == 0 && Goes(s, t, k)
    ensures Takes(s, c, t) && IsRaw(c, t.out)
  {
    hide Pow2, Cat, Pad, AreBlocks;
    StepOn(s, t, k);
    var s1 := Step(s).s;
    var b, n, s2, j := BlocksSound(s1, t, k - 1, 0);
    TakesLen(s1, b, s2);
    Moved(s1.n, b.len, s2.n, 0);
    var pad, s3 := LastSound(s2, t, j, b.len);
    var none := CheckSound(s3, t, j - 1);
    c := Cat(b, pad);
    TakesCat(s1, b, s2, pad, s3);
    TakesCat(s1, c, s3, EMPTY, t);
    CatNothing(c);
    TakesSame(s1, c, t, s, t);
    assert RawIs(c, t.out, b, pad, n);
  }

  lemma CatNothing(c: BitString)
    ensures Cat(c, EMPTY) == c
  {
  }

  lemma ZlibSound(s: State, t: State, k: nat) returns (c: BitString, p: ZlibParts)
    requires s.mode == Head && s.wrap && !s.last && s.out == [] && Held(s) && s.n % 8 == 0 && Goes(s, t, k)
    ensures Takes(s, c, t) && ZlibIs(c, t.out, p)
  {
    hide Pow2, Cat, Pad, AreBlocks, BytesOf, GoodHeader, GoodTrailer;
    var b0, b1, s1 := HeadSound(s, t, k);
    var b, n, s2, j := BlocksSound(s1, t, k - 1, 16);
    TakesLen(s1, b, s2);
    Moved(s1.n, b.len, s2.n, 16);
    var pad, s3 := LastSound(s2, t, j, 16 + b.len);
    var check := CheckSound(s3, t, j - 1);
    p := ZlibParts(b0, b1, b, n, pad, check);
    TakesCat(s2, pad, s3, BytesOf(check), t);
    TakesCat(s1, b, s2, Cat(pad, BytesOf(check)), t);
    TakesCat(s, BytesOf([b0, b1]), s1, Cat(b, Cat(pad, BytesOf(check))), t);
    c := Cat(BytesOf([b0, b1]), Cat(b, Cat(pad, BytesOf(check))));
  }

  /** A stream that ends well is one of the format: exactly the bits taken, and the output they stand
      for. */
  lemma AcceptedIsStream(s: State, t: State)
    requires s.mode == Head && !s.last && s.out == [] && Held(s) && s.n % 8 == 0 && Leads(s, t) && t.mode == Done
    ensures exists c :: Takes(s, c, t) && IsStream(c, s.wrap, t.out)
  {
    hide Takes, IsRaw;
    var k: nat :| Run(s, k) == Next(t);
    if s.wrap {
      var c, p := ZlibSound(s, t, k);
      assert IsStream(c, s.wrap, t.out);
    } else {
      var c := RawSound(s, t, k);
    }
  }
}
