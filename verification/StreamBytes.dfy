/** inflate.c on the bytes of a stream, cut into chunks in any way: which bytes it takes, and that
    a trailer that does not fit is found out. */
module StreamBytes {
  import opened Bits
  import opened BitWriter
  import opened InflateTable
  import opened InflateSpec
  import opened InflateChunks
  import opened BlockReads
  import opened Format
  import opened Accepted
  import opened AcceptedStream
  import opened AllBlocks
  import opened AllStreams
  import opened Compress
  import opened WholeStream
  import Adler
  import Inflate

  // ---- Bits and bytes ----

  lemma CatSame(a: BitString, b: BitString, c: BitString, d: BitString)
    requires Cat(a, b) == Cat(c, d) && a.Valid() && c.Valid() && a.len == c.len
    ensures a == c && b == d
  {
    Unpack(a.val, b.val, a.len);
    Unpack(c.val, d.val, c.len);
  }

  lemma {:induction false} BytesSame(p: seq<byte>, q: seq<byte>)
    requires BytesOf(p) == BytesOf(q)
    ensures p == q
    decreases |p|
  {
    hide Cat, Pow2;
    BytesValid(p);
    BytesValid(q);
    if p != [] {
      var k := |p| - 1;
      BytesValid(p[..k]);
      BytesValid(q[..k]);
      CatSame(BytesOf(p[..k]), BitString(p[k], 8), BytesOf(q[..k]), BitString(q[k], 8));
      BytesSame(p[..k], q[..k]);
    }
  }

  /** Where bits that are whole bytes end among bytes. */
  lemma PrefixBytes(bytes: seq<byte>, c: BitString, rest: BitString) returns (k: nat)
    requires BytesOf(bytes) == Cat(c, rest) && c.Valid() && c.len % 8 == 0
    ensures k <= |bytes| && c == BytesOf(bytes[..k]) && rest == BytesOf(bytes[k..]) && rest.len == 8 * (|bytes| - k)
  {
    hide Cat, Pow2, BytesOf;
    k := c.len / 8;
    CatLen(c, rest);
    BytesValid(bytes);
    BytesValid(bytes[..k]);
    BytesValid(bytes[k..]);
    BytesCat(bytes[..k], bytes[k..]);
    assert bytes[..k] + bytes[k..] == bytes;
    CatSame(c, rest, BytesOf(bytes[..k]), BytesOf(bytes[k..]));
  }

  /** Streams are whole bytes. */
  lemma StreamWhole(c: BitString, wrap: bool, out: seq<byte>)
    requires IsStream(c, wrap, out)
    ensures c.Valid() && c.len % 8 == 0
  {
    hide AreBlocks, Cat, Pow2, BytesOf, ZlibIs, Front, GoodTrailer, Pad;
    if wrap {
      var p :| ZlibIs(c, out, p);
      ZlibParted(c, out, p);
      FrontValid(c, out, p);
      BytesValid(p.check);
      CatValid(Front(p), BytesOf(p.check));
      CatLen(Front(p), BytesOf(p.check));
    } else {
      var b, pad, n :| RawIs(c, out, b, pad, n);
      BlocksGrow(b, 0, [], out, n);
      CatValid(b, pad);
      CatLen(b, pad);
      PadFills(b.len);
    }
  }

  /** The trailer of a stream that is these bytes. */
  lemma TrailerBytes(bytes: seq<byte>, out: seq<byte>) returns (p: ZlibParts)
    requires IsStream(BytesOf(bytes), true, out)
    ensures ZlibIs(BytesOf(bytes), out, p) && |bytes| >= 4 && BytesOf(bytes[..|bytes| - 4]) == Front(p)
    ensures GoodTrailer(bytes[|bytes| - 4..], out) && p.check == bytes[|bytes| - 4..]
  {
    hide Cat, Pow2, BytesOf, ZlibIs, Front, GoodTrailer;
    p :| ZlibIs(BytesOf(bytes), out, p);
    ZlibParted(BytesOf(bytes), out, p);
    FrontValid(BytesOf(bytes), out, p);
    var k := PrefixBytes(bytes, Front(p), BytesOf(p.check));
    BytesValid(p.check);
    BytesSame(p.check, bytes[k..]);
  }

  // ---- What inflate takes ----

  lemma BeginsWhole(wrap: bool, chunks: seq<Chunk>, t: State) returns (s: State)
    requires Drives(Inflate.NotBegun(wrap), chunks, t) && chunks != []
    ensures s == Whole(wrap, AllBytes(chunks), AllRoom(chunks)) && Leads(s, t) && Step(t) == Wait && s.limited
    ensures s.mode == Head && s.wrap == wrap && !s.last && s.out == [] && s.room == AllRoom(chunks) && Held(s)
    ensures BitString(s.x, s.n) == BytesOf(AllBytes(chunks)) && s.n == 8 * |AllBytes(chunks)|
  {
    hide Step, Leads, Drives, AllBytes, AllRoom, Feed, BytesOf, Pow2;
    s := Whole(wrap, AllBytes(chunks), AllRoom(chunks));
    Inflate.Beginning(wrap, 0);
    DrivesAtOnce(Inflate.NotBegun(wrap), chunks, t);
    WholeIs(wrap, AllBytes(chunks), AllRoom(chunks));
    BytesValid(AllBytes(chunks));
  }

  /** Inflate that ends well has taken a stream of the format, and nothing after it: with a zlib
      header the last four bytes taken, high byte first, are the Adler-32 checksum of the output. */
  lemma DoneIsStream(wrap: bool, chunks: seq<Chunk>, t: State) returns (k: nat)
    requires Drives(Inflate.NotBegun(wrap), chunks, t) && t.mode == Done
    ensures var bytes := AllBytes(chunks);
      && k <= |bytes| && t.n == 8 * (|bytes| - k) && IsStream(BytesOf(bytes[..k]), wrap, t.out)
      && (wrap ==> k >= 4 && BigEndian(bytes[k - 4], bytes[k - 3], bytes[k - 2], bytes[k - 1]) == Adler.Checksum(t.out))
  {
    hide Leads, Step, AllBytes, AllRoom, BytesOf, Pow2, Cat, IsStream, Whole, BigEndian, Adler.Checksum;
    var bytes := AllBytes(chunks);
    var s := BeginsWhole(wrap, chunks, t);
    AcceptedIsStream(s, t);
    var c :| Takes(s, c, t) && IsStream(c, wrap, t.out);
    StreamWhole(c, wrap, t.out);
    k := PrefixBytes(bytes, c, BitString(t.x, t.n));
    if wrap {
      var p := TrailerBytes(bytes[..k], t.out);
    }
  }

  /** The bytes start with a stream that stands for out. */
  ghost predicate StartsWith(bytes: seq<byte>, wrap: bool, out: seq<byte>) {
    exists k :: 0 <= k <= |bytes| && IsStream(BytesOf(bytes[..k]), wrap, out)
  }

  /** Inflate ends well with this output exactly if the bytes start with a stream of the format that
      stands for it and no block in it takes more table entries than there are. */
  lemma DoneIff(wrap: bool, chunks: seq<Chunk>, t: State, out: seq<byte>)
    requires Drives(Inflate.NotBegun(wrap), chunks, t) && chunks != [] && AllRoom(chunks) >= |out|
    ensures t.mode == Done && t.out == out <==>
      StartsWith(AllBytes(chunks), wrap, out) && !MeetsLarge(Whole(wrap, AllBytes(chunks), AllRoom(chunks)))
  {
    hide Leads, Step, Drives, AllBytes, AllRoom, BytesOf, Pow2, Cat, IsStream, Whole, BigEndian, Adler.Checksum,
      MeetsLarge;
    var bytes := AllBytes(chunks);
    var s := BeginsWhole(wrap, chunks, t);
    if t.mode == Done && t.out == out {
      var k := DoneIsStream(wrap, chunks, t);
      if MeetsLarge(s) {
        LargeEnd(s, t);
      }
    }
    if StartsWith(bytes, wrap, out) && !MeetsLarge(s) {
      var k :| 0 <= k <= |bytes| && IsStream(BytesOf(bytes[..k]), wrap, out);
      var v := PrefixTaken(s, bytes, k, out);
      LimitedEnd(s, v, t);
    }
  }

  lemma PrefixTaken(s: State, bytes: seq<byte>, k: nat, out: seq<byte>) returns (v: State)
    requires s.mode == Head && !s.last && s.out == [] && |out| <= s.room && BitString(s.x, s.n) == BytesOf(bytes)
    requires k <= |bytes| && IsStream(BytesOf(bytes[..k]), s.wrap, out)
    ensures Leads(Unlimited(s), v) && v.mode == Done && v.out == out
  {
    hide Leads, BytesOf, Pow2, Cat, IsStream;
    BytesCat(bytes[..k], bytes[k..]);
    assert bytes[..k] + bytes[k..] == bytes;
    BytesValid(bytes);
    BytesValid(bytes[..k]);
    v := StreamTaken(Unlimited(s), BytesOf(bytes[..k]), out, BytesOf(bytes[k..]));
  }

  // ---- What deflate writes ----

  /** The bytes deflate writes are a stream of the format, whoever reads them. */
  lemma CompressedIsStream(bytes: seq<byte>, wrap: bool, data: seq<byte>)
    requires InflatesTo(bytes, wrap, data)
    ensures IsStream(BytesOf(bytes), wrap, data)
  {
    hide Leads, BytesOf, Pow2, Cat, IsStream;
    WholeIs(wrap, bytes, |data|);
    BytesValid(bytes);
    var s := Unlimited(Whole(wrap, bytes, |data|));
    assert FromStart(s, bytes, wrap, |data|);
    var t :| Leads(s, t) && t.mode == Done && t.out == data && t.n == 0;
    AcceptedIsStream(s, t);
    var c :| Takes(s, c, t) && IsStream(c, wrap, t.out);
    TakesAll(s, c, t);
  }

  lemma TakesAll(s: State, c: BitString, t: State)
    requires Takes(s, c, t) && t.n == 0
    ensures c == BitString(s.x, s.n)
  {
    CatEmpty(c);
  }

  /** With its trailer altered in any way, what deflate wrote is refused. */
  lemma AlteredTrailer(bytes: seq<byte>, data: seq<byte>, altered: seq<byte>, chunks: seq<Chunk>, t: State)
    requires InflatesTo(bytes, true, data) && |altered| == |bytes| && altered != bytes
    requires forall i :: 0 <= i < |bytes| - 4 ==> altered[i] == bytes[i]
    requires chunks != [] && AllBytes(chunks) == altered && AllRoom(chunks) >= |data|
    requires Drives(Inflate.NotBegun(true), chunks, t)
    ensures t.mode == Bad
  {
    hide Leads, Step, Drives, AllBytes, AllRoom, BytesOf, Pow2, Cat, IsStream, Whole, MeetsLarge, ZlibIs, Front,
      GoodTrailer, InflatesTo;
    CompressedIsStream(bytes, true, data);
    var p := TrailerBytes(bytes, data);
    var k := |bytes| - 4;
    var check := altered[k..];
    assert altered[..k] == bytes[..k];
    assert altered[..k] + check == altered && bytes[..k] + bytes[k..] == bytes;
    BytesCat(altered[..k], check);
    BytesValid(altered);
    CatEmpty(BytesOf(altered));
    if GoodTrailer(check, data) {
      OneTrailer(check, p.check, data);
    }
    var s := BeginsWhole(true, chunks, t);
    var v := ZlibTaken(Unlimited(s), BytesOf(bytes), data, p, check, EMPTY);
    LimitedEnd(s, v, t);
  }

  /** There is one trailer for an output. */
  lemma OneTrailer(a: seq<byte>, b: seq<byte>, out: seq<byte>)
    requires GoodTrailer(a, out) && GoodTrailer(b, out)
    ensures a == b
  {
    hide Adler.Checksum, BigEndian;
    SameBytes(a[0], a[1], a[2], a[3], b[0], b[1], b[2], b[3]);
    assert a == [a[0], a[1], a[2], a[3]] == b;
  }

  lemma SameBytes(a: byte, b: byte, c: byte, d: byte, e: byte, f: byte, g: byte, h: byte)
    requires BigEndian(a, b, c, d) == BigEndian(e, f, g, h)
    ensures a == e && b == f && c == g && d == h
  {
    SamePair((a * 256 + b) * 256 + c, d, (e * 256 + f) * 256 + g, h);
    SamePair(a * 256 + b, c, e * 256 + f, g);
    SamePair(a, b, e, f);
  }

  lemma SamePair(x: nat, b: nat, y: nat, c: nat)
    requires b < 256 && c < 256 && x * 256 + b == y * 256 + c
    ensures x == y && b == c
  {
  }
}
