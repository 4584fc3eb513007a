/** inflate.c: the streams that inflate ends well are those of the format, no more and no fewer. */
module AllStreams {
  import opened Bits
  import opened InflateTable
  import opened BitWriter
  import opened InflateSpec
  import opened HeaderDecode
  import opened BlockReads
  import opened Format
  import opened Accepted
  import opened AcceptedStream
  import opened AllBlocks
  import Adler
  import RoundTrip

  // ---- What is around the blocks ----

  /** The end of the last block: fill up to a byte. */
  lemma LastTaken(s: State, pad: BitString, start: nat, rest: BitString)
    requires s.mode == Type && s.last && pad.Valid() && pad.len == Pad(start) && Starts(s, pad, rest)
    requires (s.n + start) % 8 == 0
    ensures Step(s) == Next(At(s, rest).(mode := Check))
  {
    hide Low, Shr, Cat, Pow2, Pad;
    PadIs(s.n, start);
    ReadBits(s, pad, rest);
    assert Step(s) == StepType(s);
  }

  lemma HeadTaken(s: State, b0: byte, b1: byte, rest: BitString)
    requires s.mode == Head && s.wrap && GoodHeader(b0, b1) && Starts(s, BytesOf([b0, b1]), rest)
    ensures Step(s) == Next(At(s, rest).(mode := Type))
  {
    AcceptedStream.BytesTwo(b0, b1);
    hide Low, Shr, Cat, Pow2, BytesOf;
    ReadBits(s, BytesOf([b0, b1]), rest);
    RoundTrip.TwoBytes(s.x, b0, b1);
    assert Step(s) == StepHead(s);
  }

  /** The four bytes of a trailer, read as inflate reads them. */
  lemma FourRead(s: State, b: seq<byte>, rest: BitString)
    requires |b| == 4 && Starts(s, BytesOf(b), rest)
    ensures s.n >= 32 && Swap32(Low(s.x, 32)) == BigEndian(b[0], b[1], b[2], b[3]) && Drop(s, 32) == At(s, rest)
  {
    hide Low, Shr, Cat, Pow2, Swap32;
    BytesFour(b[0], b[1], b[2], b[3]);
    assert b == [b[0], b[1], b[2], b[3]];
    hide BytesOf;
    ReadBits(s, BytesOf(b), rest);
    SwapBytes(b[0], b[1], b[2], b[3]);
  }

  lemma SwapBytes(a: nat, b: nat, c: nat, d: nat)
    requires a < 256 && b < 256 && c < 256 && d < 256
    ensures Swap32(a + 256 * (b + 256 * (c + 256 * d))) == BigEndian(a, b, c, d)
  {
    hide Swap32;
    RoundTrip.SwapParts(a, b, c, d);
    assert a + 256 * (b + 256 * (c + 256 * d)) == a + 256 * b + 0x1_0000 * c + 0x100_0000 * d;
  }

  /** Four bytes that are the checksum end the stream well, any others do not. */
  lemma TrailerTaken(s: State, b: seq<byte>, rest: BitString) returns (t: State)
    requires s.mode == Check && s.wrap && |b| == 4 && Starts(s, BytesOf(b), rest)
    ensures Leads(s, t) && t.out == s.out
    ensures if GoodTrailer(b, s.out) then t.mode == Done && t.x == rest.val && t.n == rest.len else t.mode == Bad
  {
    hide Low, Shr, Cat, Pow2, Swap32, BytesOf, Adler.Checksum, BigEndian, Leads;
    FourRead(s, b, rest);
    assert Step(s) == StepCheck(s);
    t := Step(s).s;
    LeadsSelf(t);
    LeadsStep(s, t, t);
  }

  /** The blocks and what fills them up to a byte. */
  lemma EndTaken(s: State, b: BitString, n: nat, pad: BitString, start: nat, out: seq<byte>, rest: BitString)
      returns (t: State)
    requires s.mode == Type && !s.last && !s.limited && s.out == [] && (s.n + start) % 8 == 0 && |out| <= s.room
    requires AreBlocks(b, start, [], out, n) && pad.Valid() && pad.len == Pad(start + b.len)
    requires Starts(s, Cat(b, pad), rest)
    ensures Leads(s, t) && t.mode == Check && Took(s, t, out, rest)
  {
    hide Cat, Pow2, AreBlocks, Leads, Pad, Step;
    BlocksGrow(b, start, [], out, n);
    Split(s, b, pad, rest);
    var u := BlocksTaken(s, b, start, out, n, Cat(pad, rest));
    CatLen(b, Cat(pad, rest));
    LastTaken(u, pad, start + b.len, rest);
    t := At(u, rest).(mode := Check);
    LeadsSelf(t);
    LeadsStep(u, t, t);
    LeadsTrans(s, u, t);
  }

  lemma RawTaken(s: State, c: BitString, out: seq<byte>, rest: BitString) returns (t: State)
    requires s.mode == Head && !s.wrap && !s.limited && !s.last && s.out == [] && s.n % 8 == 0 && |out| <= s.room
    requires IsRaw(c, out) && Starts(s, c, rest)
    ensures Leads(s, t) && t.mode == Done && t.out == out && t.x == rest.val && t.n == rest.len
  {
    hide Cat, Pow2, AreBlocks, Leads, Pad;
    var b, pad, n :| RawIs(c, out, b, pad, n);
    var u := s.(mode := Type);
    var v := EndTaken(u, b, n, pad, 0, out, rest);
    t := v.(mode := Done);
    assert Step(s) == Next(u);
    assert Step(v) == Next(t);
    LeadsSelf(t);
    LeadsStep(v, t, t);
    LeadsTrans(u, v, t);
    LeadsStep(s, u, t);
  }

  /** All of a zlib stream but its trailer. */
  function Front(p: ZlibParts): BitString {
    Cat(BytesOf([p.b0, p.b1]), Cat(p.blocks, p.pad))
  }

  lemma FrontThen(p: ZlibParts, check: BitString)
    ensures Cat(Front(p), check) == Cat(BytesOf([p.b0, p.b1]), Cat(p.blocks, Cat(p.pad, check)))
  {
    hide Cat, BytesOf;
    CatAssoc(BytesOf([p.b0, p.b1]), Cat(p.blocks, p.pad), check);
    CatAssoc(p.blocks, p.pad, check);
  }

  lemma FrontValid(c: BitString, out: seq<byte>, p: ZlibParts)
    requires ZlibIs(c, out, p)
    ensures BytesOf([p.b0, p.b1]).Valid() && Cat(p.blocks, p.pad).Valid() && Front(p).Valid() && Front(p).len % 8 == 0
    ensures Front(p).len == 16 + Cat(p.blocks, p.pad).len
  {
    hide Cat, BytesOf, AreBlocks, GoodHeader, GoodTrailer, Pow2;
    BytesValid([p.b0, p.b1]);
    BlocksGrow(p.blocks, 16, [], out, p.n);
    CatValid(p.blocks, p.pad);
    CatLen(p.blocks, p.pad);
    CatValid(BytesOf([p.b0, p.b1]), Cat(p.blocks, p.pad));
    CatLen(BytesOf([p.b0, p.b1]), Cat(p.blocks, p.pad));
    PadFills(16 + p.blocks.len);
  }

  lemma ZlibParted(c: BitString, out: seq<byte>, p: ZlibParts)
    requires ZlibIs(c, out, p)
    ensures c == Cat(Front(p), BytesOf(p.check)) && GoodTrailer(p.check, out) && |p.check| == 4
  {
    hide Cat, BytesOf, AreBlocks, GoodHeader, Front;
    FrontThen(p, BytesOf(p.check));
  }

  /** Up to the trailer. */
  lemma FrontTaken(s: State, c: BitString, out: seq<byte>, p: ZlibParts, rest: BitString) returns (t: State)
    requires s.mode == Head && s.wrap && !s.limited && !s.last && s.out == [] && s.n % 8 == 0 && |out| <= s.room
    requires ZlibIs(c, out, p) && Starts(s, Front(p), rest)
    ensures Leads(s, t) && t.mode == Check && t.wrap && t.out == out && t.x == rest.val && t.n == rest.len
  {
    hide Cat, Pow2, AreBlocks, Leads, Pad, Step, BytesOf, GoodTrailer, GoodHeader;
    FrontValid(c, out, p);
    var b := Cat(p.blocks, p.pad);
    StartsSplit(s, BytesOf([p.b0, p.b1]), b, rest);
    HeadTaken(s, p.b0, p.b1, Cat(b, rest));
    var u := At(s, Cat(b, rest)).(mode := Type);
    BytesValid([p.b0, p.b1]);
    CatLen(BytesOf([p.b0, p.b1]), Cat(b, rest));
    t := EndTaken(u, p.blocks, p.n, p.pad, 16, out, rest);
    LeadsStep(s, u, t);
  }

  /** A zlib stream with any four bytes in place of its trailer. */
  lemma ZlibTaken(s: State, c: BitString, out: seq<byte>, p: ZlibParts, check: seq<byte>, rest: BitString)
      returns (t: State)
    requires s.mode == Head && s.wrap && !s.limited && !s.last && s.out == [] && s.n % 8 == 0 && |out| <= s.room
    requires ZlibIs(c, out, p) && |check| == 4 && Starts(s, Cat(Front(p), BytesOf(check)), rest)
    ensures Leads(s, t) && t.out == out
    ensures if GoodTrailer(check, out) then t.mode == Done && t.x == rest.val && t.n == rest.len else t.mode == Bad
  {
    hide Cat, Pow2, Leads, Step, BytesOf, GoodTrailer, Front, ZlibIs;
    FrontValid(c, out, p);
    BytesValid(check);
    StartsSplit(s, Front(p), BytesOf(check), rest);
    var u := FrontTaken(s, c, out, p, Cat(BytesOf(check), rest));
    t := TrailerTaken(u, check, rest);
    LeadsTrans(s, u, t);
  }

  /** Every stream of the format is taken, whatever follows it, and gives its output. */
  lemma StreamTaken(s: State, c: BitString, out: seq<byte>, rest: BitString) returns (t: State)
    requires s.mode == Head && !s.limited && !s.last && s.out == [] && s.n % 8 == 0 && |out| <= s.room
    requires IsStream(c, s.wrap, out) && Starts(s, c, rest)
    ensures Leads(s, t) && t.mode == Done && t.out == out && t.x == rest.val && t.n == rest.len
  {
    hide Leads, Cat, BytesOf, Front, IsRaw, ZlibIs, GoodTrailer;
    if s.wrap {
      var p :| ZlibIs(c, out, p);
      ZlibParted(c, out, p);
      t := ZlibTaken(s, c, out, p, p.check, rest);
    } else {
      t := RawTaken(s, c, out, rest);
    }
  }

  /** The stream starts with one of the format that stands for out. */
  ghost predicate Opens(s: State, out: seq<byte>) {
    exists c, rest :: Starts(s, c, rest) && IsStream(c, s.wrap, out)
  }

  /** Inflate ends well with this output exactly if the input starts with a stream of the format
      that stands for it. */
  lemma DoneExactly(s: State, out: seq<byte>)
    requires s.mode == Head && !s.limited && !s.last && s.out == [] && Held(s) && s.n % 8 == 0 && |out| <= s.room
    ensures (exists t :: Leads(s, t) && t.mode == Done && t.out == out) <==> Opens(s, out)
  {
    hide Leads, IsStream, Cat, Pow2, Held;
    if Opens(s, out) {
      var c, rest :| Starts(s, c, rest) && IsStream(c, s.wrap, out);
      var t := StreamTaken(s, c, out, rest);
    }
    if t :| Leads(s, t) && t.mode == Done && t.out == out {
      AcceptedIsStream(s, t);
      var c :| Takes(s, c, t) && IsStream(c, s.wrap, t.out);
      assert Starts(s, c, BitString(t.x, t.n));
    }
  }
}
