/** Whole streams: what deflate writes, inflate reads back. */
module RoundTrip {
  import opened Bits
  import opened BitWriter
  import opened InflateSpec
  import opened HeaderDecode
  import opened BlockDecode
  import opened BlockReads
  import opened Lz77
  import Adler

  /** A block as it was written: its bits, and the items they read as. */
  datatype Block = Block(bits: BitString, items: seq<Item>)

  ghost function BitsOf(blocks: seq<Block>): BitString {
    if blocks == [] then EMPTY else Cat(BitsOf(blocks[..|blocks| - 1]), blocks[|blocks| - 1].bits)
  }

  ghost function ItemsOf(blocks: seq<Block>): seq<Item> {
    if blocks == [] then [] else ItemsOf(blocks[..|blocks| - 1]) + blocks[|blocks| - 1].items
  }

  /** Blocks written one after the other, from bit `start` on, the last one marked. */
  ghost predicate Written(blocks: seq<Block>, start: nat, last: bool)
    decreases |blocks|
  {
    blocks == [] ||
    (Written(blocks[..|blocks| - 1], start, false) &&
     Reads(blocks[|blocks| - 1].bits, start + BitsOf(blocks[..|blocks| - 1]).len, blocks[|blocks| - 1].items, last))
  }

  /** All blocks together read as all items. */
  lemma {:induction false} BlocksRead(blocks: seq<Block>, start: nat, last: bool)
    requires Written(blocks, start, last) && (last ==> blocks != [])
    ensures Reads(BitsOf(blocks), start, ItemsOf(blocks), last)
    decreases |blocks|
  {
    hide Reads;
    if blocks == [] {
      ReadsNothing(start);
    } else {
      var k := |blocks| - 1;
      BlocksRead(blocks[..k], start, false);
      ReadsCat(BitsOf(blocks[..k]), blocks[k].bits, start, ItemsOf(blocks[..k]), blocks[k].items, last);
    }
  }

  // ---- Which items a block may stand for ----

  /** The symbols tallied since an earlier point rebuild what was read since. */
  lemma SinceThen(before: seq<Item>, since: seq<Item>, data: seq<byte>, a: nat, b: nat)
    requires Tallied(before, data, a) && Tallied(before + since, data, b)
    ensures Fits(data[..a], since) && Expand(data[..a], since) == data[..b]
  {
    ExpandCat([], before, since);
  }

  /** The blocks rebuild the first b bytes. A block that was stored counts as its bytes,
      since these are what its symbols stand for. */
  lemma NextBlock(items: seq<Item>, more: seq<Item>, data: seq<byte>, a: nat, b: nat)
    requires a <= b <= |data| && Fits([], items) && Expand([], items) == data[..a]
    requires more == Literals(data[a..b]) || (Fits(data[..a], more) && Expand(data[..a], more) == data[..b])
    ensures Fits([], items + more) && Expand([], items + more) == data[..b]
  {
    ExpandCat([], items, more);
    ExpandLiterals(data[..a], data[a..b]);
    assert data[..a] + data[a..b] == data[..b];
    hide Fits, Expand, Literals;
  }

  // ---- The stream around the blocks ----

  /** From the first block to the state before the trailer is checked. */
  lemma BlocksRun(s: State, blocks: seq<Block>, data: seq<byte>, start: nat, tail: BitString) returns (t: State)
    requires s.mode == Type && !s.last && !s.limited && s.out == [] && s.room >= |data| && (s.n + start) % 8 == 0
    requires blocks != [] && Written(blocks, start, true)
    requires Fits([], ItemsOf(blocks)) && Expand([], ItemsOf(blocks)) == data
    requires BitString(s.x, s.n) == Cat(BitsOf(blocks), tail)
    ensures Leads(s, t) && t.mode == Type && t.last && t.wrap == s.wrap && t.out == data && t.x == tail.val
    ensures t.n == tail.len
  {
    hide Written, BitsOf, ItemsOf, Leads, Expand, Fits, Cat, Reads;
    BlocksRead(blocks, start, true);
    t := ReadNow(s, BitsOf(blocks), start, ItemsOf(blocks), true, tail);
  }

  /** Using that bits read as items. */
  lemma ReadNow(s: State, bits: BitString, start: nat, items: seq<Item>, last: bool, rest: BitString) returns (t: State)
    requires Reads(bits, start, items, last) && Fits(s.out, items) && |Expand(s.out, items)| - |s.out| <= s.room
    requires s.mode == Type && !s.last && !s.limited && (s.n + start) % 8 == 0 && BitString(s.x, s.n) == Cat(bits, rest)
    ensures Leads(s, t) && HasRead(s, t, items, last, rest)
  {
    hide Leads, Expand, Fits, Cat, HasRead;
    assert Ready(s, bits, start, items, rest);
    t :| Leads(s, t) && HasRead(s, t, items, last, rest);
  }

  /** A raw stream: the blocks, filled up to a byte. Inflate ends with the data and no bit left. */
  lemma RawRoundTrip(s: State, blocks: seq<Block>, data: seq<byte>)
    requires s.mode == Head && !s.wrap && !s.limited && !s.last && s.out == [] && s.room >= |data|
    requires blocks != [] && Written(blocks, 0, true)
    requires Fits([], ItemsOf(blocks)) && Expand([], ItemsOf(blocks)) == data
    requires BitString(s.x, s.n) == Cat(BitsOf(blocks), BitString(0, Pad(BitsOf(blocks).len)))
    ensures exists t :: Leads(s, t) && t.mode == Done && t.out == data && t.n == 0
  {
    var b := BitsOf(blocks);
    hide Written, BitsOf, ItemsOf, Leads, Expand, Fits;
    var u := s.(mode := Type);
    assert Step(s) == Next(u);
    PadTotal(b.len);
    var t := BlocksRun(u, blocks, data, 0, BitString(0, Pad(b.len)));
    StreamEnds(t, t.n % 8);
    var v :| Leads(t, v) && v.mode == Done && v.out == t.out && v.n == t.n - t.n % 8;
    LeadsTrans(u, t, v);
    LeadsStep(s, u, v);
  }

  lemma PadTotal(n: nat)
    ensures (n + Pad(n)) % 8 == 0 && Pad(n) < 8
  {
  }

  // ---- The zlib wrapper (section 2.2 of RFC 1950) ----

  /** deflate's header: method and window size, level, and a check that makes the two bytes
      a multiple of 31. */
  function ZlibHeader(wbits: nat, levelFlags: nat): nat
    requires 8 <= wbits <= 15 && levelFlags < 4
  {
    var header := (8 + (wbits - 8) * 16) * 256 + levelFlags * 64;
    header + (31 - header % 31)
  }

  /** putShortMSB, as bits: the high byte first. */
  function ShortMSB(v: nat): BitString {
    BitString(v / 256 + 256 * (v % 256), 16)
  }

  lemma HeaderFacts(wbits: nat, levelFlags: nat)
    requires 8 <= wbits <= 15 && levelFlags < 4
    ensures var h := ZlibHeader(wbits, levelFlags);
      h < 0x1_0000 && h % 31 == 0 && h / 256 % 16 == 8 && h / 256 / 16 + 8 == wbits && h % 256 / 32 % 2 == 0
  {
    var high: nat, header: nat := 8 + (wbits - 8) * 16, (8 + (wbits - 8) * 16) * 256 + levelFlags * 64;
    var low := levelFlags * 64 + (31 - header % 31);
    assert ZlibHeader(wbits, levelFlags) == high * 256 + low;
    Multiple31(header);
    TopAndLow(high, low);
    MethodAndSize(wbits - 8);
    NoDictionary(levelFlags, 31 - header % 31);
    hide ZlibHeader;
  }

  lemma MethodAndSize(n: nat)
    ensures (8 + n * 16) % 16 == 8 && (8 + n * 16) / 16 == n
  {
  }

  lemma NoDictionary(levelFlags: nat, r: nat)
    requires r < 32
    ensures (levelFlags * 64 + r) / 32 % 2 == 0
  {
    assert (levelFlags * 64 + r) / 32 == 2 * levelFlags;
  }

  lemma Multiple31(h: nat)
    ensures (h + (31 - h % 31)) % 31 == 0
  {
  }

  lemma TopAndLow(high: nat, low: nat)
    requires low < 256
    ensures (high * 256 + low) / 256 == high && (high * 256 + low) % 256 == low
  {
  }

  lemma HeaderStep(s: State, wbits: nat, levelFlags: nat, rest: BitString)
    requires s.mode == Head && s.wrap && 8 <= wbits <= 15 && levelFlags < 4
    requires Starts(s, ShortMSB(ZlibHeader(wbits, levelFlags)), rest)
    ensures Step(s) == Next(At(s, rest).(mode := Type))
  {
    var h := ZlibHeader(wbits, levelFlags);
    HeaderFacts(wbits, levelFlags);
    ReadBits(s, ShortMSB(h), rest);
    TwoBytes(s.x, h / 256, h % 256);
    hide Low, Shr, Cat, Pow2, ZlibHeader;
    assert h / 256 * 256 + h % 256 == h;
    assert Step(s) == StepHead(s);
  }

  lemma TwoBytes(x: nat, a: nat, b: nat)
    requires a < 256 && b < 256 && Low(x, 16) == a + 256 * b
    ensures Low(x, 8) == a && Low(Shr(x, 8), 8) == b
  {
    hide Low, Shr, Pow2;
    Powers();
    LowLow(x, 8, 16);
    ShrLow(x, 8, 8);
    Unpack(a, b, 8);
  }

  /** The trailer: the checksum, high byte first. */
  function Trailer(check: nat): nat {
    Swap32(check)
  }

  lemma SwapTwice(v: nat)
    requires v < 0x1_0000_0000
    ensures Swap32(v) < 0x1_0000_0000 && Swap32(Swap32(v)) == v
  {
    hide Swap32;
    var a, b, c, d := v % 256, v / 256 % 256, v / 0x1_0000 % 256, v / 0x100_0000;
    Bytes4(v);
    SwapParts(a, b, c, d);
    SwapParts(d, c, b, a);
  }

  lemma Bytes4(v: nat)
    requires v < 0x1_0000_0000
    ensures v == v % 256 + 256 * (v / 256 % 256) + 0x1_0000 * (v / 0x1_0000 % 256) + 0x100_0000 * (v / 0x100_0000)
    ensures v / 0x100_0000 < 256
  {
    var x, y, z := v / 256, v / 0x1_0000, v / 0x100_0000;
    assert y == x / 256 && z == y / 256;
  }

  lemma SwapParts(a: nat, b: nat, c: nat, d: nat)
    requires a < 256 && b < 256 && c < 256 && d < 256
    ensures Swap32(a + 256 * b + 0x1_0000 * c + 0x100_0000 * d) == d + 256 * c + 0x1_0000 * b + 0x100_0000 * a
  {
    var v := a + 256 * b + 0x1_0000 * c + 0x100_0000 * d;
    assert v % 256 == a && v / 256 == b + 256 * (c + 256 * d);
    assert v / 0x1_0000 == c + 256 * d;
    assert v / 0x100_0000 == d;
    assert (b + 256 * (c + 256 * d)) % 256 == b;
    assert (c + 256 * d) % 256 == c;
  }

  lemma ChecksumBound(data: seq<byte>)
    ensures Adler.Checksum(data) < 0x1_0000_0000
  {
  }

  /** Padding and trailer after the last block. */
  lemma TrailerRun(s: State, pad: nat, data: seq<byte>) returns (t: State)
    requires s.mode == Type && s.last && s.wrap && s.out == data && pad < 8
    requires BitString(s.x, s.n) == Cat(BitString(0, pad), BitString(Trailer(Adler.Checksum(data)), 32))
    ensures Leads(s, t) && t.mode == Done && t.out == data && t.n == 0
  {
    hide Low, Shr, Cat, Pow2, Swap32, Leads;
    var c := Adler.Checksum(data);
    var trailer := BitString(Trailer(c), 32);
    CatLen(BitString(0, pad), trailer);
    ZerosValid(pad);
    ReadBits(s, BitString(0, pad), trailer);
    assert s.n % 8 == pad;
    var u := At(s, trailer).(mode := Check);
    assert Step(s) == StepType(s) == Next(u);
    t := CheckStep(u, data);
    LeadsSelf(t);
    LeadsStep(u, t, t);
    LeadsStep(s, u, t);
  }

  lemma CheckStep(u: State, data: seq<byte>) returns (t: State)
    requires u.mode == Check && u.wrap && u.out == data
    requires u.x == Trailer(Adler.Checksum(data)) && u.n == 32
    ensures Step(u) == Next(t) && t.mode == Done && t.out == data && t.n == 0
  {
    hide Low, Shr, Cat, Pow2, Swap32, Adler.Checksum;
    var c := Adler.Checksum(data);
    ChecksumBound(data);
    SwapTwice(c);
    PowOf32();
    LowSmall(u.x, 32);
    t := Drop(u, 32).(mode := Done);
    assert Step(u) == StepCheck(u);
  }

  lemma PowOf32()
    ensures Pow2(32) == 0x1_0000_0000
  {
    Powers();
    Pow2Add(16, 16);
  }

  /** A zlib stream: header, blocks, padding and the Adler-32 checksum. Inflate accepts it
      and ends with the data and no bit left. */
  lemma ZlibRoundTrip(s: State, wbits: nat, levelFlags: nat, blocks: seq<Block>, data: seq<byte>)
    requires s.mode == Head && s.wrap && !s.limited && !s.last && s.out == [] && s.room >= |data| && 8 <= wbits <= 15
    requires levelFlags < 4
    requires blocks != [] && Written(blocks, 16, true)
    requires Fits([], ItemsOf(blocks)) && Expand([], ItemsOf(blocks)) == data
    requires BitString(s.x, s.n) == Cat(ShortMSB(ZlibHeader(wbits, levelFlags)), Cat(BitsOf(blocks),
      Cat(BitString(0, Pad(BitsOf(blocks).len)), BitString(Trailer(Adler.Checksum(data)), 32))))
    ensures exists t :: Leads(s, t) && t.mode == Done && t.out == data && t.n == 0
  {
    hide Written, BitsOf, ItemsOf, Leads, Expand, Fits, Step, Cat, ZlibHeader, Pad, Pow2, Adler.Checksum, Trailer,
      ShortMSB;
    var h, b := ShortMSB(ZlibHeader(wbits, levelFlags)), BitsOf(blocks);
    var tail := Cat(BitString(0, Pad(b.len)), BitString(Trailer(Adler.Checksum(data)), 32));
    HeaderFacts(wbits, levelFlags);
    HeaderValid16(ZlibHeader(wbits, levelFlags));
    HeaderStep(s, wbits, levelFlags, Cat(b, tail));
    var u := At(s, Cat(b, tail)).(mode := Type);
    Aligned16(b, Adler.Checksum(data));
    var t := BlocksRun(u, blocks, data, 16, tail);
    PadTotal(b.len);
    var v := TrailerRun(t, Pad(b.len), data);
    LeadsTrans(u, t, v);
    LeadsStep(s, u, v);
  }

  lemma Aligned16(b: BitString, check: nat)
    ensures (Cat(b, Cat(BitString(0, Pad(b.len)), BitString(Trailer(check), 32))).len + 16) % 8 == 0
  {
    hide Cat, Pad;
    var trailer := BitString(Trailer(check), 32);
    CatLen(BitString(0, Pad(b.len)), trailer);
    CatLen(b, Cat(BitString(0, Pad(b.len)), trailer));
    PadTotal(b.len);
  }

  lemma HeaderValid16(h: nat)
    requires h < 0x1_0000
    ensures ShortMSB(h).Valid()
  {
    Powers();
  }
}
