/** deflate.c and trees.c together: a whole stream, from the input to the pending bytes. */
module Compress {
  import opened Wrappers
  import opened Bits
  import opened BitWriter
  import opened Chains
  import Adler
  import opened BlockDecode
  import opened BlockReads
  import opened BlockWriter
  import opened TreeFlush
  import opened Lz77
  import opened RoundTrip
  import InflateSpec
  import Matcher
  import Deflate
  import Choices

  /** The stream of these bytes, from its start, with enough space and table entries. */
  ghost predicate FromStart(s: InflateSpec.State, bytes: seq<byte>, wrap: bool, room: nat) {
    && s.mode == InflateSpec.Head && s.wrap == wrap && !s.limited && !s.last && s.out == [] && s.room >= room
    && BitString(s.x, s.n) == BytesOf(bytes)
  }

  /** Inflate, given these bytes and enough space, ends with the data and no bit left. */
  ghost predicate InflatesTo(bytes: seq<byte>, wrap: bool, data: seq<byte>) {
    forall s :: FromStart(s, bytes, wrap, |data|) ==>
      exists t :: InflateSpec.Leads(s, t) && t.mode == InflateSpec.Done && t.out == data && t.n == 0
  }

  /** How many bytes an item stands for. */
  function Size(it: Item): nat {
    match it
    case Literal(_) => 1
    case Reference(length, _) => length
  }

  /** What was tallied first rebuilds the first part of the data. */
  lemma {:induction false} PrefixTallied(items: seq<Item>, i: nat, data: seq<byte>, pos: nat)
    requires i < |items| && Tallied(items, data, |data|) && Tallied(items[..i], data, pos)
    ensures Tallied(items[..i + 1], data, pos + Size(items[i]))
  {
    hide Fits, Expand, CopyBack;
    var it := items[i];
    assert items == items[..i] + items[i..];
    ExpandCat([], items[..i], items[i..]);
    FirstItem(data[..pos], items[i..]);
    assert items[..i + 1] == items[..i] + [it];
    ExpandSnoc(items[..i], it);
    var out := ExpandOne(data[..pos], it);
    ExpandPrefix(out, items[i..][1..]);
    assert |out| == pos + Size(it);
    assert out == data[..pos + Size(it)];
  }

  lemma FirstItem(out: seq<byte>, items: seq<Item>)
    requires items != [] && Fits(out, items)
    ensures FitsOne(out, items[0]) && Fits(ExpandOne(out, items[0]), items[1..])
    ensures Expand(out, items) == Expand(ExpandOne(out, items[0]), items[1..])
  {
  }

  lemma {:induction false} CopyPrefix(out: seq<byte>, length: nat, dist: nat)
    requires 1 <= dist <= |out|
    ensures out <= CopyBack(out, length, dist)
    decreases length
  {
    if length > 0 {
      CopyPrefix(out + [out[|out| - dist]], length - 1, dist);
    }
  }

  /** Expanding only adds. */
  lemma {:induction false} ExpandPrefix(out: seq<byte>, items: seq<Item>)
    requires Fits(out, items)
    ensures out <= Expand(out, items)
    decreases |items|
  {
    if items != [] {
      if items[0].Reference? {
        CopyPrefix(out, items[0].length, items[0].dist);
      }
      ExpandPrefix(ExpandOne(out, items[0]), items[1..]);
    }
  }

  /** Blocks written so far, from bit start on: they read as items that rebuild the first a
      bytes. */
  ghost predicate Stands(blocks: seq<Block>, start: nat, last: bool, data: seq<byte>, a: nat) {
    && Written(blocks, start, last) && a <= |data| && Fits([], ItemsOf(blocks))
    && Expand([], ItemsOf(blocks)) == data[..a]
  }

  /** The last block holds the symbols since: as they are, or their bytes stored. */
  ghost predicate HoldLast(blocks: seq<Block>, before: seq<Item>, since: seq<Item>, data: seq<byte>, a: nat, b: nat)
    requires blocks != []
    decreases |blocks|, 0
  {
    && a <= b <= |data| && Tallied(before, data, a) && Tallied(before + since, data, b)
    && Hold(blocks[..|blocks| - 1], before, data)
    && var last := blocks[|blocks| - 1].items; last == since || last == Literals(data[a..b])
  }

  /** The blocks hold these symbols and no others, cut in some way. */
  ghost predicate Hold(blocks: seq<Block>, items: seq<Item>, data: seq<byte>)
    decreases |blocks|, 1
  {
    if blocks == [] then items == []
    else exists k, a, b :: 0 <= k <= |items| && HoldLast(blocks, items[..k], items[k..], data, a, b)
  }

  lemma HoldNext(blocks: seq<Block>, block: Block, before: seq<Item>, since: seq<Item>, data: seq<byte>, a: nat, b: nat)
    requires a <= b <= |data| && Tallied(before, data, a) && Tallied(before + since, data, b)
    requires Hold(blocks, before, data) && (block.items == since || block.items == Literals(data[a..b]))
    ensures Hold(blocks + [block], before + since, data)
  {
    hide Tallied, Literals;
    var all, more, k := before + since, blocks + [block], |before|;
    assert more[..|more| - 1] == blocks && all[..k] == before && all[k..] == since;
    assert HoldLast(more, all[..k], all[k..], data, a, b);
  }

  /** One more block, of the symbols tallied since the last one or of their bytes. */
  lemma BlockStands(blocks: seq<Block>, start: nat, data: seq<byte>, a: nat, b: nat, before: seq<Item>,
                    since: seq<Item>, bits: BitString,
                    stored: bool, last: bool) returns (blocks': seq<Block>)
    requires Stands(blocks, start, false, data, a) && Tallied(before, data, a) && Tallied(before + since, data, b)
    requires a <= b <= |data| && Hold(blocks, before, data)
    requires Reads(bits, start + BitsOf(blocks).len, if stored then Literals(data[a..b]) else since, last)
    ensures Stands(blocks', start, last, data, b) && BitsOf(blocks') == Cat(BitsOf(blocks), bits) && blocks' != []
    ensures Hold(blocks', before + since, data)
  {
    hide Reads, Fits, Expand, Literals, Cat, Hold, Tallied;
    var items := if stored then Literals(data[a..b]) else since;
    SinceThen(before, since, data, a, b);
    NextBlock(ItemsOf(blocks), items, data, a, b);
    blocks' := blocks + [Block(bits, items)];
    assert blocks'[..|blocks'| - 1] == blocks;
    HoldNext(blocks, Block(bits, items), before, since, data, a, b);
  }

  // ---- The wrapper ----

  /** putShortMSB. */
  method PutShortMSB(w: Writer, v: nat)
    requires v < 0x1_0000 && w.Valid()
    modifies w
    ensures w.Valid() && w.biBuf == old(w.biBuf) && w.biValid == old(w.biValid)
    ensures BytesOf(w.pending) == Cat(BytesOf(old(w.pending)), ShortMSB(v))
  {
    hide Cat, BytesOf, Pow2;
    ghost var p := w.pending;
    ghost var swapped: nat := v / 256 + 256 * (v % 256);
    assert swapped % 256 == v / 256 && swapped / 256 == v % 256;
    BytesTwo(swapped);
    w.Put(v / 256);
    w.Put(v % 256);
    assert w.pending == p + [v / 256, v % 256];
    BytesCat(p, [v / 256, v % 256]);
  }

  /** The checksum, as two shorts. */
  method PutTrailer(w: Writer, check: nat)
    requires check < 0x1_0000_0000 && w.Valid()
    modifies w
    ensures w.Valid() && w.biBuf == old(w.biBuf) && w.biValid == old(w.biValid)
    ensures BytesOf(w.pending) == Cat(BytesOf(old(w.pending)), BitString(Trailer(check), 32))
  {
    hide Cat, BytesOf, ShortMSB, Trailer;
    CatAssoc(BytesOf(w.pending), ShortMSB(check / 0x1_0000), ShortMSB(check % 0x1_0000));
    ShortsTrail(check);
    PutShortMSB(w, check / 0x1_0000);
    PutShortMSB(w, check % 0x1_0000);
  }

  lemma ShortsTrail(check: nat)
    requires check < 0x1_0000_0000
    ensures Cat(ShortMSB(check / 0x1_0000), ShortMSB(check % 0x1_0000)) == BitString(Trailer(check), 32)
  {
    hide Cat, ShortMSB, Trailer;
    Bytes4(check);
    var a, b, c, d := check % 256, check / 256 % 256, check / 0x1_0000 % 256, check / 0x100_0000;
    HighAndLow(c + 256 * d, a + 256 * b);
    assert check == 0x1_0000 * (c + 256 * d) + (a + 256 * b);
    TrailParts(a, b, c, d);
  }

  lemma TrailParts(a: nat, b: nat, c: nat, d: nat)
    requires a < 256 && b < 256 && c < 256 && d < 256
    ensures Cat(ShortMSB(c + 256 * d), ShortMSB(a + 256 * b)) ==
      BitString(Trailer(0x1_0000 * (c + 256 * d) + (a + 256 * b)), 32)
  {
    hide Pow2, InflateSpec.Swap32, ShortMSB;
    Powers();
    SwapParts(a, b, c, d);
    ShortParts(c, d);
    ShortParts(a, b);
    assert a + 256 * b + 0x1_0000 * c + 0x100_0000 * d == 0x1_0000 * (c + 256 * d) + (a + 256 * b);
  }

  lemma ShortParts(low: nat, high: nat)
    requires low < 256
    ensures ShortMSB(low + 256 * high) == BitString(high + 256 * low, 16)
  {
  }

  lemma HighAndLow(high: nat, low: nat)
    requires low < 0x1_0000
    ensures (0x1_0000 * high + low) / 0x1_0000 == high && (0x1_0000 * high + low) % 0x1_0000 == low
  {
  }

  /** With the bit buffer empty, the pending bytes are the stream. */
  lemma NothingHeld(p: seq<byte>, biBuf: nat)
    requires biBuf < Pow2(0)
    ensures Cat(BytesOf(p), BitString(biBuf, 0)) == BytesOf(p)
  {
    Powers();
    hide Cat, BytesOf, Pow2;
    CatEmpty(BytesOf(p));
    assert BitString(biBuf, 0) == EMPTY;
  }

  /** The header's bits: none for a raw stream. */
  function WrapBits(wrap: bool, wbits: nat, levelFlags: nat): BitString
    requires 8 <= wbits <= 15 && levelFlags < 4
  {
    if wrap then ShortMSB(ZlibHeader(wbits, levelFlags)) else EMPTY
  }

  lemma WrapLen(wrap: bool, wbits: nat, levelFlags: nat)
    requires 8 <= wbits <= 15 && levelFlags < 4
    ensures WrapBits(wrap, wbits, levelFlags).len == if wrap then 16 else 0
  {
  }

  lemma SamePad(start: nat, n: nat)
    requires start % 8 == 0
    ensures Pad(start + n) == Pad(n)
  {
  }

  /** The bits of a whole stream: the blocks filled up with zeros, and around them the zlib header
      and the checksum unless the stream is raw. */
  ghost function StreamBits(wrap: bool, wbits: nat, levelFlags: nat, blocks: seq<Block>, data: seq<byte>): BitString
    requires 8 <= wbits <= 15 && levelFlags < 4
  {
    var b := BitsOf(blocks);
    var pad := BitString(0, Pad(b.len));
    if wrap then
      Cat(ShortMSB(ZlibHeader(wbits, levelFlags)), Cat(b, Cat(pad, BitString(Trailer(Adler.Checksum(data)), 32))))
    else Cat(b, pad)
  }

  /** The bytes of a finished raw stream inflate to the data. */
  lemma RawFinished(bytes: seq<byte>, blocks: seq<Block>, data: seq<byte>)
    requires Stands(blocks, 0, true, data, |data|) && blocks != []
    requires BytesOf(bytes) == StreamBits(false, 15, 0, blocks, data)
    ensures InflatesTo(bytes, false, data)
  {
    hide Written, Fits, Expand, ItemsOf, BitsOf, InflateSpec.Leads, BytesOf, Cat;
    assert data[..|data|] == data;
    forall s | FromStart(s, bytes, false, |data|)
      ensures exists t :: InflateSpec.Leads(s, t) && t.mode == InflateSpec.Done && t.out == data && t.n == 0
    {
      RawRoundTrip(s, blocks, data);
    }
  }

  lemma ZlibFinished(bytes: seq<byte>, wbits: nat, levelFlags: nat, blocks: seq<Block>, data: seq<byte>)
    requires 8 <= wbits <= 15 && levelFlags < 4 && Stands(blocks, 16, true, data, |data|) && blocks != []
    requires BytesOf(bytes) == StreamBits(true, wbits, levelFlags, blocks, data)
    ensures InflatesTo(bytes, true, data)
  {
    hide Written, Fits, Expand, ItemsOf, BitsOf, InflateSpec.Leads, BytesOf, Cat, ShortMSB, ZlibHeader, Trailer,
      Adler.Checksum, Pad;
    assert data[..|data|] == data;
    forall s | FromStart(s, bytes, true, |data|)
      ensures exists t :: InflateSpec.Leads(s, t) && t.mode == InflateSpec.Done && t.out == data && t.n == 0
    {
      ZlibRoundTrip(s, wbits, levelFlags, blocks, data);
    }
  }

  /** Nothing written yet. */
  lemma NothingYet(p: seq<byte>, biBuf: nat, biValid: nat)
    requires Cat(BytesOf(p), BitString(biBuf, biValid)) == EMPTY
    ensures p == [] && biValid == 0
  {
    hide BytesOf, Cat;
    BytesValid(p);
    CatLen(BytesOf(p), BitString(biBuf, biValid));
  }

  /** The header, unless the stream is raw. */
  method Begin(w: Writer, wrap: bool, wbits: nat, levelFlags: nat)
    requires w.Valid() && w.Stream() == EMPTY && 8 <= wbits <= 15 && levelFlags < 4
    modifies w
    ensures w.Valid() && w.Stream() == WrapBits(wrap, wbits, levelFlags)
  {
    hide BytesOf, Cat, ZlibHeader, ShortMSB, Pow2;
    NothingYet(w.pending, w.biBuf, w.biValid);
    NothingHeld(w.pending, w.biBuf);
    if wrap {
      HeaderFacts(wbits, levelFlags);
      CatEmpty(ShortMSB(ZlibHeader(wbits, levelFlags)));
      PutShortMSB(w, ZlibHeader(wbits, levelFlags));
      NothingHeld(w.pending, w.biBuf);
    }
  }

  lemma FourParts(a: BitString, b: BitString, c: BitString, d: BitString)
    ensures Cat(Cat(Cat(a, b), c), d) == Cat(a, Cat(b, Cat(c, d)))
  {
    hide Cat;
    CatAssoc(Cat(a, b), c, d);
    CatAssoc(a, b, Cat(c, d));
  }

  method CheckOf(data: seq<byte>) returns (check: nat)
    ensures check == Adler.Checksum(data) && check < 0x1_0000_0000
  {
    hide Adler.Update, Adler.Pack, Adler.Reduce;
    SplitOne();
    check := Adler.Adler32(1, data);
  }

  lemma SplitOne()
    ensures Adler.Split(1) == Adler.INITIAL && Adler.INITIAL.Reduced()
  {
  }

  /** The blocks with their header and padding, on a whole number of bytes. */
  ghost predicate Blocked(bytes: seq<byte>, h: BitString, blocks: seq<Block>, data: seq<byte>) {
    && Stands(blocks, h.len, true, data, |data|) && blocks != []
    && BytesOf(bytes) == Cat(Cat(h, BitsOf(blocks)), BitString(0, Pad(BitsOf(blocks).len)))
  }

  lemma IsBlocked(bytes: seq<byte>, biBuf: nat, h: BitString, blocks: seq<Block>, data: seq<byte>)
    requires Stands(blocks, h.len, true, data, |data|) && blocks != [] && biBuf < Pow2(0) && h.len % 8 == 0
    requires var s := Cat(h, BitsOf(blocks)); Cat(BytesOf(bytes), BitString(biBuf, 0)) == Cat(s,
      BitString(0, Pad(s.len)))
    ensures Blocked(bytes, h, blocks, data)
  {
    hide BytesOf, Cat, Pow2, Stands, BitsOf, Pad;
    CatLen(h, BitsOf(blocks));
    SamePad(h.len, BitsOf(blocks).len);
    NothingHeld(bytes, biBuf);
  }

  /** The trailer, unless the stream is raw: now the bytes inflate to the data. */
  method End(w: Writer, wrap: bool, data: seq<byte>, ghost wbits: nat, ghost levelFlags: nat, ghost blocks: seq<Block>)
    requires w.Valid() && 8 <= wbits <= 15 && levelFlags < 4
    requires Blocked(w.pending, WrapBits(wrap, wbits, levelFlags), blocks, data)
    modifies w
    ensures InflatesTo(w.pending, wrap, data) && BytesOf(w.pending) == StreamBits(wrap, wbits, levelFlags, blocks, data)
  {
    hide BytesOf, Cat, ZlibHeader, Pow2, Stands, BitsOf, Pad, Trailer, InflatesTo, Adler.Checksum;
    ghost var h, b := WrapBits(wrap, wbits, levelFlags), BitsOf(blocks);
    if wrap {
      var check := CheckOf(data);
      FourParts(h, b, BitString(0, Pad(b.len)), BitString(Trailer(check), 32));
      PutTrailer(w, check);
      ZlibFinished(w.pending, wbits, levelFlags, blocks, data);
    } else {
      CatEmpty(b);
      RawFinished(w.pending, blocks, data);
    }
  }

  // ---- The whole stream ----

  /** Flush a block of the symbols tallied since position a. Its bytes can be stored if there
      are few enough of them and they are still in the window. Whether they are is left open. */
  method Flush(t: Trees, data: seq<byte>, a: nat, b: nat, fixedOnly: bool, last: bool,
               ghost before: seq<Item>, ghost h: BitString, ghost blocks: seq<Block>)
      returns (ghost blocks': seq<Block>)
    requires t.Valid() && a <= b <= |data| && t.w.Stream() == Cat(h, BitsOf(blocks))
    requires Stands(blocks, h.len, false, data, a)
    requires Tallied(before, data, a) && Tallied(before + Items(t.symBuf), data, b) && Hold(blocks, before, data)
    modifies t, t.w, t.l.fc, t.l.dl, t.d.fc, t.d.dl, t.b.fc, t.b.dl, t.k.heap, t.k.depth, t.k.blCount
    ensures t.Valid() && t.symBuf == [] && Stands(blocks', h.len, last, data, b) && blocks' != []
    ensures Hold(blocks', before + old(Items(t.symBuf)), data)
    ensures var s := Cat(h, BitsOf(blocks')); t.w.Stream() == if last then Cat(s, BitString(0, Pad(s.len))) else s
    ensures last ==> t.w.biValid == 0
  {
    hide Stands, Hold, Tallied, Reads, Cat, Items, Pad, Literals, BitsOf, SendsAll, BodyBits, TreeFlush.Shortest,
      TreeFlush.StoredLen, Trees.Separate, Trees.Fixed, BlockSizes.CountsAre;
    var there: bool := *;
    var buf: Option<seq<byte>> := if there && b - a < 0x1_0000 then Some(data[a..b]) else None;
    ghost var since := Items(t.symBuf);
    CatLen(h, BitsOf(blocks));
    var kind;
    ghost var bits, need;
    kind, bits, need := t.FlushBlock(buf, b - a, 1, fixedOnly, last);
    CatAssoc(h, BitsOf(blocks), bits);
    blocks' := BlockStands(blocks, h.len, data, a, b, before, since, bits, kind == TreeFlush.Stored, last);
  }

  /** One symbol into the current block. */
  method TallyItem(t: Trees, it: Item) returns (full: bool)
    requires t.Valid() && ValidItem(it) && |t.symBuf| < t.symEnd
    modifies t, t.l.fc, t.d.fc
    ensures t.Valid() && Items(t.symBuf) == old(Items(t.symBuf)) + [it] && full == (|t.symBuf| == t.symEnd)
  {
    hide Items;
    match it
    case Literal(b) => full := t.Tally(0, b);
    case Reference(length, dist) => full := t.Tally(dist, length - 3);
  }

  /** The symbols cut into blocks whenever the buffer is full, and anywhere else, and the blocks
      written out. */
  method WriteBlocks(t: Trees, items: seq<Item>, data: seq<byte>, fixedOnly: bool,
                     ghost h: BitString) returns (ghost blocks: seq<Block>)
    requires t.Valid() && t.symBuf == [] && t.w.Stream() == h && Tallied(items, data, |data|)
    modifies t, t.w, t.l.fc, t.l.dl, t.d.fc, t.d.dl, t.b.fc, t.b.dl, t.k.heap, t.k.depth, t.k.blCount
    ensures t.Valid() && t.w.biValid == 0 && Stands(blocks, h.len, true, data, |data|) && blocks != []
    ensures Hold(blocks, items, data)
    ensures var s := Cat(h, BitsOf(blocks)); t.w.Stream() == Cat(s, BitString(0, Pad(s.len)))
  {
    blocks := [];
    StandsEmpty(h.len, data);
    CatEmpty(h);
    hide Stands, Hold, Tallied, Cat, Items, Pad, ValidItem, Trees.Separate, Trees.Fixed, BlockSizes.CountsAre;
    var a: nat, b: nat := 0, 0;
    ghost var j: nat := 0;
    for i := 0 to |items|
      invariant t.Valid() && |t.symBuf| < t.symEnd && j <= i && Items(t.symBuf) == items[j..i] && a <= b <= |data|
      invariant Stands(blocks, h.len, false, data, a) && t.w.Stream() == Cat(h, BitsOf(blocks))
      invariant Tallied(items[..j], data, a) && Tallied(items[..i], data, b) && Hold(blocks, items[..j], data)
    {
      Take(items, i, data, b);
      var full := TallyItem(t, items[i]);
      b := b + Size(items[i]);
      assert items[j..i] + [items[i]] == items[j..i + 1];
      var cut: bool := *;
      if full || cut {
        assert items[..j] + items[j..i + 1] == items[..i + 1];
        blocks := Flush(t, data, a, b, fixedOnly, false, items[..j], h, blocks);
        a, j := b, i + 1;
        NoItems(t.symBuf);
      }
    }
    assert items[..j] + items[j..] == items == items[..|items|];
    assert items[j..|items|] == items[j..];
    AllOf(items, data, b);
    blocks := Flush(t, data, a, |data|, fixedOnly, true, items[..j], h, blocks);
  }

  lemma StandsEmpty(start: nat, data: seq<byte>)
    ensures Stands([], start, false, data, 0) && Tallied([], data, 0) && BitsOf([]) == EMPTY && Items([]) == []
    ensures Hold([], [], data)
  {
  }

  lemma NoItems(buf: seq<byte>)
    requires buf == []
    ensures Items(buf) == []
  {
  }

  /** The next symbol: it is valid and stays inside the data. */
  lemma Take(items: seq<Item>, i: nat, data: seq<byte>, pos: nat)
    requires i < |items| && Tallied(items, data, |data|) && Tallied(items[..i], data, pos)
    ensures ValidItem(items[i]) && Tallied(items[..i + 1], data, pos + Size(items[i])) && pos + Size(items[i]) <= |data|
  {
    hide Fits, Expand;
    PrefixTallied(items, i, data, pos);
  }

  lemma AllOf(items: seq<Item>, data: seq<byte>, pos: nat)
    requires Tallied(items, data, |data|) && Tallied(items, data, pos)
    ensures pos == |data|
  {
    hide Fits, Expand;
    assert |data[..pos]| == pos;
  }

  /** Match finding over the whole input, called again after every early return: the symbols rebuild
      it, and each was chosen by the rules. */
  method FindSymbols(g: Config, data: seq<byte>, lazy: bool, maxLazy: nat, goodMatch: nat, niceMatch: nat,
                     maxChain: nat, filtered: bool)
      returns (items: seq<Item>, ghost looks: seq<Choices.Look>, ghost picks: seq<Choices.Pick>, ghost ins: set<nat>)
    requires g.Ok() && maxLazy <= MAX_MATCH
    ensures Tallied(items, data, |data|)
    ensures var rules := Choices.Rules(maxLazy, goodMatch, niceMatch, maxChain, filtered);
      if lazy then Choices.SlowRun(g, data, rules, items, picks, |data|, ins)
      else Choices.FastRun(g, data, rules, items, looks, |data|, ins)
  {
    hide Tallied, Choices.SlowRun, Choices.FastRun, Choices.Outcome, Choices.Nearest, Choices.NoneEnded, ChainsOk,
      Matcher.Shows, MatchAt;
    var f := new Matcher.Finder(g, data);
    var z := new Deflate.Deflater(f, maxLazy, goodMatch, niceMatch, maxChain, filtered);
    assert f.data + f.input == data;
    var r := Deflate.NeedMore;
    while r == Deflate.NeedMore
      invariant z.Sound() && (if lazy then z.Slow() else z.Fast()) && f.data + f.input == data
      invariant r == Deflate.BlockDone ==>
        f.input == [] && f.lookahead == 0 && !z.matchAvailable && Tallied(z.items, f.data, |f.data|)
      decreases r == Deflate.NeedMore, |f.input| + f.lookahead
    {
      if lazy {
        r := z.DeflateSlow(false);
      } else {
        r := z.DeflateFast(false);
      }
    }
    assert f.data == data;
    Matcher.EndFits(f.window[..], f.data, f.base, f.strstart + f.lookahead);
    items, looks, picks, ins := z.items, z.looks, z.picks, f.ins;
  }

  /** These symbols were chosen by the rules, over the whole input. */
  ghost predicate Chosen(g: Config, data: seq<byte>, lazy: bool, rules: Choices.Rules, items: seq<Item>)
    requires g.Ok()
  {
    if lazy then exists picks, ins :: Choices.SlowRun(g, data, rules, items, picks, |data|, ins)
    else exists looks, ins :: Choices.FastRun(g, data, rules, items, looks, |data|, ins)
  }

  /** deflate with Z_FINISH, all input at once: inflate rebuilds the data from the bytes
      written, whatever the level's limits, however the blocks are cut and whatever kind
      each of them is. The bytes are exactly the blocks of the symbols chosen by the rules, between
      header and trailer. */
  method Compress(g: Config, data: seq<byte>, wrap: bool, wbits: nat, levelFlags: nat, lazy: bool,
                  maxLazy: nat, goodMatch: nat, niceMatch: nat, maxChain: nat, filtered: bool, fixedOnly: bool,
                  memLevel: nat)
      returns (bytes: seq<byte>, ghost items: seq<Item>, ghost blocks: seq<Block>)
    requires g.Ok() && 8 <= wbits <= 15 && levelFlags < 4 && maxLazy <= MAX_MATCH && 1 <= memLevel <= 9
    ensures InflatesTo(bytes, wrap, data) && BytesOf(bytes) == StreamBits(wrap, wbits, levelFlags, blocks, data)
    ensures Chosen(g, data, lazy, Choices.Rules(maxLazy, goodMatch, niceMatch, maxChain, filtered), items)
    ensures Hold(blocks, items, data) && Written(blocks, if wrap then 16 else 0, true)
  {
    hide Hold, Tallied, Cat, Pad, BitsOf, BytesOf, ZlibHeader, ShortMSB, Trailer, InflatesTo, Blocked, Pow2,
      WrapBits, StreamBits, Written, Choices.SlowRun, Choices.FastRun, Fits, Expand, ItemsOf;
    var symbols;
    ghost var looks, picks, ins;
    symbols, looks, picks, ins := FindSymbols(g, data, lazy, maxLazy, goodMatch, niceMatch, maxChain, filtered);
    items := symbols;
    var t := new Trees(memLevel);
    ghost var h := WrapBits(wrap, wbits, levelFlags);
    Begin(t.w, wrap, wbits, levelFlags);
    blocks := WriteBlocks(t, symbols, data, fixedOnly, h);
    WrapLen(wrap, wbits, levelFlags);
    IsBlocked(t.w.pending, t.w.biBuf, h, blocks, data);
    End(t.w, wrap, data, wbits, levelFlags, blocks);
    bytes := t.w.pending;
  }
}
