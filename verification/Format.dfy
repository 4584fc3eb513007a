/** What a DEFLATE stream is, whoever reads or writes it: sections 3.2.3 to 3.2.7 of RFC 1951 and
    section 2.2 of RFC 1950, as a grammar over bits. */
module Format {
  import opened Bits
  import opened Canonical
  import opened InflateTable
  import opened BitWriter
  import opened CodeLengths
  import opened InflateSpec
  import opened HeaderDecode
  import opened BlockDecode
  import opened BlockReads
  import Adler

  // ---- Symbols ----

  /** The code of symbol s. */
  ghost predicate IsCode(c: BitString, lens: seq<nat>, s: nat) {
    c.Valid() && s < |lens| && 0 < lens[s] == c.len && Pre(c.val, c.len) == CodeOf(lens, s)
  }

  /** A length: its code k and the extra bits e. */
  ghost predicate LengthIs(c: BitString, l: seq<nat>, length: nat, k: nat, a: BitString, e: nat) {
    && k < 29 && IsCode(a, l, 257 + k)
    && var x := LEXT[k] - 16; e < Pow2(x) && length == LBASE[k] + e && c == Cat(a, BitString(e, x))
  }

  ghost predicate IsLength(c: BitString, l: seq<nat>, length: nat) {
    exists k, a, e :: LengthIs(c, l, length, k, a, e)
  }

  /** A distance, likewise. */
  ghost predicate DistIs(c: BitString, d: seq<nat>, dist: nat, k: nat, a: BitString, e: nat) {
    && k < 30 && IsCode(a, d, k)
    && var x := DEXT[k] - 16; e < Pow2(x) && dist == DBASE[k] + e && c == Cat(a, BitString(e, x))
  }

  ghost predicate IsDist(c: BitString, d: seq<nat>, dist: nat) {
    exists k, a, e :: DistIs(c, d, dist, k, a, e)
  }

  ghost predicate IsItem(c: BitString, l: seq<nat>, d: seq<nat>, it: Item) {
    match it
    case Literal(b) => IsCode(c, l, b)
    case Reference(length, dist) => exists a, b :: c == Cat(a, b) && IsLength(a, l, length) && IsDist(b, d, dist)
  }

  /** Items, then the end of the block. */
  ghost predicate IsBody(c: BitString, l: seq<nat>, d: seq<nat>, items: seq<Item>)
    decreases |items|
  {
    if items == [] then IsCode(c, l, 256)
    else exists a, b :: c == Cat(a, b) && IsItem(a, l, d, items[0]) && IsBody(b, l, d, items[1..])
  }

  // ---- The header of a dynamic block ----

  ghost predicate TokenIs(c: BitString, clens: seq<nat>, t: Token, a: BitString) {
    && IsCode(a, clens, t.sym) && t.sym < BL_CODES && t.extra < Pow2(ExtraBits(t.sym))
    && c == Cat(a, BitString(t.extra, ExtraBits(t.sym)))
  }

  ghost predicate IsToken(c: BitString, clens: seq<nat>, t: Token) {
    exists a :: TokenIs(c, clens, t, a)
  }

  ghost predicate AreTokens(c: BitString, clens: seq<nat>, ts: seq<Token>)
    decreases |ts|
  {
    if ts == [] then c == EMPTY
    else exists a, b :: c == Cat(a, b) && IsToken(a, clens, ts[0]) && AreTokens(b, clens, ts[1..])
  }

  /** A code that can be read: complete, or one code of one bit, or, for distances, none. */
  ghost predicate Readable(lens: seq<nat>) {
    || Used(lens, MAXBITS) == Pow2(MAXBITS)
    || (Used(lens, MAXBITS) < Pow2(MAXBITS) && forall s :: 0 <= s < |lens| ==> lens[s] <= 1)
  }

  /** The counts, the code length code in its order, and the lengths of both codes in it. */
  datatype HeaderParts = HeaderParts(ncode: nat, clens: seq<nat>, ts: seq<Token>, t: BitString)

  ghost predicate HeaderIs(c: BitString, l: seq<nat>, d: seq<nat>, p: HeaderParts) {
    && c.Valid() && 257 <= |l| <= 286 && 1 <= |d| <= 30 && 4 <= p.ncode <= 19 && |p.clens| == 19
    && (forall i :: 0 <= i < 19 ==> p.clens[i] < 8 && (PLACE[i] >= p.ncode ==> p.clens[i] == 0))
    && Complete(p.clens) && AreTokens(p.t, p.clens, p.ts) && Legal([], p.ts) && ApplyAll([], p.ts) == l + d
    && l[256] != 0 && Readable(l) && Readable(d)
    && c == Cat(CountBits(|l|, |d|, p.ncode), Cat(LenLensBits(p.clens, 0, p.ncode), p.t))
  }

  ghost predicate IsHeader(c: BitString, l: seq<nat>, d: seq<nat>) {
    exists p :: HeaderIs(c, l, d, p)
  }

  // ---- Blocks ----

  /** The bytes of a stored block: filled up to a byte, the length and its complement, the bytes. */
  ghost predicate StoredIs(c: BitString, start: nat, data: seq<byte>, pad: BitString) {
    && |data| < 0x1_0000 && pad.Valid() && pad.len == Pad(start)
    && c == Cat(pad, Cat(LenBits(|data|), BytesOf(data)))
  }

  ghost predicate IsStored(c: BitString, start: nat, data: seq<byte>) {
    exists pad :: StoredIs(c, start, data, pad)
  }

  /** A block's codes and items. */
  ghost predicate CodesGive(c: BitString, l: seq<nat>, d: seq<nat>, items: seq<Item>, out: seq<byte>, out2: seq<byte>) {
    IsBody(c, l, d, items) && Fits(out, items) && out2 == Expand(out, items)
  }

  ghost predicate DynamicIs(c: BitString, h: BitString, b: BitString, l: seq<nat>, d: seq<nat>, items: seq<Item>,
                            out: seq<byte>, out2: seq<byte>) {
    c == Cat(h, b) && IsHeader(h, l, d) && CodesGive(b, l, d, items, out, out2)
  }

  /** What follows the three bits of the type: stored, fixed or dynamic, and no other. */
  ghost predicate IsContent(c: BitString, kind: nat, start: nat, out: seq<byte>, out2: seq<byte>) {
    match kind
    case 0 => exists data :: IsStored(c, start, data) && out2 == out + data
    case 1 => exists items :: CodesGive(c, FixedLit(), FixedDist(), items, out, out2)
    case 2 => exists h, b, l, d, items :: DynamicIs(c, h, b, l, d, items, out, out2)
    case _ => false
  }

  ghost predicate BlockIs(c: BitString, start: nat, last: bool, out: seq<byte>, out2: seq<byte>, kind: nat,
                          b: BitString) {
    c.Valid() && kind < 3 && c == Cat(TypeBits(kind, last), b) && IsContent(b, kind, start + 3, out, out2)
  }

  /** A block that starts `start` bits into the stream and takes the output from out to out2. */
  ghost predicate IsBlock(c: BitString, start: nat, last: bool, out: seq<byte>, out2: seq<byte>) {
    exists kind, b :: BlockIs(c, start, last, out, out2, kind, b)
  }

  ghost predicate BlocksGo(c: BitString, start: nat, out: seq<byte>, out2: seq<byte>, n: nat, a: BitString,
                           b: BitString, mid: seq<byte>)
    decreases n, 0
  {
    n > 0 && c == Cat(a, b) && IsBlock(a, start, false, out, mid) && AreBlocks(b, start + a.len, mid, out2, n - 1)
  }

  /** n blocks and a last one. */
  ghost predicate AreBlocks(c: BitString, start: nat, out: seq<byte>, out2: seq<byte>, n: nat)
    decreases n, 1
  {
    if n == 0 then IsBlock(c, start, true, out, out2)
    else exists a, b, mid :: BlocksGo(c, start, out, out2, n, a, b, mid)
  }

  // ---- Streams ----

  ghost predicate RawIs(c: BitString, out: seq<byte>, b: BitString, pad: BitString, n: nat) {
    c == Cat(b, pad) && AreBlocks(b, 0, [], out, n) && pad.Valid() && pad.len == Pad(b.len)
  }

  /** A raw stream that stands for out. */
  ghost predicate IsRaw(c: BitString, out: seq<byte>) {
    exists b, pad, n :: RawIs(c, out, b, pad, n)
  }

  /** The two bytes of a zlib header: deflate, a window of at most 32K, no dictionary, and a multiple
      of 31. */
  predicate GoodHeader(b0: nat, b1: nat) {
    && b0 < 256 && b1 < 256 && (b0 * 256 + b1) % 31 == 0
    && b0 % 16 == 8 && b0 / 16 <= 7 && b1 / 32 % 2 == 0
  }

  function BigEndian(a: nat, b: nat, c: nat, d: nat): nat {
    a * 0x100_0000 + b * 0x1_0000 + c * 0x100 + d
  }

  /** Four bytes that are the checksum, the highest first. */
  predicate GoodTrailer(b: seq<byte>, out: seq<byte>) {
    |b| == 4 && BigEndian(b[0], b[1], b[2], b[3]) == Adler.Checksum(out)
  }

  datatype ZlibParts = ZlibParts(b0: byte, b1: byte, blocks: BitString, n: nat, pad: BitString, check: seq<byte>)

  ghost predicate ZlibIs(c: BitString, out: seq<byte>, p: ZlibParts) {
    && GoodHeader(p.b0, p.b1) && AreBlocks(p.blocks, 16, [], out, p.n)
    && p.pad.Valid() && p.pad.len == Pad(16 + p.blocks.len) && GoodTrailer(p.check, out)
    && c == Cat(BytesOf([p.b0, p.b1]), Cat(p.blocks, Cat(p.pad, BytesOf(p.check))))
  }

  /** A zlib stream that stands for out. */
  ghost predicate IsZlib(c: BitString, out: seq<byte>) {
    exists p :: ZlibIs(c, out, p)
  }

  ghost predicate IsStream(c: BitString, wrap: bool, out: seq<byte>) {
    if wrap then IsZlib(c, out) else IsRaw(c, out)
  }
}
