/** The symbols of a compressed block: what they stand for, the bits they are sent as
    (section 3.2.5 of RFC 1951), and that reading the bits gives the symbols back. */
module BlockDecode {
  import opened Bits
  import opened Canonical
  import opened InflateTable
  import opened SymbolCodes
  import opened InflateSpec
  import opened HeaderDecode

  /** A tallied symbol: a byte, or `length` bytes copied from `dist` back. */
  datatype Item = Literal(b: byte) | Reference(length: nat, dist: nat)

  predicate ValidItem(it: Item) {
    it.Reference? ==> 3 <= it.length <= 258 && 1 <= it.dist <= 32768
  }

  // ---- Meaning ----

  function CopyBack(out: seq<byte>, length: nat, dist: nat): (r: seq<byte>)
    requires 1 <= dist <= |out|
    ensures |r| == |out| + length
    decreases length
  {
    if length == 0 then out else CopyBack(out + [out[|out| - dist]], length - 1, dist)
  }

  predicate FitsOne(out: seq<byte>, it: Item) {
    it.Reference? ==> 1 <= it.dist <= |out|
  }

  function ExpandOne(out: seq<byte>, it: Item): (r: seq<byte>)
    requires FitsOne(out, it)
    ensures |r| >= |out|
  {
    match it
    case Literal(b) => out + [b]
    case Reference(length, dist) => CopyBack(out, length, dist)
  }

  /** No distance reaches back before the first byte. */
  predicate Fits(out: seq<byte>, items: seq<Item>)
    decreases |items|
  {
    items == [] || (FitsOne(out, items[0]) && Fits(ExpandOne(out, items[0]), items[1..]))
  }

  /** The output once all items are expanded. */
  function Expand(out: seq<byte>, items: seq<Item>): (r: seq<byte>)
    requires Fits(out, items)
    ensures |r| >= |out|
    decreases |items|
  {
    if items == [] then out else Expand(ExpandOne(out, items[0]), items[1..])
  }

  // ---- Bits ----

  /** A literal/length code, a distance code and the tables that choose codes. */
  datatype Coder = Coder(
    lfc: seq<nat>, llens: seq<nat>, dfc: seq<nat>, dlens: seq<nat>,
    lengthCode: seq<nat>, baseLength: seq<nat>, distCode: seq<nat>, baseDist: seq<nat>)

  ghost predicate SendsLength(c: Coder, length: nat) {
    3 <= length <= 258 && LengthTable(c.lengthCode, c.baseLength) &&
    Coded(c.lfc, c.llens, c.lengthCode[length - 3] + 257)
  }

  ghost predicate SendsDist(c: Coder, dist: nat) {
    1 <= dist <= 32768 && DistTable(c.distCode, c.baseDist) &&
    Coded(c.dfc, c.dlens, DCode(c.distCode, dist - 1))
  }

  /** Every code that the item needs is there. */
  ghost predicate Sends(c: Coder, it: Item) {
    match it
    case Literal(b) => Coded(c.lfc, c.llens, b)
    case Reference(length, dist) => SendsLength(c, length) && SendsDist(c, dist)
  }

  ghost predicate SendsAll(c: Coder, items: seq<Item>) {
    Coded(c.lfc, c.llens, 256) && forall i :: 0 <= i < |items| ==> Sends(c, items[i])
  }

  /** Extra bits of a length or distance code; the base matters only when there are any. */
  ghost function Extra(value: nat, base: nat, bits: nat): BitString {
    BitString(if bits == 0 || value < base then 0 else value - base, bits)
  }

  ghost function LengthBits(c: Coder, length: nat): BitString
    requires SendsLength(c, length)
  {
    var k := c.lengthCode[length - 3];
    assert LengthEntry(length - 3, k, c.baseLength);
    Cat(BitString(c.lfc[k + 257], c.llens[k + 257]), Extra(length - 3, c.baseLength[k], EXTRA_LBITS[k]))
  }

  ghost function DistBits(c: Coder, dist: nat): BitString
    requires SendsDist(c, dist)
  {
    var k := DCode(c.distCode, dist - 1);
    assert DistEntry(dist - 1, k, c.baseDist);
    Cat(BitString(c.dfc[k], c.dlens[k]), Extra(dist - 1, c.baseDist[k], EXTRA_DBITS[k]))
  }

  ghost function ItemBits(c: Coder, it: Item): BitString
    requires Sends(c, it)
  {
    match it
    case Literal(b) => BitString(c.lfc[b], c.llens[b])
    case Reference(length, dist) => Cat(LengthBits(c, length), DistBits(c, dist))
  }

  /** All items, then the end of the block. */
  ghost function BodyBits(c: Coder, items: seq<Item>): BitString
    requires SendsAll(c, items)
  {
    if items == [] then BitString(c.lfc[256], c.llens[256])
    else Cat(ItemBits(c, items[0]), BodyBits(c, items[1..]))
  }

  lemma LengthValid(c: Coder, length: nat)
    requires SendsLength(c, length)
    ensures LengthBits(c, length).Valid()
  {
    var k := c.lengthCode[length - 3];
    assert LengthEntry(length - 3, k, c.baseLength);
    ExtraValid(length - 3, c.baseLength[k], EXTRA_LBITS[k]);
    CatValid(BitString(c.lfc[k + 257], c.llens[k + 257]), Extra(length - 3, c.baseLength[k], EXTRA_LBITS[k]));
  }

  lemma ExtraValid(value: nat, base: nat, bits: nat)
    requires bits == 0 || base <= value < base + Pow2(bits)
    ensures Extra(value, base, bits).Valid()
  {
  }

  lemma DistValid(c: Coder, dist: nat)
    requires SendsDist(c, dist)
    ensures DistBits(c, dist).Valid()
  {
    var k := DCode(c.distCode, dist - 1);
    assert DistEntry(dist - 1, k, c.baseDist);
    ExtraValid(dist - 1, c.baseDist[k], EXTRA_DBITS[k]);
    CatValid(BitString(c.dfc[k], c.dlens[k]), Extra(dist - 1, c.baseDist[k], EXTRA_DBITS[k]));
  }

  lemma ItemValid(c: Coder, it: Item)
    requires Sends(c, it)
    ensures ItemBits(c, it).Valid()
  {
    if it.Reference? {
      LengthValid(c, it.length);
      DistValid(c, it.dist);
      CatValid(LengthBits(c, it.length), DistBits(c, it.dist));
    }
  }

  lemma {:induction false} BodyValid(c: Coder, items: seq<Item>)
    requires SendsAll(c, items)
    ensures BodyBits(c, items).Valid()
  {
    hide Cat, Pow2, ItemBits;
    if items != [] {
      ItemValid(c, items[0]);
      BodyValid(c, items[1..]);
      CatValid(ItemBits(c, items[0]), BodyBits(c, items[1..]));
    }
  }

  // ---- Reading an item ----

  /** The same block read on: only the stream, the output and scratch fields differ. */
  ghost predicate ReadOn(s: State, t: State, out: seq<byte>, rest: BitString) {
    && |s.out| <= |out| && |out| - |s.out| <= s.room
    && t == s.(x := rest.val, n := rest.len, out := out, room := s.room - (|out| - |s.out|),
               length := t.length, offset := t.offset, extra := t.extra)
  }

  lemma LiteralRun(s: State, c: Coder, b: byte, rest: BitString) returns (t: State)
    requires s.mode == Len && s.lencode == c.llens && s.room > 0
    requires Coded(c.lfc, c.llens, b) && Starts(s, BitString(c.lfc[b], c.llens[b]), rest)
    ensures Leads(s, t) && ReadOn(s, t, s.out + [b], rest)
  {
    hide Decode, Cat, Shr, Pow2, Leads, Low, Coded, Step;
    CodedValid(c.lfc, c.llens, b);
    DecodesCode(s, c.lfc, c.llens, b, rest);
    var u := At(s, rest).(mode := Lit, length := b);
    t := u.(mode := Len, room := u.room - 1, out := u.out + [b]);
    LiteralSteps(s, b, u);
    LeadsSelf(t);
    LeadsStep(u, t, t);
    LeadsStep(s, u, t);
  }

  lemma LiteralSteps(s: State, b: byte, u: State)
    requires s.mode == Len && s.room > 0 && Decode(s.lencode, s.x, s.n) == Sym(b)
    requires u == Drop(s, s.lencode[b]).(mode := Lit, length := b)
    ensures Step(s) == Next(u) && Step(u) == Next(u.(mode := Len, room := u.room - 1, out := u.out + [b]))
  {
    hide Decode, Shr;
    assert Step(s) == StepLen(s);
    assert Step(u) == StepLit(u);
  }

  lemma LengthCodeStep(s: State, c: Coder, k: nat, rest: BitString)
    requires s.mode == Len && s.lencode == c.llens && k < 29 && LEXT[k] == 16 + EXTRA_LBITS[k]
    requires Coded(c.lfc, c.llens, k + 257) && Starts(s, BitString(c.lfc[k + 257], c.llens[k + 257]), rest)
    ensures Step(s) == Next(At(s, rest).(mode := LenExt, length := LBASE[k], extra := EXTRA_LBITS[k]))
  {
    hide Decode, Shr, Pow2, Low, Cat, Coded;
    CodedValid(c.lfc, c.llens, k + 257);
    DecodesCode(s, c.lfc, c.llens, k + 257, rest);
    assert Step(s) == StepLen(s);
  }

  /** The length code and its extra bits. */
  lemma LengthRun(s: State, c: Coder, length: nat, rest: BitString) returns (t: State)
    requires s.mode == Len && s.lencode == c.llens && SendsLength(c, length) && Starts(s, LengthBits(c, length), rest)
    ensures Leads(s, t) && t == At(s, rest).(mode := Dist, length := length, extra := t.extra)
  {
    hide Step, Decode, Shr, Pow2, Low, Leads, Cat, Coded;
    var k := c.lengthCode[length - 3];
    assert LengthEntry(length - 3, k, c.baseLength);
    var extra := Extra(length - 3, c.baseLength[k], EXTRA_LBITS[k]);
    ExtraValid(length - 3, c.baseLength[k], EXTRA_LBITS[k]);
    CodedValid(c.lfc, c.llens, k + 257);
    StartsSplit(s, BitString(c.lfc[k + 257], c.llens[k + 257]), extra, rest);
    LengthCodeStep(s, c, k, Cat(extra, rest));
    var u := At(s, Cat(extra, rest)).(mode := LenExt, length := LBASE[k], extra := EXTRA_LBITS[k]);
    t := LengthExtraStep(u, extra, rest, length);
    LeadsSelf(t);
    LeadsStep(u, t, t);
    LeadsStep(s, u, t);
  }

  lemma CodedValid(fc: seq<nat>, lens: seq<nat>, s: nat)
    requires Coded(fc, lens, s)
    ensures s < |fc| && s < |lens| && BitString(fc[s], lens[s]).Valid()
  {
  }

  lemma LengthExtraStep(u: State, extra: BitString, rest: BitString, length: nat) returns (t: State)
    requires u.mode == LenExt && Starts(u, extra, rest) && u.extra == extra.len && u.length + extra.val == length
    ensures Step(u) == Next(t) && t == At(u, rest).(mode := Dist, length := length)
  {
    ReadBits(u, extra, rest);
    t := At(u, rest).(mode := Dist, length := length);
    hide Shr, Pow2, Low, Cat;
  }

  lemma DistExtraStep(u: State, extra: BitString, rest: BitString, dist: nat) returns (t: State)
    requires u.mode == DistExt && Starts(u, extra, rest) && u.extra == extra.len && u.offset + extra.val == dist
    ensures Step(u) == Next(t) && t == At(u, rest).(mode := Match, offset := dist)
  {
    ReadBits(u, extra, rest);
    t := At(u, rest).(mode := Match, offset := dist);
    hide Shr, Pow2, Low, Cat;
  }

  lemma DistCodeStep(s: State, c: Coder, k: nat, rest: BitString)
    requires s.mode == Dist && s.distcode == c.dlens && k < 30 && DEXT[k] == 16 + EXTRA_DBITS[k]
    requires Coded(c.dfc, c.dlens, k) && Starts(s, BitString(c.dfc[k], c.dlens[k]), rest)
    ensures Step(s) == Next(At(s, rest).(mode := DistExt, offset := DBASE[k], extra := EXTRA_DBITS[k]))
  {
    hide Decode, Shr, Pow2, Low, Cat, Coded;
    CodedValid(c.dfc, c.dlens, k);
    DecodesCode(s, c.dfc, c.dlens, k, rest);
    assert Step(s) == StepDist(s);
  }

  /** The distance code and its extra bits. */
  lemma DistRun(s: State, c: Coder, dist: nat, rest: BitString) returns (t: State)
    requires s.mode == Dist && s.distcode == c.dlens && SendsDist(c, dist) && Starts(s, DistBits(c, dist), rest)
    ensures Leads(s, t) && t == At(s, rest).(mode := Match, offset := dist, extra := t.extra)
  {
    hide Step, Decode, Shr, Pow2, Low, Leads, Cat, Coded;
    var k := DCode(c.distCode, dist - 1);
    assert DistEntry(dist - 1, k, c.baseDist);
    var extra := Extra(dist - 1, c.baseDist[k], EXTRA_DBITS[k]);
    ExtraValid(dist - 1, c.baseDist[k], EXTRA_DBITS[k]);
    CodedValid(c.dfc, c.dlens, k);
    NoBase(dist, c.baseDist[k], EXTRA_DBITS[k]);
    StartsSplit(s, BitString(c.dfc[k], c.dlens[k]), extra, rest);
    DistCodeStep(s, c, k, Cat(extra, rest));
    var u := At(s, Cat(extra, rest)).(mode := DistExt, offset := DBASE[k], extra := EXTRA_DBITS[k]);
    t := DistExtraStep(u, extra, rest, dist);
    LeadsSelf(t);
    LeadsStep(u, t, t);
    LeadsStep(s, u, t);
  }

  /** Without extra bits a distance code stands for its base alone. */
  lemma NoBase(dist: nat, base: nat, bits: nat)
    requires base <= dist - 1 < base + Pow2(bits)
    ensures Extra(dist - 1, base, bits).val == dist - 1 - base
  {
  }

  /** The bytes of a match, one a step. */
  lemma {:induction false} MatchRun(s: State) returns (t: State)
    requires s.mode == Match && 1 <= s.offset <= |s.out| && 1 <= s.length <= s.room
    ensures Leads(s, t)
    ensures t == s.(mode := Len, length := 0, room := s.room - s.length, out := CopyBack(s.out, s.length, s.offset))
    decreases s.length
  {
    hide Leads;
    var out := s.out + [s.out[|s.out| - s.offset]];
    if s.length == 1 {
      t := s.(mode := Len, length := 0, room := s.room - 1, out := out);
      assert CopyBack(s.out, 1, s.offset) == CopyBack(out, 0, s.offset) == out;
      LeadsSelf(t);
      LeadsStep(s, t, t);
    } else {
      var u := s.(length := s.length - 1, room := s.room - 1, out := out);
      t := MatchRun(u);
      LeadsStep(s, u, t);
    }
  }

  lemma SendsBounds(c: Coder, length: nat, dist: nat)
    requires SendsLength(c, length) && SendsDist(c, dist)
    ensures ValidItem(Reference(length, dist))
  {
  }

  lemma ItemRun(s: State, c: Coder, it: Item, rest: BitString) returns (t: State)
    requires s.mode == Len && s.lencode == c.llens && s.distcode == c.dlens && Sends(c, it) && FitsOne(s.out, it)
    requires |ExpandOne(s.out, it)| - |s.out| <= s.room && Starts(s, ItemBits(c, it), rest)
    ensures Leads(s, t) && ReadOn(s, t, ExpandOne(s.out, it), rest)
  {
    hide Leads, Cat, Pow2, LengthBits, DistBits, SendsLength, SendsDist;
    match it
    case Literal(b) =>
      t := LiteralRun(s, c, b, rest);
    case Reference(length, dist) =>
      SendsBounds(c, length, dist);
      LengthValid(c, length);
      DistValid(c, dist);
      StartsSplit(s, LengthBits(c, length), DistBits(c, dist), rest);
      var u := LengthRun(s, c, length, Cat(DistBits(c, dist), rest));
      var v := DistRun(u, c, dist, rest);
      t := MatchRun(v);
      LeadsTrans(u, v, t);
      LeadsTrans(s, u, t);
  }

  lemma ExpandGrows(out: seq<byte>, items: seq<Item>)
    requires Fits(out, items)
    ensures |Expand(out, items)| >= |out|
  {
  }

  /** The body of a block decodes to its items, then the block ends. */
  lemma {:induction false} BodyRun(s: State, c: Coder, items: seq<Item>, rest: BitString) returns (t: State)
    requires s.mode == Len && s.lencode == c.llens && s.distcode == c.dlens && SendsAll(c, items) && Fits(s.out, items)
    requires |Expand(s.out, items)| - |s.out| <= s.room && Starts(s, BodyBits(c, items), rest)
    ensures Leads(s, t) && ReadOn(s.(mode := Type), t, Expand(s.out, items), rest)
    decreases |items|
  {
    if items == [] {
      t := BlockEnd(s, c, rest);
    } else {
      hide Leads, Cat, Pow2, Sends, ItemBits, ExpandOne;
      ItemValid(c, items[0]);
      BodyValid(c, items[1..]);
      var more := Cat(BodyBits(c, items[1..]), rest);
      StartsSplit(s, ItemBits(c, items[0]), BodyBits(c, items[1..]), rest);
      ExpandGrows(ExpandOne(s.out, items[0]), items[1..]);
      var u := ItemRun(s, c, items[0], more);
      t := BodyRun(u, c, items[1..], rest);
      LeadsTrans(s, u, t);
    }
  }

  lemma BlockEnd(s: State, c: Coder, rest: BitString) returns (t: State)
    requires s.mode == Len && s.lencode == c.llens && Coded(c.lfc, c.llens, 256)
    requires Starts(s, BitString(c.lfc[256], c.llens[256]), rest)
    ensures Leads(s, t) && t == At(s, rest).(mode := Type)
  {
    DecodesCode(s, c.lfc, c.llens, 256, rest);
    t := At(s, rest).(mode := Type);
    assert Step(s) == Next(t);
    LeadsSelf(t);
    LeadsStep(s, t, t);
  }
}
