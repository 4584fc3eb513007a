/** What inflate does to a stream, without buffers: the states of inflate.c as steps
    over one bit stream and one growing output. Codes are given by their lengths, so
    a symbol is decoded as section 3.2.2 of RFC 1951 defines it, not through tables. */
module InflateSpec {
  import opened Bits
  import opened Canonical
  import opened TableNeed
  import opened InflateTable
  import Adler

  datatype Mode =
    | Head | Dict | Type | Stored | Copy
    | Table | LenLens | CodeLens
    | Len | LenExt | Dist | DistExt | Match | Lit
    | Check | Done | Bad

  /** The state: `x` and `n` are the bits still to be read, as a number and how many
      they are; `room` is the output space left; `out` is all output so far. A limited
      stream is given up at a code whose tables take more entries than inflate reserves. */
  datatype State = State(
    mode: Mode, wrap: bool, limited: bool, last: bool,
    length: nat, offset: nat, extra: nat,
    nlen: nat, ndist: nat, ncode: nat, have: nat,
    clens: seq<nat>, lens: seq<nat>,
    lencode: seq<nat>, distcode: seq<nat>,
    x: nat, n: nat, room: nat, out: seq<byte>)

  /** The order in which code length code lengths are sent. */
  const ORDER: seq<nat> := [16, 17, 18, 0, 8, 7, 9, 6, 10, 5, 11, 4, 12, 3, 13, 2, 14, 1, 15]

  const ZEROS: seq<nat> := [0, 0, 0, 0, 0, 0, 0, 0, 0, 0, 0, 0, 0, 0, 0, 0, 0, 0, 0]

  /** A step either waits for input or output space, or goes on. */
  datatype Outcome = Wait | Next(s: State)

  /** Drop k bits. */
  function Drop(s: State, k: nat): State
    requires k <= s.n
  {
    s.(x := Shr(s.x, k), n := s.n - k)
  }

  lemma DropNone(s: State)
    ensures Drop(s, 0) == s
  {
  }

  /** The lengths of a fixed block's codes (section 3.2.6 of RFC 1951). */
  function FixedLit(): seq<nat> {
    seq(288, i => if i < 144 then 8 else if i < 256 then 9 else if i < 280 then 7 else 8)
  }

  function FixedDist(): seq<nat> {
    seq(32, i => 5)
  }

  /** Decoding the next symbol: waiting, no such code, or a symbol. */
  datatype Symbol = More | NoCode | Sym(sym: nat)

  ghost function Decode(lens: seq<nat>, x: nat, n: nat): (r: Symbol)
    ensures r.Sym? ==> Matches(lens, r.sym, x) && lens[r.sym] <= n
    ensures r.NoCode? ==> n >= 1
  {
    if exists s: nat :: Matches(lens, s, x) then
      var s: nat :| Matches(lens, s, x);
      if lens[s] <= n then Sym(s) else More
    else if n < 1 then More else NoCode
  }

  /** The stream's bytes, first byte lowest. */
  function Swap32(v: nat): nat {
    (v % 256) * 0x100_0000 + (v / 256 % 256) * 0x1_0000 + (v / 0x1_0000 % 256) * 0x100 + v / 0x100_0000 % 256
  }

  /** The zlib header (section 2.2 of RFC 1950), for a 32K window. */
  function StepHead(s: State): Outcome {
    if !s.wrap then Next(s.(mode := Type))
    else if s.n < 16 then Wait
    else
      var v := HeadVerdict(Low(s.x, 8), Low(Shr(s.x, 8), 8));
      Next(Drop(s, v.0).(mode := v.1))
  }

  /** What the two header bytes say: how many bits are dropped, and the mode to go on in. */
  function HeadVerdict(b0: nat, b1: nat): (v: (nat, Mode))
    ensures v.0 <= 16 && (v.1 == Bad || ((v.1 == Dict || v.1 == Type) && v.0 == 16))
  {
    if (b0 * 256 + b1) % 31 != 0 then (0, Bad)
    else if b0 % 16 != 8 then (0, Bad)
    else if b0 / 16 + 8 > 15 then (4, Bad)
    else (16, if b1 / 32 % 2 == 1 then Dict else Type)
  }

  function StepType(s: State): Outcome {
    if s.last then Next(Drop(s, s.n % 8).(mode := Check))
    else if s.n < 3 then Wait
    else
      var t := Drop(s, 3).(last := Low(s.x, 1) == 1);
      match Low(Shr(s.x, 1), 2)
      case 0 => Next(t.(mode := Stored))
      case 1 => Next(t.(mode := Len, lencode := FixedLit(), distcode := FixedDist()))
      case 2 => Next(t.(mode := Table))
      case _ => Next(t.(mode := Bad))
  }

  /** Skip to a byte boundary, then the length and its complement. */
  function StepStored(s: State): Outcome {
    if s.n % 8 != 0 then Next(Drop(s, s.n % 8))
    else if s.n < 32 then Wait
    else
      var len, inv := Low(s.x, 16), Low(Shr(s.x, 16), 16);
      if len + inv != 0xffff then Next(s.(mode := Bad))
      else Next(Drop(s, 32).(mode := Copy, length := len))
  }

  function StepCopy(s: State): Outcome {
    if s.length == 0 then Next(s.(mode := Type))
    else if s.n < 8 || s.room == 0 then Wait
    else
      LowByte(s.x);
      Next(Drop(s, 8).(length := s.length - 1, room := s.room - 1, out := s.out + [Low(s.x, 8)]))
  }

  lemma LowByte(x: nat)
    ensures Low(x, 8) < 256
  {
    LowShr(x, 8);
    assert Pow2(8) == 256;
  }

  function StepTable(s: State): Outcome {
    if s.n < 14 then Wait
    else
      var t := Drop(s, 14).(nlen := Low(s.x, 5) + 257, ndist := Low(Shr(s.x, 5), 5) + 1,
                            ncode := Low(Shr(s.x, 10), 4) + 4, clens := ZEROS, lens := []);
      if t.nlen > 286 || t.ndist > 30 then Next(t.(mode := Bad))
      else Next(t.(mode := LenLens, have := 0))
  }

  /** The code length code lengths; `have` counts them. A refused set is an error. */
  ghost function StepLenLens(s: State): Outcome {
    if s.have < s.ncode then
      if s.n < 3 then Wait
      else if s.have >= 19 || |s.clens| != 19 then Next(s.(mode := Bad))
      else Next(Drop(s, 3).(clens := s.clens[ORDER[s.have] := Low(s.x, 3)], have := s.have + 1))
    else if !NoCodes(s.clens) && Refused(CODES, s.clens) then Next(s.(mode := Bad))
    else Next(s.(mode := CodeLens))
  }

  /** Repeat a length. */
  function Repeat(s: State, len: nat, count: nat): State {
    if |s.lens| + count > s.nlen + s.ndist then s.(mode := Bad)
    else s.(lens := s.lens + Copies(len, count))
  }

  /** A set of lengths that is no bad code, but whose tables take more than the entries
      reserved for them. */
  ghost predicate Exceeds(typ: CodeType, lens: seq<nat>, bits: nat) {
    !NoCodes(lens) && !Refused(typ, lens) && Need(lens, RootBits(lens, bits)) > TableLimit(typ, bits)
  }

  /** All lengths of a block are in, and one of its two codes takes too many entries. */
  ghost predicate TooLarge(s: State) {
    && s.mode == CodeLens && 257 <= s.nlen < |s.lens| == s.nlen + s.ndist && s.lens[256] != 0
    && !Refused(LENS, s.lens[..s.nlen]) && (NoCodes(s.lens[s.nlen..]) || !Refused(DISTS, s.lens[s.nlen..]))
    && (Exceeds(LENS, s.lens[..s.nlen], 9) || Exceeds(DISTS, s.lens[s.nlen..], 6))
  }

  /** The code length symbols, and the codes once all lengths are in. An empty code
      length code reads every bit as a zero length. */
  ghost function StepCodeLens(s: State): Outcome {
    if |s.lens| < s.nlen + s.ndist then NextCodeLen(s) else CodeLensEnd(s)
  }

  ghost function NextCodeLen(s: State): Outcome {
    match Decode(s.clens, s.x, s.n)
    case More => Wait
    case NoCode => Next(Drop(s, 1).(lens := s.lens + [0]))
    case Sym(sym) =>
      var t := Drop(s, s.clens[sym]);
      if sym < 16 then Next(t.(lens := s.lens + [sym]))
      else if sym == 16 then
        if t.n < 2 then Wait
        else if s.lens == [] then Next(t.(mode := Bad))
        else Next(Repeat(Drop(t, 2), s.lens[|s.lens| - 1], 3 + Low(t.x, 2)))
      else if sym == 17 then
        if t.n < 3 then Wait else Next(Repeat(Drop(t, 3), 0, 3 + Low(t.x, 3)))
      else
        if t.n < 7 then Wait else Next(Repeat(Drop(t, 7), 0, 11 + Low(t.x, 7)))
  }

  ghost function CodeLensEnd(s: State): Outcome
    requires |s.lens| >= s.nlen + s.ndist
  {
    if s.nlen <= 256 || |s.lens| < s.nlen || s.lens[256] == 0 then Next(s.(mode := Bad))
    else
      var l, d := s.lens[..s.nlen], s.lens[s.nlen..];
      if Refused(LENS, l) then Next(s.(mode := Bad))
      else if !NoCodes(d) && Refused(DISTS, d) then Next(s.(mode := Bad))
      else if s.limited && TooLarge(s) then Next(s.(mode := Bad))
      else Next(s.(mode := Len, lencode := l, distcode := d))
  }

  /** A literal, a length or the end of the block. */
  ghost function StepLen(s: State): Outcome {
    match Decode(s.lencode, s.x, s.n)
    case More => Wait
    case NoCode => Next(Drop(s, 1).(mode := Bad))
    case Sym(sym) => Next(LenSymbol(Drop(s, s.lencode[sym]), sym))
  }

  function LenSymbol(t: State, sym: nat): State {
    if sym < 256 then t.(mode := Lit, length := sym)
    else if sym == 256 then t.(mode := Type)
    else if sym >= 286 then t.(mode := Bad)
    else t.(mode := LenExt, length := LBASE[sym - 257], extra := LEXT[sym - 257] - 16)
  }

  function StepLenExt(s: State): Outcome {
    if s.n < s.extra then Wait
    else Next(Drop(s, s.extra).(mode := Dist, length := s.length + Low(s.x, s.extra)))
  }

  ghost function StepDist(s: State): Outcome {
    match Decode(s.distcode, s.x, s.n)
    case More => Wait
    case NoCode => Next(Drop(s, 1).(mode := Bad))
    case Sym(sym) => Next(DistSymbol(Drop(s, s.distcode[sym]), sym))
  }

  function DistSymbol(t: State, sym: nat): State {
    if sym >= 30 then t.(mode := Bad)
    else t.(mode := DistExt, offset := DBASE[sym], extra := DEXT[sym] - 16)
  }

  function StepDistExt(s: State): Outcome {
    if s.n < s.extra then Wait
    else Next(Drop(s, s.extra).(mode := Match, offset := s.offset + Low(s.x, s.extra)))
  }

  /** Copy one byte from `offset` back. */
  function StepMatch(s: State): Outcome {
    if s.room == 0 then Wait
    else if s.offset == 0 || s.offset > |s.out| then Next(s.(mode := Bad))
    else if s.length <= 1 then
      Next(s.(mode := Len, length := 0, room := s.room - 1, out := s.out + [s.out[|s.out| - s.offset]]))
    else
      Next(s.(length := s.length - 1, room := s.room - 1, out := s.out + [s.out[|s.out| - s.offset]]))
  }

  function StepLit(s: State): Outcome {
    if s.room == 0 then Wait
    else Next(s.(mode := Len, room := s.room - 1, out := s.out + [s.length % 256]))
  }

  /** The Adler-32 trailer, most significant byte first. */
  function StepCheck(s: State): Outcome {
    if !s.wrap then Next(s.(mode := Done))
    else if s.n < 32 then Wait
    else if Swap32(Low(s.x, 32)) != Adler.Checksum(s.out) then Next(s.(mode := Bad))
    else Next(Drop(s, 32).(mode := Done))
  }

  ghost function Step(s: State): Outcome {
    match s.mode
    case Head => StepHead(s)
    case Type => StepType(s)
    case Stored => StepStored(s)
    case Copy => StepCopy(s)
    case Table => StepTable(s)
    case LenLens => StepLenLens(s)
    case CodeLens => StepCodeLens(s)
    case Len => StepLen(s)
    case LenExt => StepLenExt(s)
    case Dist => StepDist(s)
    case DistExt => StepDistExt(s)
    case Match => StepMatch(s)
    case Lit => StepLit(s)
    case Check => StepCheck(s)
    case Dict => Wait
    case Done => Wait
    case Bad => Wait
  }

  // ---- Runs ----

  /** k steps. */
  ghost function Run(s: State, k: nat): Outcome
    decreases k
  {
    if k == 0 then Next(s)
    else
      match Step(s)
      case Wait => Wait
      case Next(t) => Run(t, k - 1)
  }

  ghost predicate Leads(s: State, t: State) {
    exists k: nat :: Run(s, k) == Next(t)
  }

  lemma {:induction false} RunAdd(s: State, a: nat, b: nat)
    requires Run(s, a).Next?
    ensures Run(s, a + b) == Run(Run(s, a).s, b)
    decreases a
  {
    if a != 0 {
      RunAdd(Step(s).s, a - 1, b);
    }
  }

  lemma LeadsTrans(s: State, t: State, u: State)
    requires Leads(s, t) && Leads(t, u)
    ensures Leads(s, u)
  {
    var a: nat :| Run(s, a) == Next(t);
    var b: nat :| Run(t, b) == Next(u);
    RunAdd(s, a, b);
    assert Run(s, a + b) == Next(u);
  }

  lemma LeadsSelf(s: State)
    ensures Leads(s, s)
  {
    assert Run(s, 0) == Next(s);
  }

  lemma LeadsStep(s: State, t: State, u: State)
    requires Step(s) == Next(t) && Leads(t, u)
    ensures Leads(s, u)
  {
    var b: nat :| Run(t, b) == Next(u);
    assert Run(s, b + 1) == Next(u);
  }

  // ---- Reading bits that are known ----

  /** The bits still to be read are a followed by rest. */
  ghost predicate Starts(s: State, a: BitString, rest: BitString) {
    a.Valid() && BitString(s.x, s.n) == Cat(a, rest)
  }

  lemma ReadBits(s: State, a: BitString, rest: BitString)
    requires Starts(s, a, rest)
    ensures a.len <= s.n && Low(s.x, a.len) == a.val
    ensures Shr(s.x, a.len) == rest.val && s.n - a.len == rest.len
  {
    Unpack(a.val, rest.val, a.len);
  }

  /** Reading the first of two parts. */
  lemma StartsSplit(s: State, a: BitString, b: BitString, rest: BitString)
    requires a.Valid() && b.Valid() && Starts(s, Cat(a, b), rest)
    ensures Starts(s, a, Cat(b, rest))
  {
    CatAssoc(a, b, rest);
  }

  /** A code at the front of the stream is the symbol that is decoded. */
  lemma DecodesCode(s: State, fc: seq<nat>, lens: seq<nat>, sym: nat, rest: BitString)
    requires Coded(fc, lens, sym) && Starts(s, BitString(fc[sym], lens[sym]), rest)
    ensures Decode(lens, s.x, s.n) == Sym(sym)
    ensures lens[sym] <= s.n && Shr(s.x, lens[sym]) == rest.val && s.n - lens[sym] == rest.len
  {
    var l := lens[sym];
    ReadBits(s, BitString(fc[sym], l), rest);
    LowSmall(fc[sym], l);
    PreInjective(s.x, fc[sym], l);
    assert Matches(lens, sym, s.x);
    forall t: nat | Matches(lens, t, s.x)
      ensures t == sym
    {
      UniqueMatch(lens, t, sym, s.x);
    }
  }
}
