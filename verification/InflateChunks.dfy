/** Inflate fed piece by piece: the way input and output space are cut does not matter. */
module InflateChunks {
  import opened Bits
  import opened Canonical
  import opened InflateTable
  import opened BitWriter
  import opened InflateSpec
  import StaticTrees

  /** More input bytes and more output space. */
  function Feed(s: State, bytes: seq<byte>, room: nat): State {
    s.(x := s.x + Pow2(s.n) * BytesOf(bytes).val, n := s.n + 8 * |bytes|, room := s.room + room)
  }

  /** A code that decides by the first bit when it is not complete. */
  ghost predicate CodeOk(lens: seq<nat>) {
    Complete(lens) || forall i :: 0 <= i < |lens| ==> lens[i] <= 1
  }

  predicate Decoding(m: Mode) {
    m.Len? || m.LenExt? || m.Dist? || m.DistExt? || m.Match? || m.Lit?
  }

  /** No bits beyond those there are, and sound codes wherever they are used. */
  ghost predicate Fine(s: State) {
    && s.x < Pow2(s.n)
    && (s.mode == CodeLens ==> CodeOk(s.clens))
    && (Decoding(s.mode) ==> CodeOk(s.lencode) && CodeOk(s.distcode))
  }

  // ---- Bits that are there stay as they are ----

  /** The low bits of a longer stream. */
  lemma LowFed(x: nat, n: nat, v: nat, k: nat)
    requires x < Pow2(n) && k <= n
    ensures Low(x + Pow2(n) * v, k) == Low(x, k)
    ensures Shr(x + Pow2(n) * v, k) == Shr(x, k) + Pow2(n - k) * v
    ensures Shr(x, k) < Pow2(n - k)
  {
    hide Low, Shr;
    LowShr(x, k);
    HighPart(x, n, k);
    Pow2Add(k, n - k);
    var a, b, p, q := Low(x, k), Shr(x, k), Pow2(k), Pow2(n - k);
    hide Pow2;
    MulAssoc(p, q, v);
    MulAdd(p, b, q * v);
    assert x + (p * q) * v == a + p * (b + q * v);
    Unpack(a, b + q * v, k);
  }

  lemma DropFed(s: State, k: nat, bytes: seq<byte>, room: nat)
    requires s.x < Pow2(s.n) && k <= s.n
    ensures Drop(Feed(s, bytes, room), k) == Feed(Drop(s, k), bytes, room)
    ensures Low(Feed(s, bytes, room).x, k) == Low(s.x, k) && Drop(s, k).x < Pow2(s.n - k)
  {
    hide Low, Shr, BytesOf, Pow2;
    LowFed(s.x, s.n, BytesOf(bytes).val, k);
  }

  /** Low bits further up. */
  lemma LowAbove(s: State, a: nat, b: nat, bytes: seq<byte>, room: nat)
    requires s.x < Pow2(s.n) && a + b <= s.n
    ensures Low(Shr(Feed(s, bytes, room).x, a), b) == Low(Shr(s.x, a), b)
  {
    hide Low, Shr, BytesOf, Pow2;
    var v := BytesOf(bytes).val;
    LowFed(s.x, s.n, v, a + b);
    ShrLow(s.x, a, b);
    ShrLow(s.x + Pow2(s.n) * v, a, b);
  }

  // ---- Decoding ----

  lemma {:induction false} PreFed(x: nat, y: nat, l: nat, n: nat)
    requires Low(x, n) == Low(y, n) && l <= n
    ensures Pre(x, l) == Pre(y, l)
  {
    LowLow(x, l, n);
    LowLow(y, l, n);
    PreInjective(x, y, l);
  }

  lemma DecodeSym(lens: seq<nat>, x: nat, n: nat, s: nat)
    requires Matches(lens, s, x)
    ensures Decode(lens, x, n) == if lens[s] <= n then Sym(s) else More
  {
    forall t: nat | Matches(lens, t, x)
      ensures t == s
    {
      UniqueMatch(lens, t, s, x);
    }
  }

  /** A symbol or a refusal stays one when more bits follow. */
  lemma DecodeFed(lens: seq<nat>, x: nat, n: nat, y: nat, m: nat)
    requires CodeOk(lens) && Low(x, n) == Low(y, n) && n <= m && Decode(lens, x, n) != More
    ensures Decode(lens, y, m) == Decode(lens, x, n)
  {
    var r := Decode(lens, x, n);
    if r.Sym? {
      PreFed(x, y, lens[r.sym], n);
      assert Matches(lens, r.sym, y);
      DecodeSym(lens, y, m, r.sym);
    } else {
      NoneFed(lens, x, n, y);
    }
  }

  lemma NoneFed(lens: seq<nat>, x: nat, n: nat, y: nat)
    requires CodeOk(lens) && Low(x, n) == Low(y, n) && n >= 1 && forall s: nat :: !Matches(lens, s, x)
    ensures forall s: nat :: !Matches(lens, s, y)
  {
    if Complete(lens) {
      var s := CompleteMatch(lens, x);
      assert false;
    } else {
      forall s: nat
        ensures !Matches(lens, s, y)
      {
        assert !Matches(lens, s, x);
        if s < |lens| {
          PreFed(x, y, lens[s], n);
        }
      }
    }
  }

  // ---- One step ----

  /** A step taken is taken in the same way with more to come. */
  ghost predicate StepsAlike(s: State, o: Outcome, bytes: seq<byte>, room: nat, p: Outcome) {
    o.Next? ==> Fine(o.s) && p == Next(Feed(o.s, bytes, room))
  }

  lemma ModFed(n: nat, m: nat)
    ensures (n + 8 * m) % 8 == n % 8
  {
  }

  /** Dropping k bits and going on in mode m. */
  lemma DropAlike(s: State, k: nat, m: Mode, bytes: seq<byte>, room: nat)
    requires Fine(s) && k <= s.n && m != CodeLens && !Decoding(m)
    ensures StepsAlike(s, Next(Drop(s, k).(mode := m)), bytes, room, Next(Drop(Feed(s, bytes, room), k).(mode := m)))
  {
    hide Low, Shr, BytesOf, Pow2, CodeOk;
    DropFed(s, k, bytes, room);
  }

  lemma HeadFed(s: State, bytes: seq<byte>, room: nat)
    requires Fine(s) && s.mode == Head
    ensures StepsAlike(s, StepHead(s), bytes, room, StepHead(Feed(s, bytes, room)))
  {
    hide Low, Shr, BytesOf, Pow2, CodeOk;
    if s.wrap && s.n >= 16 {
      hide Fine, StepsAlike;
      WrapFed(s, bytes, room);
    }
  }

  lemma WrapFed(s: State, bytes: seq<byte>, room: nat)
    requires Fine(s) && s.mode == Head && s.wrap && s.n >= 16
    ensures StepsAlike(s, StepHead(s), bytes, room, StepHead(Feed(s, bytes, room)))
  {
    hide Low, Shr, BytesOf, Pow2, CodeOk, HeadVerdict;
    DropFed(s, 8, bytes, room);
    LowAbove(s, 8, 8, bytes, room);
    var v := HeadVerdict(Low(s.x, 8), Low(Shr(s.x, 8), 8));
    DropAlike(s, v.0, v.1, bytes, room);
    hide StepsAlike, Fine, Drop;
  }

  lemma TypeFed(s: State, bytes: seq<byte>, room: nat)
    requires Fine(s) && s.mode == Type
    ensures StepsAlike(s, StepType(s), bytes, room, StepType(Feed(s, bytes, room)))
  {
    hide Low, Shr, BytesOf, Pow2, CodeOk, FixedLit, FixedDist;
    ModFed(s.n, |bytes|);
    if s.last {
      DropFed(s, s.n % 8, bytes, room);
    } else {
      BlockTypeFed(s, bytes, room);
    }
  }

  lemma BlockTypeFed(s: State, bytes: seq<byte>, room: nat)
    requires Fine(s) && s.mode == Type && !s.last
    ensures StepsAlike(s, StepType(s), bytes, room, StepType(Feed(s, bytes, room)))
  {
    FixedOk();
    hide Low, Shr, BytesOf, Pow2, CodeOk, FixedLit, FixedDist;
    if s.n >= 3 {
      DropFed(s, 1, bytes, room);
      LowAbove(s, 1, 2, bytes, room);
      DropFed(s, 3, bytes, room);
    }
  }

  lemma FixedOk()
    ensures CodeOk(FixedLit()) && CodeOk(FixedDist())
  {
    StaticTrees.FixedComplete();
    hide FixedLit, FixedDist, Count;
    forall l: nat | 5 < l <= MAXBITS
      ensures Count(FixedDist(), l) == 0
    {
      StaticTrees.FixedCounts(l);
    }
    StaticTrees.FixedCounts(5);
    assert Used(FixedDist(), 5) == 2 * Used(FixedDist(), 4) + Count(FixedDist(), 5);
    assert Pow2(5) == 32;
    hide Used, Pow2;
    UsedBeyond(FixedDist(), 5, MAXBITS);
    ShlPow2(5, MAXBITS - 5);
  }

  lemma StoredFed(s: State, bytes: seq<byte>, room: nat)
    requires Fine(s) && s.mode == Stored
    ensures StepsAlike(s, StepStored(s), bytes, room, StepStored(Feed(s, bytes, room)))
  {
    hide Low, Shr, BytesOf, Pow2, CodeOk;
    ModFed(s.n, |bytes|);
    if s.n % 8 != 0 {
      DropFed(s, s.n % 8, bytes, room);
    } else if s.n >= 32 {
      StoredLenFed(s, bytes, room);
    }
  }

  lemma StoredLenFed(s: State, bytes: seq<byte>, room: nat)
    requires Fine(s) && s.mode == Stored && s.n % 8 == 0 && s.n >= 32
    ensures StepsAlike(s, StepStored(s), bytes, room, StepStored(Feed(s, bytes, room)))
  {
    hide Low, Shr, BytesOf, Pow2, CodeOk;
    ModFed(s.n, |bytes|);
    DropFed(s, 16, bytes, room);
    LowAbove(s, 16, 16, bytes, room);
    DropFed(s, 32, bytes, room);
  }

  lemma CopyFed(s: State, bytes: seq<byte>, room: nat)
    requires Fine(s) && s.mode == Copy
    ensures StepsAlike(s, StepCopy(s), bytes, room, StepCopy(Feed(s, bytes, room)))
  {
    hide Low, Shr, BytesOf, Pow2, CodeOk;
    if s.n >= 8 {
      DropFed(s, 8, bytes, room);
    }
  }

  lemma TableFed(s: State, bytes: seq<byte>, room: nat)
    requires Fine(s) && s.mode == Table
    ensures StepsAlike(s, StepTable(s), bytes, room, StepTable(Feed(s, bytes, room)))
  {
    hide Low, Shr, BytesOf, Pow2, CodeOk;
    if s.n >= 14 {
      DropFed(s, 5, bytes, room);
      LowAbove(s, 5, 5, bytes, room);
      LowAbove(s, 10, 4, bytes, room);
      DropFed(s, 14, bytes, room);
    }
  }

  lemma NotRefusedOk(typ: CodeType, lens: seq<nat>)
    ensures !Refused(typ, lens) || NoCodes(lens) ==> CodeOk(lens)
  {
  }

  lemma LenLensFed(s: State, bytes: seq<byte>, room: nat)
    requires Fine(s) && s.mode == LenLens
    ensures StepsAlike(s, StepLenLens(s), bytes, room, StepLenLens(Feed(s, bytes, room)))
  {
    hide Low, Shr, BytesOf, Pow2, CodeOk, Refused, NoCodes, ORDER;
    NotRefusedOk(CODES, s.clens);
    if s.n >= 3 {
      DropFed(s, 3, bytes, room);
    }
  }

  /** Dropping a symbol, then reading extra bits. */
  lemma SymbolFed(s: State, lens: seq<nat>, bytes: seq<byte>, room: nat)
    requires s.x < Pow2(s.n) && CodeOk(lens) && Decode(lens, s.x, s.n) != More
    ensures Decode(lens, Feed(s, bytes, room).x, s.n + 8 * |bytes|) == Decode(lens, s.x, s.n)
  {
    DropFed(s, s.n, bytes, room);
    hide Low, Shr, BytesOf, Pow2, CodeOk, Decode;
    DecodeFed(lens, s.x, s.n, Feed(s, bytes, room).x, s.n + 8 * |bytes|);
  }

  lemma LenFed(s: State, bytes: seq<byte>, room: nat)
    requires Fine(s) && s.mode == Len
    ensures StepsAlike(s, StepLen(s), bytes, room, StepLen(Feed(s, bytes, room)))
  {
    hide Low, Shr, BytesOf, Pow2, CodeOk, Decode, Complete, LenSymbol;
    var r := Decode(s.lencode, s.x, s.n);
    if r != More {
      SymbolFed(s, s.lencode, bytes, room);
      DropFed(s, if r.Sym? then s.lencode[r.sym] else 1, bytes, room);
    }
    if r.Sym? {
      SymbolsAlike(Drop(s, s.lencode[r.sym]), r.sym, bytes, room);
    }
  }

  lemma SymbolsAlike(t: State, sym: nat, bytes: seq<byte>, room: nat)
    requires t.x < Pow2(t.n) && CodeOk(t.lencode) && CodeOk(t.distcode)
    ensures LenSymbol(Feed(t, bytes, room), sym) == Feed(LenSymbol(t, sym), bytes, room) && Fine(LenSymbol(t, sym))
    ensures DistSymbol(Feed(t, bytes, room), sym) == Feed(DistSymbol(t, sym), bytes, room) && Fine(DistSymbol(t, sym))
  {
    hide BytesOf, Pow2, CodeOk, LBASE, LEXT, DBASE, DEXT;
  }

  lemma DistFed(s: State, bytes: seq<byte>, room: nat)
    requires Fine(s) && s.mode == Dist
    ensures StepsAlike(s, StepDist(s), bytes, room, StepDist(Feed(s, bytes, room)))
  {
    hide Low, Shr, BytesOf, Pow2, CodeOk, Decode, Complete, DistSymbol;
    var r := Decode(s.distcode, s.x, s.n);
    if r != More {
      SymbolFed(s, s.distcode, bytes, room);
      DropFed(s, if r.Sym? then s.distcode[r.sym] else 1, bytes, room);
    }
    if r.Sym? {
      SymbolsAlike(Drop(s, s.distcode[r.sym]), r.sym, bytes, room);
    }
  }

  lemma ExtFed(s: State, bytes: seq<byte>, room: nat)
    requires Fine(s)
    ensures s.mode == LenExt ==> StepsAlike(s, StepLenExt(s), bytes, room, StepLenExt(Feed(s, bytes, room)))
    ensures s.mode == DistExt ==> StepsAlike(s, StepDistExt(s), bytes, room, StepDistExt(Feed(s, bytes, room)))
  {
    hide Low, Shr, BytesOf, Pow2, CodeOk;
    if s.extra <= s.n {
      DropFed(s, s.extra, bytes, room);
    }
  }

  lemma OutFed(s: State, bytes: seq<byte>, room: nat)
    requires Fine(s)
    ensures s.mode == Match ==> StepsAlike(s, StepMatch(s), bytes, room, StepMatch(Feed(s, bytes, room)))
    ensures s.mode == Lit ==> StepsAlike(s, StepLit(s), bytes, room, StepLit(Feed(s, bytes, room)))
  {
    hide BytesOf, Pow2, CodeOk;
  }

  lemma CheckFed(s: State, bytes: seq<byte>, room: nat)
    requires Fine(s) && s.mode == Check
    ensures StepsAlike(s, StepCheck(s), bytes, room, StepCheck(Feed(s, bytes, room)))
  {
    hide Low, Shr, BytesOf, Pow2, CodeOk, Swap32;
    if s.n >= 32 {
      DropFed(s, 32, bytes, room);
    }
  }

  lemma CodeLensFed(s: State, bytes: seq<byte>, room: nat)
    requires Fine(s) && s.mode == CodeLens
    ensures StepsAlike(s, StepCodeLens(s), bytes, room, StepCodeLens(Feed(s, bytes, room)))
  {
    if |s.lens| < s.nlen + s.ndist {
      CodeSymFed(s, bytes, room);
    } else {
      CodesDoneFed(s, bytes, room);
    }
  }

  lemma CodesDoneFed(s: State, bytes: seq<byte>, room: nat)
    requires Fine(s) && s.mode == CodeLens && |s.lens| >= s.nlen + s.ndist
    ensures StepsAlike(s, StepCodeLens(s), bytes, room, StepCodeLens(Feed(s, bytes, room)))
  {
    hide BytesOf, Pow2, CodeOk, Refused, NoCodes, Decode;
    var l, d := s.lens[..s.nlen], s.lens[s.nlen..];
    NotRefusedOk(LENS, l);
    NotRefusedOk(DISTS, d);
  }

  lemma CodeSymFed(s: State, bytes: seq<byte>, room: nat)
    requires Fine(s) && s.mode == CodeLens && |s.lens| < s.nlen + s.ndist
    ensures StepsAlike(s, StepCodeLens(s), bytes, room, StepCodeLens(Feed(s, bytes, room)))
  {
    hide Low, Shr, BytesOf, Pow2, CodeOk, Decode, Refused, NoCodes, StepsAlike;
    var r := Decode(s.clens, s.x, s.n);
    if r.Sym? && r.sym >= 16 {
      RepeatFed(s, r.sym, bytes, room);
    } else {
      PlainFed(s, bytes, room);
    }
  }

  lemma PlainFed(s: State, bytes: seq<byte>, room: nat)
    requires Fine(s) && s.mode == CodeLens && |s.lens| < s.nlen + s.ndist
    requires var r := Decode(s.clens, s.x, s.n); r.Sym? ==> r.sym < 16
    ensures StepsAlike(s, StepCodeLens(s), bytes, room, StepCodeLens(Feed(s, bytes, room)))
  {
    hide Low, Shr, BytesOf, Pow2, CodeOk, Decode, CodeLensEnd, Repeat;
    var r := Decode(s.clens, s.x, s.n);
    if r != More {
      SymbolFed(s, s.clens, bytes, room);
      var k, v := if r.Sym? then s.clens[r.sym] else 1, if r.Sym? then r.sym else 0;
      DropFed(s, k, bytes, room);
      LengthFed(Drop(s, k), v, bytes, room);
      assert StepCodeLens(s) == Next(Drop(s, k).(lens := s.lens + [v]));
      hide Drop, Feed;
    }
  }

  lemma LengthFed(t: State, v: nat, bytes: seq<byte>, room: nat)
    requires Fine(t) && t.mode == CodeLens
    ensures Feed(t.(lens := t.lens + [v]), bytes, room) == Feed(t, bytes, room).(lens := t.lens + [v])
    ensures Fine(t.(lens := t.lens + [v]))
  {
    hide BytesOf, Pow2, CodeOk;
  }

  lemma RepeatFed(s: State, sym: nat, bytes: seq<byte>, room: nat)
    requires Fine(s) && s.mode == CodeLens && |s.lens| < s.nlen + s.ndist
    requires Decode(s.clens, s.x, s.n) == Sym(sym) && sym >= 16
    ensures StepsAlike(s, StepCodeLens(s), bytes, room, StepCodeLens(Feed(s, bytes, room)))
  {
    hide Low, Shr, BytesOf, Pow2, CodeOk, Decode, CodeLensEnd, Repeat;
    SymbolFed(s, s.clens, bytes, room);
    DropFed(s, s.clens[sym], bytes, room);
    var t := Drop(s, s.clens[sym]);
    if sym == 16 {
      var len := if s.lens != [] then s.lens[|s.lens| - 1] else 0;
      RepeatsFed(t, 2, len, 3, bytes, room);
    } else if sym == 17 {
      RepeatsFed(t, 3, 0, 3, bytes, room);
    } else {
      RepeatsFed(t, 7, 0, 11, bytes, room);
    }
  }

  /** Reading k extra bits and repeating a length. */
  lemma RepeatsFed(t: State, k: nat, len: nat, least: nat, bytes: seq<byte>, room: nat)
    requires Fine(t)
    ensures k <= t.n ==> k <= Feed(t, bytes, room).n && Low(Feed(t, bytes, room).x, k) == Low(t.x, k)
    ensures k <= t.n ==> Fine(Repeat(Drop(t, k), len, least + Low(t.x, k)))
    ensures k <= t.n ==>
      Repeat(Drop(Feed(t, bytes, room), k), len,
        least + Low(t.x, k)) == Feed(Repeat(Drop(t, k), len, least + Low(t.x, k)), bytes, room)
  {
    hide Low, Shr, BytesOf, Pow2, CodeOk, Repeat;
    if k <= t.n {
      DropFed(t, k, bytes, room);
      RepeatAlike(Drop(t, k), len, least + Low(t.x, k), bytes, room);
    }
  }

  lemma RepeatAlike(u: State, len: nat, count: nat, bytes: seq<byte>, room: nat)
    requires Fine(u)
    ensures Repeat(Feed(u, bytes, room), len, count) == Feed(Repeat(u, len, count), bytes, room)
    ensures Fine(Repeat(u, len, count))
  {
    hide BytesOf, Pow2, CodeOk;
  }

  lemma StepFed(s: State, bytes: seq<byte>, room: nat)
    requires Fine(s)
    ensures StepsAlike(s, Step(s), bytes, room, Step(Feed(s, bytes, room)))
  {
    hide StepsAlike, StepHead, StepType, StepStored, StepCopy, StepTable, StepLenLens, StepCodeLens, StepLen,
      StepLenExt,
      StepDist, StepDistExt, StepMatch, StepLit, StepCheck, Fine;
    match s.mode
    case Head => HeadFed(s, bytes, room);
    case Type => TypeFed(s, bytes, room);
    case Stored => StoredFed(s, bytes, room);
    case Copy => CopyFed(s, bytes, room);
    case Table => TableFed(s, bytes, room);
    case LenLens => LenLensFed(s, bytes, room);
    case CodeLens => CodeLensFed(s, bytes, room);
    case Len => LenFed(s, bytes, room);
    case LenExt => ExtFed(s, bytes, room);
    case Dist => DistFed(s, bytes, room);
    case DistExt => ExtFed(s, bytes, room);
    case Match => OutFed(s, bytes, room);
    case Lit => OutFed(s, bytes, room);
    case Check => CheckFed(s, bytes, room);
    case Dict => WaitAlike(s, bytes, room);
    case Done => WaitAlike(s, bytes, room);
    case Bad => WaitAlike(s, bytes, room);
  }

  lemma WaitAlike(s: State, bytes: seq<byte>, room: nat)
    ensures StepsAlike(s, Wait, bytes, room, Step(Feed(s, bytes, room)))
  {
  }

  // ---- Runs ----

  lemma {:induction false} RunFed(s: State, k: nat, bytes: seq<byte>, room: nat)
    requires Fine(s) && Run(s, k).Next?
    ensures Fine(Run(s, k).s) && Run(Feed(s, bytes, room), k) == Next(Feed(Run(s, k).s, bytes, room))
    decreases k
  {
    hide Step, Fine, Feed;
    if k != 0 {
      StepFed(s, bytes, room);
      RunFed(Step(s).s, k - 1, bytes, room);
    }
  }

  /** What a state leads to, it leads to with more to come. */
  lemma LeadsFed(s: State, t: State, bytes: seq<byte>, room: nat)
    requires Fine(s) && Leads(s, t)
    ensures Fine(t) && Leads(Feed(s, bytes, room), Feed(t, bytes, room))
  {
    hide Fine, Feed, Run;
    var k: nat :| Run(s, k) == Next(t);
    RunFed(s, k, bytes, room);
  }

  lemma FeedTwice(s: State, a: seq<byte>, b: seq<byte>, p: nat, q: nat)
    ensures Feed(Feed(s, a, p), b, q) == Feed(s, a + b, p + q)
  {
    hide Pow2, BytesOf;
    BytesCat(a, b);
    BytesValid(a);
    Pow2Add(s.n, 8 * |a|);
    MulAdd(Pow2(s.n), BytesOf(a).val, Pow2(8 * |a|) * BytesOf(b).val);
    MulAssoc(Pow2(s.n), Pow2(8 * |a|), BytesOf(b).val);
  }

  lemma FeedFine(s: State, bytes: seq<byte>, room: nat)
    requires Fine(s)
    ensures Fine(Feed(s, bytes, room))
  {
    hide Pow2, BytesOf, CodeOk;
    BytesValid(bytes);
    CatValid(BitString(s.x, s.n), BytesOf(bytes));
  }

  /** At most one state without a next step can be reached. */
  lemma {:induction false} OneEnd(s: State, a: nat, b: nat, t: State, u: State)
    requires Run(s, a) == Next(t) && Run(s, b) == Next(u) && Step(t) == Wait && Step(u) == Wait
    ensures t == u
    decreases a
  {
    hide Step;
    if a != 0 && b != 0 {
      OneEnd(Step(s).s, a - 1, b - 1, t, u);
    }
  }

  lemma OnlyEnd(s: State, t: State, u: State)
    requires Leads(s, t) && Leads(s, u) && Step(t) == Wait && Step(u) == Wait
    ensures t == u
  {
    hide Step, Run;
    var a: nat :| Run(s, a) == Next(t);
    var b: nat :| Run(s, b) == Next(u);
    OneEnd(s, a, b, t, u);
  }

  // ---- Any way of cutting ----

  datatype Chunk = Chunk(bytes: seq<byte>, room: nat)

  function AllBytes(cs: seq<Chunk>): seq<byte> {
    if cs == [] then [] else cs[0].bytes + AllBytes(cs[1..])
  }

  function AllRoom(cs: seq<Chunk>): nat {
    if cs == [] then 0 else cs[0].room + AllRoom(cs[1..])
  }

  /** Calls one after the other, each given a chunk and going as far as it can. */
  ghost predicate Drives(s: State, cs: seq<Chunk>, t: State)
    decreases |cs|
  {
    if cs == [] then s == t
    else exists m :: Leads(Feed(s, cs[0].bytes, cs[0].room), m) && Step(m) == Wait && Drives(m, cs[1..], t)
  }

  /** Calls on chunks end where one call on everything ends. */
  lemma {:induction false} DrivesAtOnce(s: State, cs: seq<Chunk>, t: State)
    requires Fine(s) && cs != [] && Drives(s, cs, t)
    ensures Leads(Feed(s, AllBytes(cs), AllRoom(cs)), t) && Step(t) == Wait
    decreases |cs|
  {
    hide Step, Fine, Feed, Leads;
    var c, rest := cs[0], cs[1..];
    var m :| Leads(Feed(s, c.bytes, c.room), m) && Step(m) == Wait && Drives(m, rest, t);
    FeedFine(s, c.bytes, c.room);
    if rest == [] {
      assert AllBytes(cs) == c.bytes + [] == c.bytes;
    } else {
      var b, r := AllBytes(rest), AllRoom(rest);
      LeadsFed(Feed(s, c.bytes, c.room), m, b, r);
      DrivesAtOnce(m, rest, t);
      FeedTwice(s, c.bytes, b, c.room, r);
      LeadsTrans(Feed(Feed(s, c.bytes, c.room), b, r), Feed(m, b, r), t);
    }
  }

  /** Two ways of cutting the same input and the same output space drive inflate to the same
      state: the same output, the same verdict, the same field to resume in. */
  lemma ChunksDoNotMatter(s: State, cs: seq<Chunk>, ds: seq<Chunk>, t: State, u: State)
    requires Fine(s) && cs != [] && ds != [] && AllBytes(cs) == AllBytes(ds) && AllRoom(cs) == AllRoom(ds)
    requires Drives(s, cs, t) && Drives(s, ds, u)
    ensures t == u
  {
    hide Step, Fine, Feed, Leads, Drives;
    DrivesAtOnce(s, cs, t);
    DrivesAtOnce(s, ds, u);
    OnlyEnd(Feed(s, AllBytes(cs), AllRoom(cs)), t, u);
  }
}
