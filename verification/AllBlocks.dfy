/** inflate.c: every block of the format is taken, and gives the output the format says. */
module AllBlocks {
  import opened Bits
  import opened Canonical
  import opened InflateTable
  import opened BitWriter
  import opened CodeLengths
  import opened InflateSpec
  import opened HeaderDecode
  import opened BlockDecode
  import opened BlockReads
  import opened Format
  import Accepted

  // ---- Symbols ----

  lemma CodeTaken(s: State, lens: seq<nat>, sym: nat, a: BitString, rest: BitString)
    requires IsCode(a, lens, sym) && Starts(s, a, rest)
    ensures Decode(lens, s.x, s.n) == Sym(sym) && lens[sym] <= s.n && Drop(s, lens[sym]) == At(s, rest)
  {
    hide Low, Shr, Cat, CodeOf;
    ReadBits(s, a, rest);
    LowSmall(a.val, a.len);
    PreInjective(s.x, a.val, a.len);
    assert Matches(lens, sym, s.x);
    forall t: nat | Matches(lens, t, s.x)
      ensures t == sym
    {
      UniqueMatch(lens, t, sym, s.x);
    }
  }

  lemma IsLengthValid(c: BitString, l: seq<nat>, length: nat)
    requires IsLength(c, l, length)
    ensures c.Valid() && length >= 3
  {
    hide Cat, Pow2, IsCode, LBASE, LEXT;
    var k: nat, a, e: nat :| LengthIs(c, l, length, k, a, e);
    Accepted.Bases(k);
    IsCodeValid(a, l, 257 + k);
    CatValid(a, BitString(e, LEXT[k] - 16));
  }

  lemma IsDistValid(c: BitString, d: seq<nat>, dist: nat)
    requires IsDist(c, d, dist)
    ensures c.Valid()
  {
    hide Cat, Pow2, IsCode, DBASE, DEXT;
    var k: nat, a, e: nat :| DistIs(c, d, dist, k, a, e);
    Accepted.DistBase(k);
    IsCodeValid(a, d, k);
    CatValid(a, BitString(e, DEXT[k] - 16));
  }

  lemma IsCodeValid(c: BitString, lens: seq<nat>, s: nat)
    requires IsCode(c, lens, s)
    ensures c.Valid()
  {
  }

  lemma IsItemValid(c: BitString, l: seq<nat>, d: seq<nat>, it: Item)
    requires IsItem(c, l, d, it)
    ensures c.Valid()
  {
    hide Cat, Pow2, IsLength, IsDist, IsCode;
    match it
    case Literal(b) => IsCodeValid(c, l, b);
    case Reference(length, dist) =>
      var a, b :| c == Cat(a, b) && IsLength(a, l, length) && IsDist(b, d, dist);
      IsLengthValid(a, l, length);
      IsDistValid(b, d, dist);
      CatValid(a, b);
  }

  /** The second part of a bit string whose first part is valid. */
  lemma SecondValid(a: BitString, b: BitString)
    requires Cat(a, b).Valid() && a.Valid()
    ensures b.Valid()
  {
    Pow2Add(a.len, b.len);
    if b.val >= Pow2(b.len) {
      MulMono(Pow2(a.len), Pow2(b.len), b.val);
    }
  }

  lemma Split(s: State, a: BitString, b: BitString, rest: BitString)
    requires a.Valid() && Starts(s, Cat(a, b), rest)
    ensures b.Valid() && Starts(s, a, Cat(b, rest))
  {
    hide Cat, Pow2;
    SecondValid(a, b);
    StartsSplit(s, a, b, rest);
  }

  lemma LengthTaken(s: State, c: BitString, length: nat, rest: BitString) returns (t: State)
    requires s.mode == Len && IsLength(c, s.lencode, length) && Starts(s, c, rest)
    ensures Leads(s, t) && t == At(s, rest).(mode := Dist, length := length, extra := t.extra)
  {
    hide Step, Decode, Shr, Pow2, Low, Leads, Cat, IsCode, LBASE, LEXT;
    var k: nat, a, e: nat :| LengthIs(c, s.lencode, length, k, a, e);
    Accepted.Bases(k);
    IsCodeValid(a, s.lencode, 257 + k);
    var x := BitString(e, LEXT[k] - 16);
    StartsSplit(s, a, x, rest);
    CodeTaken(s, s.lencode, 257 + k, a, Cat(x, rest));
    var u := LengthStep(s, k, Cat(x, rest));
    t := LengthExtraStep(u, x, rest, length);
    LeadsSelf(t);
    LeadsStep(u, t, t);
    LeadsStep(s, u, t);
  }

  lemma LengthStep(s: State, k: nat, rest: BitString) returns (u: State)
    requires s.mode == Len && k < 29 && |LBASE| > k && |LEXT| > k && LEXT[k] >= 16
    requires Decode(s.lencode, s.x, s.n) == Sym(257 + k) && 257 + k < |s.lencode| && s.lencode[257 + k] <= s.n
    requires Drop(s, s.lencode[257 + k]) == At(s, rest)
    ensures Step(s) == Next(u) && u == At(s, rest).(mode := LenExt, length := LBASE[k], extra := LEXT[k] - 16)
  {
    hide Decode, Shr, LBASE, LEXT;
    u := At(s, rest).(mode := LenExt, length := LBASE[k], extra := LEXT[k] - 16);
    assert Step(s) == StepLen(s);
  }

  lemma DistTaken(s: State, c: BitString, dist: nat, rest: BitString) returns (t: State)
    requires s.mode == Dist && IsDist(c, s.distcode, dist) && Starts(s, c, rest)
    ensures Leads(s, t) && t == At(s, rest).(mode := Match, offset := dist, extra := t.extra)
  {
    hide Step, Decode, Shr, Pow2, Low, Leads, Cat, IsCode, DBASE, DEXT;
    var k: nat, a, e: nat :| DistIs(c, s.distcode, dist, k, a, e);
    Accepted.DistBase(k);
    IsCodeValid(a, s.distcode, k);
    var x := BitString(e, DEXT[k] - 16);
    StartsSplit(s, a, x, rest);
    CodeTaken(s, s.distcode, k, a, Cat(x, rest));
    var u := DistStep(s, k, Cat(x, rest));
    t := DistExtraStep(u, x, rest, dist);
    LeadsSelf(t);
    LeadsStep(u, t, t);
    LeadsStep(s, u, t);
  }

  lemma DistStep(s: State, k: nat, rest: BitString) returns (u: State)
    requires s.mode == Dist && k < 30 && |DBASE| > k && |DEXT| > k && DEXT[k] >= 16
    requires Decode(s.distcode, s.x, s.n) == Sym(k) && k < |s.distcode| && s.distcode[k] <= s.n
    requires Drop(s, s.distcode[k]) == At(s, rest)
    ensures Step(s) == Next(u) && u == At(s, rest).(mode := DistExt, offset := DBASE[k], extra := DEXT[k] - 16)
  {
    hide Decode, Shr, DBASE, DEXT;
    u := At(s, rest).(mode := DistExt, offset := DBASE[k], extra := DEXT[k] - 16);
    assert Step(s) == StepDist(s);
  }

  lemma LiteralTaken(s: State, c: BitString, b: byte, rest: BitString) returns (t: State)
    requires s.mode == Len && s.room > 0 && IsCode(c, s.lencode, b) && Starts(s, c, rest)
    ensures Leads(s, t) && ReadOn(s, t, s.out + [b], rest)
  {
    hide Step, Decode, Shr, Leads, Cat, Pow2, CodeOf;
    CodeTaken(s, s.lencode, b, c, rest);
    var u := At(s, rest).(mode := Lit, length := b);
    t := u.(mode := Len, room := u.room - 1, out := u.out + [b]);
    LiteralSteps(s, b, u);
    LeadsSelf(t);
    LeadsStep(u, t, t);
    LeadsStep(s, u, t);
  }

  lemma ItemTaken(s: State, c: BitString, it: Item, rest: BitString) returns (t: State)
    requires s.mode == Len && IsItem(c, s.lencode, s.distcode, it) && FitsOne(s.out, it) && Starts(s, c, rest)
    requires |ExpandOne(s.out, it)| - |s.out| <= s.room
    ensures Leads(s, t) && ReadOn(s, t, ExpandOne(s.out, it), rest)
  {
    hide Leads, Cat, Pow2, IsLength, IsDist, IsCode;
    match it
    case Literal(b) => t := LiteralTaken(s, c, b, rest);
    case Reference(length, dist) => t := ReferenceTaken(s, c, length, dist, rest);
  }

  lemma ReferenceTaken(s: State, c: BitString, length: nat, dist: nat, rest: BitString) returns (t: State)
    requires s.mode == Len && IsItem(c, s.lencode, s.distcode, Reference(length, dist)) && Starts(s, c, rest)
    requires 1 <= dist <= |s.out| && length <= s.room
    ensures Leads(s, t) && ReadOn(s, t, CopyBack(s.out, length, dist), rest)
  {
    hide Leads, Cat, Pow2, IsLength, IsDist, CopyBack;
    var a, b :| c == Cat(a, b) && IsLength(a, s.lencode, length) && IsDist(b, s.distcode, dist);
    IsLengthValid(a, s.lencode, length);
    Split(s, a, b, rest);
    var u := LengthTaken(s, a, length, Cat(b, rest));
    var v := DistTaken(u, b, dist, rest);
    t := MatchRun(v);
    LeadsTrans(u, v, t);
    LeadsTrans(s, u, t);
  }

  /** The body of a block. */
  lemma {:induction false} BodyTaken(s: State, c: BitString, items: seq<Item>, rest: BitString) returns (t: State)
    requires s.mode == Len && IsBody(c, s.lencode, s.distcode, items) && Fits(s.out, items) && Starts(s, c, rest)
    requires |Expand(s.out, items)| - |s.out| <= s.room
    ensures Leads(s, t) && ReadOn(s.(mode := Type), t, Expand(s.out, items), rest)
    decreases |items|
  {
    hide Leads, Cat, Pow2, IsItem, IsCode, ExpandOne;
    if items == [] {
      t := EndTaken(s, c, rest);
    } else {
      var a, b :| c == Cat(a, b) && IsItem(a, s.lencode, s.distcode, items[0]) &&
        IsBody(b, s.lencode, s.distcode, items[1..]);
      IsItemValid(a, s.lencode, s.distcode, items[0]);
      Split(s, a, b, rest);
      ExpandGrows(ExpandOne(s.out, items[0]), items[1..]);
      var u := ItemTaken(s, a, items[0], Cat(b, rest));
      t := BodyTaken(u, b, items[1..], rest);
      LeadsTrans(s, u, t);
    }
  }

  lemma EndTaken(s: State, c: BitString, rest: BitString) returns (t: State)
    requires s.mode == Len && IsCode(c, s.lencode, 256) && Starts(s, c, rest)
    ensures Leads(s, t) && t == At(s, rest).(mode := Type)
  {
    hide Decode, Shr, Cat, Pow2, CodeOf, Leads;
    CodeTaken(s, s.lencode, 256, c, rest);
    t := At(s, rest).(mode := Type);
    assert Step(s) == StepLen(s) == Next(t);
    LeadsSelf(t);
    LeadsStep(s, t, t);
  }

  // ---- The header of a dynamic block ----

  lemma IsTokenValid(c: BitString, clens: seq<nat>, tok: Token)
    requires IsToken(c, clens, tok)
    ensures c.Valid()
  {
    hide Cat, Pow2, IsCode;
    var a :| TokenIs(c, clens, tok, a);
    IsCodeValid(a, clens, tok.sym);
    CatValid(a, BitString(tok.extra, ExtraBits(tok.sym)));
  }

  lemma TokenTaken(s: State, c: BitString, tok: Token, rest: BitString)
    requires s.mode == CodeLens && IsToken(c, s.clens, tok) && (tok.sym == REP_3_6 ==> s.lens != [])
    requires Starts(s, c, rest) && |Apply(s.lens, tok)| <= s.nlen + s.ndist
    ensures Step(s) == Next(At(s, rest).(lens := Apply(s.lens, tok)))
  {
    hide Cat, Pow2, Low, Shr, Decode, Step, Apply, IsCode;
    var a :| TokenIs(c, s.clens, tok, a);
    IsCodeValid(a, s.clens, tok.sym);
    var extra := BitString(tok.extra, ExtraBits(tok.sym));
    StartsSplit(s, a, extra, rest);
    CodeTaken(s, s.clens, tok.sym, a, Cat(extra, rest));
    IsCodeThere(a, s.clens, tok.sym);
    var u := Drop(s, s.clens[tok.sym]);
    ReadBits(u, extra, rest);
    if tok.sym < REP_3_6 {
      NoExtra(extra, rest);
    }
    TokenMeans(s, tok, rest);
  }

  lemma IsCodeThere(c: BitString, lens: seq<nat>, s: nat)
    requires IsCode(c, lens, s)
    ensures s < |lens| && lens[s] == c.len
  {
  }

  lemma {:induction false} TokensTaken(s: State, c: BitString, ts: seq<Token>, rest: BitString)
    requires s.mode == CodeLens && AreTokens(c, s.clens, ts) && Legal(s.lens, ts) && Starts(s, c, rest)
    requires |ApplyAll(s.lens, ts)| <= s.nlen + s.ndist
    ensures Leads(s, At(s, rest).(lens := ApplyAll(s.lens, ts)))
    decreases |ts|
  {
    hide Cat, Pow2, Apply, Step, Leads, IsToken;
    if ts == [] {
      CatEmpty(rest);
      assert At(s, rest).(lens := ApplyAll(s.lens, ts)) == s;
      LeadsSelf(s);
    } else {
      var a, b :| c == Cat(a, b) && IsToken(a, s.clens, ts[0]) && AreTokens(b, s.clens, ts[1..]);
      IsTokenValid(a, s.clens, ts[0]);
      Split(s, a, b, rest);
      ApplyAllLen(Apply(s.lens, ts[0]), ts[1..]);
      TokenTaken(s, a, ts[0], Cat(b, rest));
      var u := At(s, Cat(b, rest)).(lens := Apply(s.lens, ts[0]));
      TokensTaken(u, b, ts[1..], rest);
      LeadsStep(s, u, At(s, rest).(lens := ApplyAll(s.lens, ts)));
    }
  }

  /** A code that can be read is not refused. */
  lemma ReadableTaken(typ: CodeType, lens: seq<nat>)
    requires Readable(lens) && typ != CODES
    ensures !Refused(typ, lens)
  {
  }

  /** All lengths are in. */
  lemma CodesTaken(u: State, l: seq<nat>, d: seq<nat>)
    requires u.mode == CodeLens && u.nlen == |l| && u.ndist == |d| && u.lens == l + d && !u.limited
    requires 257 <= |l| && l[256] != 0 && Readable(l) && Readable(d)
    ensures Step(u) == Next(u.(mode := Len, lencode := l, distcode := d))
  {
    hide Readable, Refused;
    ReadableTaken(LENS, l);
    ReadableTaken(DISTS, d);
    assert (l + d)[..|l|] == l && (l + d)[|l|..] == d && (l + d)[256] == l[256];
  }

  /** Only the stream, the codes and the fields that a header uses change. */
  ghost predicate HeaderTo(s: State, t: State, l: seq<nat>, d: seq<nat>, rest: BitString) {
    t == At(s, rest).(mode := Len, nlen := t.nlen, ndist := t.ndist, ncode := t.ncode, have := t.have,
                      clens := t.clens, lens := t.lens, lencode := l, distcode := d)
  }

  lemma HeaderTaken(s: State, c: BitString, l: seq<nat>, d: seq<nat>, rest: BitString) returns (t: State)
    requires s.mode == Table && !s.limited && IsHeader(c, l, d) && Starts(s, c, rest)
    ensures Leads(s, t) && HeaderTo(s, t, l, d, rest)
  {
    hide Cat, Pow2, LenLensBits, CountBits, Step, Leads, AreTokens, ApplyAll, Legal, Readable, Complete, PLACE, ORDER;
    var p :| HeaderIs(c, l, d, p);
    var a, b := CountBits(|l|, |d|, p.ncode), LenLensBits(p.clens, 0, p.ncode);
    CountIsValid(|l|, |d|, p.ncode);
    LenLensValid(p.clens, 0, p.ncode);
    CompleteNotRefused(CODES, p.clens);
    Split(s, a, Cat(b, p.t), rest);
    CountStep(s, |l|, |d|, p.ncode, Cat(Cat(b, p.t), rest));
    var u := At(s, Cat(Cat(b, p.t), rest)).(mode := LenLens, nlen := |l|, ndist := |d|, ncode := p.ncode,
                                            clens := ZEROS, lens := [], have := 0);
    SecondValid(b, p.t);
    CodeLengthsKnown(u, p.clens, p.t, rest);
    var v := At(u, Cat(p.t, rest)).(have := p.ncode, clens := p.clens, mode := CodeLens);
    t := LengthsTaken(v, p.t, p.ts, l, d, rest);
    LeadsTrans(u, v, t);
    LeadsStep(s, u, t);
  }

  lemma CountIsValid(nlen: nat, ndist: nat, ncode: nat)
    requires 257 <= nlen <= 286 && 1 <= ndist <= 30 && 4 <= ncode <= 19
    ensures CountBits(nlen, ndist, ncode).Valid()
  {
    CountValid(BitString(nlen - 257, 5), BitString(ndist - 1, 5), BitString(ncode - 4, 4));
  }

  lemma LengthsTaken(s: State, c: BitString, ts: seq<Token>, l: seq<nat>, d: seq<nat>, rest: BitString)
      returns (t: State)
    requires s.mode == CodeLens && s.lens == [] && s.nlen == |l| >= 257 && s.ndist == |d| && !s.limited
    requires AreTokens(c, s.clens, ts) && Legal([], ts) && ApplyAll([], ts) == l + d && Starts(s, c, rest)
    requires l[256] != 0 && Readable(l) && Readable(d)
    ensures Leads(s, t) && t == At(s, rest).(mode := Len, lens := l + d, lencode := l, distcode := d)
  {
    hide Cat, Pow2, Step, Leads, AreTokens, ApplyAll, Legal, Readable;
    TokensTaken(s, c, ts, rest);
    var u := At(s, rest).(lens := l + d);
    CodesTaken(u, l, d);
    t := u.(mode := Len, lencode := l, distcode := d);
    LeadsSelf(t);
    LeadsStep(u, t, t);
    LeadsTrans(s, u, t);
  }

  // ---- Blocks ----

  /** From s to t the output has grown to out, and rest is left. */
  ghost predicate Took(s: State, t: State, out: seq<byte>, rest: BitString) {
    && t.wrap == s.wrap && t.limited == s.limited && t.x == rest.val && t.n == rest.len
    && t.out == out && t.room + |out| == s.room + |s.out|
  }

  lemma GivesTaken(s: State, c: BitString, items: seq<Item>, out: seq<byte>, rest: BitString) returns (t: State)
    requires s.mode == Len && CodesGive(c, s.lencode, s.distcode, items, s.out, out) && Starts(s, c, rest)
    requires |out| <= s.room + |s.out|
    ensures Leads(s, t) && t.mode == Type && t.last == s.last && Took(s, t, out, rest)
  {
    hide Leads, Cat, Pow2, IsBody, Fits, Expand;
    t := BodyTaken(s, c, items, rest);
  }

  lemma DynamicTaken(s: State, c: BitString, out: seq<byte>, rest: BitString) returns (t: State)
    requires s.mode == Table && !s.limited && (exists h, b, l, d, items :: DynamicIs(c, h, b, l, d, items, s.out, out))
    requires Starts(s, c, rest) && |out| <= s.room + |s.out|
    ensures Leads(s, t) && t.mode == Type && t.last == s.last && Took(s, t, out, rest)
  {
    hide Leads, Cat, Pow2, CodesGive, IsHeader;
    var h, b, l, d, items :| DynamicIs(c, h, b, l, d, items, s.out, out);
    IsHeaderValid(h, l, d);
    Split(s, h, b, rest);
    var u := HeaderTaken(s, h, l, d, Cat(b, rest));
    t := GivesTaken(u, b, items, out, rest);
    LeadsTrans(s, u, t);
  }

  lemma IsHeaderValid(c: BitString, l: seq<nat>, d: seq<nat>)
    requires IsHeader(c, l, d)
    ensures c.Valid()
  {
  }

  lemma StoredTaken(s: State, c: BitString, data: seq<byte>, start: nat, rest: BitString) returns (t: State)
    requires s.mode == Stored && IsStored(c, start, data) && Starts(s, c, rest) && |data| <= s.room
    requires (s.n + start) % 8 == 0
    ensures Leads(s, t) && t.mode == Type && t.last == s.last && Took(s, t, s.out + data, rest)
  {
    hide Leads, Cat, Pow2, BytesOf, LenBits, Step, Pad;
    var pad :| StoredIs(c, start, data, pad);
    StoredValid(data, pad);
    CatLen(c, rest);
    StoredAligned(start, |data|, rest.len, s.n);
    t := StoredRun(s, pad, data, rest);
  }

  lemma StoredAligned(start: nat, d: nat, rest: nat, n: nat)
    requires n == Pad(start) + 32 + 8 * d + rest && (n + start) % 8 == 0
    ensures rest % 8 == 0 && n % 8 == Pad(start)
  {
    PadFills(start);
    hide Pad;
    var p := Pad(start);
    var q, k := (start + p) / 8, (n + start) / 8;
    assert rest == 8 * (k - q - 4 - d);
    assert n == p + 8 * (k - q);
  }

  lemma ContentTaken(s: State, c: BitString, kind: nat, start: nat, out: seq<byte>, rest: BitString) returns (t: State)
    requires IsContent(c, kind, start, s.out, out) && Starts(s, c, rest) && !s.limited && kind < 3
    requires s.mode == if kind == 0 then Stored else if kind == 1 then Len else Table
    requires kind == 1 ==> s.lencode == FixedLit() && s.distcode == FixedDist()
    requires (s.n + start) % 8 == 0 && |out| <= s.room + |s.out|
    ensures Leads(s, t) && t.mode == Type && t.last == s.last && Took(s, t, out, rest)
  {
    hide Leads, Cat, Pow2, CodesGive, DynamicIs, IsStored, FixedLit, FixedDist;
    if kind == 0 {
      var data :| IsStored(c, start, data) && out == s.out + data;
      t := StoredTaken(s, c, data, start, rest);
    } else if kind == 1 {
      var items :| CodesGive(c, FixedLit(), FixedDist(), items, s.out, out);
      t := GivesTaken(s, c, items, out, rest);
    } else {
      t := DynamicTaken(s, c, out, rest);
    }
  }

  lemma BlockTaken(s: State, c: BitString, start: nat, last: bool, out: seq<byte>, rest: BitString) returns (t: State)
    requires s.mode == Type && !s.last && !s.limited && IsBlock(c, start, last, s.out, out) && Starts(s, c, rest)
    requires (s.n + start) % 8 == 0 && |out| <= s.room + |s.out|
    ensures Leads(s, t) && t.mode == Type && t.last == last && Took(s, t, out, rest)
  {
    hide Leads, Cat, Pow2, IsContent, FixedLit, FixedDist, Step, TypeBits;
    var kind, b :| BlockIs(c, start, last, s.out, out, kind, b);
    TypeValid(kind, last);
    Split(s, TypeBits(kind, last), b, rest);
    TypeStep(s, kind, last, Cat(b, rest));
    var u := Step(s).s;
    TypeLen(kind, last, Cat(b, rest));
    t := ContentTaken(u, b, kind, start + 3, out, rest);
    LeadsStep(s, u, t);
  }

  lemma TypeLen(kind: nat, last: bool, rest: BitString)
    ensures Cat(TypeBits(kind, last), rest).len == 3 + rest.len
  {
  }

  lemma IsBlockValid(c: BitString, start: nat, last: bool, out: seq<byte>, out2: seq<byte>)
    requires IsBlock(c, start, last, out, out2)
    ensures c.Valid()
  {
  }

  /** No block takes output back. */
  lemma BlockGrows(c: BitString, start: nat, last: bool, out: seq<byte>, out2: seq<byte>)
    requires IsBlock(c, start, last, out, out2)
    ensures |out| <= |out2|
  {
    hide Cat, Pow2, IsHeader, IsBody, IsStored, Fits, Expand;
    var kind, b :| BlockIs(c, start, last, out, out2, kind, b);
    if kind == 2 {
      var h, x, l, d, items :| DynamicIs(b, h, x, l, d, items, out, out2);
    }
  }

  lemma {:induction false} BlocksGrow(c: BitString, start: nat, out: seq<byte>, out2: seq<byte>, n: nat)
    requires AreBlocks(c, start, out, out2, n)
    ensures |out| <= |out2| && c.Valid()
    decreases n
  {
    hide Cat, Pow2, IsBlock;
    if n == 0 {
      BlockGrows(c, start, true, out, out2);
      IsBlockValid(c, start, true, out, out2);
    } else {
      var a, b, mid :| BlocksGo(c, start, out, out2, n, a, b, mid);
      BlockGrows(a, start, false, out, mid);
      IsBlockValid(a, start, false, out, mid);
      BlocksGrow(b, start + a.len, mid, out2, n - 1);
      CatValid(a, b);
    }
  }

  /** All blocks, up to the last one. */
  lemma {:induction false} BlocksTaken(s: State, c: BitString, start: nat, out: seq<byte>, n: nat, rest: BitString)
      returns (t: State)
    requires s.mode == Type && !s.last && !s.limited && AreBlocks(c, start, s.out, out, n) && Starts(s, c, rest)
    requires (s.n + start) % 8 == 0 && |out| <= s.room + |s.out|
    ensures Leads(s, t) && t.mode == Type && t.last && Took(s, t, out, rest)
    decreases n
  {
    hide Leads, Cat, Pow2, IsBlock, Step;
    if n == 0 {
      t := BlockTaken(s, c, start, true, out, rest);
    } else {
      var a, b, mid :| BlocksGo(c, start, s.out, out, n, a, b, mid);
      IsBlockValid(a, start, false, s.out, mid);
      BlocksGrow(b, start + a.len, mid, out, n - 1);
      Split(s, a, b, rest);
      var u := BlockTaken(s, a, start, false, mid, Cat(b, rest));
      CatLen(a, Cat(b, rest));
      t := BlocksTaken(u, b, start + a.len, out, n - 1, rest);
      LeadsTrans(s, u, t);
    }
  }
}
