/** inflate.c: a stream that inflate ends well is one of the format, and its output is what the
    format says. */
module Accepted {
  import opened Bits
  import opened Canonical
  import opened InflateTable
  import opened BitWriter
  import opened InflateSpec
  import opened BlockDecode
  import opened Format

  // ---- Runs that end well ----

  /** After k steps from s the stream is done. */
  ghost predicate Goes(s: State, t: State, k: nat) {
    Run(s, k) == Next(t) && t.mode == Done
  }

  lemma StepOn(s: State, t: State, k: nat)
    requires Goes(s, t, k) && s.mode != Done
    ensures k > 0 && Step(s).Next? && Goes(Step(s).s, t, k - 1)
  {
  }

  lemma NeverBad(s: State, t: State, k: nat)
    requires Goes(s, t, k)
    ensures s.mode != Bad && s.mode != Dict
  {
  }

  ghost predicate Held(s: State) {
    s.x < Pow2(s.n)
  }

  /** From s to u exactly the bits c are taken. */
  ghost predicate Takes(s: State, c: BitString, u: State) {
    c.Valid() && Held(u) && BitString(s.x, s.n) == Cat(c, BitString(u.x, u.n))
  }

  lemma TakesNone(s: State, u: State)
    requires Held(s) && u.x == s.x && u.n == s.n
    ensures Takes(s, EMPTY, u)
  {
    CatEmpty(BitString(s.x, s.n));
  }

  lemma TakesDrop(s: State, k: nat)
    requires Held(s) && k <= s.n
    ensures Takes(s, BitString(Low(s.x, k), k), Drop(s, k))
  {
    LowShr(s.x, k);
    HighPart(s.x, s.n, k);
  }

  lemma TakesCat(s: State, c: BitString, u: State, d: BitString, v: State)
    requires Takes(s, c, u) && Takes(u, d, v)
    ensures Takes(s, Cat(c, d), v)
  {
    hide Pow2, Cat;
    CatAssoc(c, d, BitString(v.x, v.n));
    CatValid(c, d);
  }

  lemma TakesSame(s: State, c: BitString, u: State, s2: State, u2: State)
    requires Takes(s, c, u) && s2.x == s.x && s2.n == s.n && u2.x == u.x && u2.n == u.n
    ensures Takes(s2, c, u2)
  {
  }

  /** Only the stream, the output and what belongs to a symbol change. */
  ghost predicate SameBlock(s: State, u: State) {
    && u.wrap == s.wrap && u.limited == s.limited && u.last == s.last
    && u.lencode == s.lencode && u.distcode == s.distcode
  }

  // ---- Symbols ----

  /** A symbol that was decoded. */
  lemma SymTaken(s: State, lens: seq<nat>, sym: nat)
    requires Held(s) && Decode(lens, s.x, s.n) == Sym(sym)
    ensures sym < |lens| && lens[sym] <= s.n
    ensures var c := BitString(Low(s.x, lens[sym]), lens[sym]);
      IsCode(c, lens, sym) && Takes(s, c, Drop(s, lens[sym]))
  {
    var l := lens[sym];
    hide Low, Shr, Pow2, Decode;
    DecodeIs(lens, s.x, s.n, sym);
    LowLow(s.x, l, l);
    TakesDrop(s, l);
    PreInjective(Low(s.x, l), s.x, l);
  }

  lemma DecodeIs(lens: seq<nat>, x: nat, n: nat, sym: nat)
    requires Decode(lens, x, n) == Sym(sym)
    ensures Matches(lens, sym, x) && lens[sym] <= n
  {
  }

  lemma LenSymSound(s: State, t: State, k: nat) returns (sym: nat, c: BitString, u: State)
    requires s.mode == Len && Held(s) && Goes(s, t, k)
    ensures k > 0 && sym < 286 && IsCode(c, s.lencode, sym) && Takes(s, c, u)
    ensures u == LenSymbol(Drop(s, s.lencode[sym]), sym) && c.len <= s.n && Goes(u, t, k - 1)
  {
    hide Decode, Low, Shr, Pow2, IsCode;
    StepOn(s, t, k);
    assert Step(s) == StepLen(s);
    u := Step(s).s;
    NeverBad(u, t, k - 1);
    sym := Decode(s.lencode, s.x, s.n).sym;
    SymTaken(s, s.lencode, sym);
    c := BitString(Low(s.x, s.lencode[sym]), s.lencode[sym]);
    TakesSame(s, c, Drop(s, s.lencode[sym]), s, u);
  }

  lemma DistSymSound(s: State, t: State, k: nat) returns (sym: nat, c: BitString, u: State)
    requires s.mode == Dist && Held(s) && Goes(s, t, k)
    ensures k > 0 && sym < 30 && IsCode(c, s.distcode, sym) && Takes(s, c, u)
    ensures u == DistSymbol(Drop(s, s.distcode[sym]), sym) && c.len <= s.n && Goes(u, t, k - 1)
  {
    hide Decode, Low, Shr, Pow2, IsCode;
    StepOn(s, t, k);
    assert Step(s) == StepDist(s);
    u := Step(s).s;
    NeverBad(u, t, k - 1);
    sym := Decode(s.distcode, s.x, s.n).sym;
    SymTaken(s, s.distcode, sym);
    c := BitString(Low(s.x, s.distcode[sym]), s.distcode[sym]);
    TakesSame(s, c, Drop(s, s.distcode[sym]), s, u);
  }

  lemma ExtraSound(s: State, t: State, k: nat) returns (e: nat, u: State)
    requires (s.mode == LenExt || s.mode == DistExt) && Held(s) && Goes(s, t, k)
    ensures k > 0 && e < Pow2(s.extra) && Takes(s, BitString(e, s.extra), u) && Goes(u, t, k - 1) && s.extra <= s.n
    ensures s.mode == LenExt ==> u == Drop(s, s.extra).(mode := Dist, length := s.length + e)
    ensures s.mode == DistExt ==> u == Drop(s, s.extra).(mode := Match, offset := s.offset + e)
  {
    StepOn(s, t, k);
    e := Low(s.x, s.extra);
    u := Step(s).s;
    hide Low, Shr, Pow2;
    LowShr(s.x, s.extra);
    TakesDrop(s, s.extra);
    TakesSame(s, BitString(e, s.extra), Drop(s, s.extra), s, u);
  }

  lemma LiteralSound(s: State, t: State, k: nat) returns (u: State)
    requires s.mode == Lit && s.length < 256 && Goes(s, t, k)
    ensures k > 0 && u == s.(mode := Len, room := u.room, out := s.out + [s.length]) && Goes(u, t, k - 1)
  {
    StepOn(s, t, k);
    u := Step(s).s;
  }

  lemma {:induction false} MatchSound(s: State, t: State, k: nat) returns (u: State, j: nat)
    requires s.mode == Match && s.length >= 1 && Goes(s, t, k)
    ensures j < k && Goes(u, t, j) && 1 <= s.offset <= |s.out|
    ensures u == s.(mode := Len, length := 0, room := u.room, out := CopyBack(s.out, s.length, s.offset))
    decreases s.length
  {
    hide Step, Run, CopyBack;
    StepOn(s, t, k);
    u, j := Step(s).s, k - 1;
    NeverBad(u, t, j);
    MatchStep(s, u);
    if s.length > 1 {
      u, j := MatchSound(u, t, j);
    }
  }

  lemma MatchStep(s: State, u: State)
    requires s.mode == Match && s.length >= 1 && Step(s) == Next(u) && u.mode != Bad
    ensures 1 <= s.offset <= |s.out|
    ensures var out := s.out + [s.out[|s.out| - s.offset]];
      && CopyBack(s.out, s.length, s.offset) == CopyBack(out, s.length - 1, s.offset)
      && (s.length == 1 ==> CopyBack(out, 0, s.offset) == out)
      && u == s.(mode := if s.length == 1 then Len else Match, length := s.length - 1, room := u.room, out := out)
  {
    assert Step(s) == StepMatch(s);
  }

  /** A length, once its code is known. */
  lemma LengthSound(s: State, sym: nat, a: BitString, v: State, t: State, k: nat) returns (length: nat, c: BitString,
                                                                                           u: State)
    requires Takes(s, a, v) && 256 < sym < 286 && IsCode(a, s.lencode, sym) && Goes(v, t, k) && Held(v)
    requires v.mode == LenExt && v.length == LBASE[sym - 257] && v.extra == LEXT[sym - 257] - 16
    ensures k > 0 && Goes(u, t, k - 1) && Takes(s, c, u) && IsLength(c, s.lencode, length) && length >= 3
    ensures u == v.(x := u.x, n := u.n, mode := Dist, length := length)
  {
    hide Low, Shr, Pow2, IsCode, Cat, Goes, LBASE, LEXT;
    Bases(sym - 257);
    var e;
    e, u := ExtraSound(v, t, k);
    length := LBASE[sym - 257] + e;
    var x := BitString(e, v.extra);
    TakesCat(s, a, v, x, u);
    c := Cat(a, x);
    assert LengthIs(c, s.lencode, length, sym - 257, a, e);
  }

  lemma Bases(k: nat)
    requires k < 29
    ensures |LBASE| > k && |LEXT| > k && LBASE[k] >= 3 && LEXT[k] >= 16
  {
  }

  /** A distance. */
  lemma DistSound(s: State, t: State, k: nat) returns (dist: nat, c: BitString, u: State)
    requires s.mode == Dist && Held(s) && Goes(s, t, k)
    ensures k > 1 && Goes(u, t, k - 2) && Takes(s, c, u) && IsDist(c, s.distcode, dist)
    ensures u == s.(x := u.x, n := u.n, mode := Match, offset := dist, extra := u.extra)
  {
    hide Low, Shr, Pow2, IsCode, Cat, Goes, DBASE, DEXT;
    var sym, a, v := DistSymSound(s, t, k);
    DistBase(sym);
    var e;
    e, u := ExtraSound(v, t, k - 1);
    dist := DBASE[sym] + e;
    var x := BitString(e, v.extra);
    TakesCat(s, a, v, x, u);
    c := Cat(a, x);
    assert DistIs(c, s.distcode, dist, sym, a, e);
  }

  lemma DistBase(k: nat)
    requires k < 30
    ensures |DBASE| > k && |DEXT| > k && DBASE[k] >= 1 && DEXT[k] >= 16
  {
    hide DBASE;
    DistFrom(k);
  }

  lemma DistFrom(k: nat)
    requires k < 30
    ensures |DBASE| > k && DBASE[k] >= 1
  {
  }

  /** A length and a distance, and the bytes they stand for. */
  lemma ReferenceSound(s: State, sym: nat, a: BitString, v: State, t: State, k: nat)
      returns (it: Item, c: BitString, u: State, j: nat)
    requires Takes(s, a, v) && 256 < sym < 286 && IsCode(a, s.lencode, sym) && Goes(v, t, k) && Held(v)
    requires v.mode == LenExt && v.length == LBASE[sym - 257] && v.extra == LEXT[sym - 257] - 16
    requires SameBlock(s, v) && v.out == s.out
    ensures j < k && Goes(u, t, j) && Takes(s, c, u) && u.mode == Len && SameBlock(s, u)
    ensures IsItem(c, s.lencode, s.distcode, it) && FitsOne(s.out, it) && u.out == ExpandOne(s.out, it)
  {
    hide Pow2, IsCode, Cat, CopyBack, Goes, IsLength, IsDist, LBASE, LEXT;
    var length, x, s2 := LengthSound(s, sym, a, v, t, k);
    var dist, y, s3 := DistSound(s2, t, k - 1);
    u, j := MatchSound(s3, t, k - 3);
    it := Reference(length, dist);
    c := Cat(x, y);
    TakesCat(s, x, s2, y, s3);
    TakesSame(s, c, s3, s, u);
  }

  /** One symbol of a block: its end, or an item. */
  lemma SymbolSound(s: State, t: State, k: nat) returns (end: bool, it: Item, c: BitString, u: State, j: nat)
    requires s.mode == Len && Held(s) && Goes(s, t, k)
    ensures j < k && Goes(u, t, j) && Takes(s, c, u) && SameBlock(s, u)
    ensures end ==> u.mode == Type && u.out == s.out && IsCode(c, s.lencode, 256)
    ensures !end ==> u.mode == Len && IsItem(c, s.lencode, s.distcode, it)
    ensures !end ==> FitsOne(s.out, it) && u.out == ExpandOne(s.out, it)
  {
    hide Low, Shr, Pow2, IsCode, Cat, CopyBack, Goes, IsLength, IsDist, LBASE, LEXT;
    var sym;
    sym, c, u := LenSymSound(s, t, k);
    end, it, j := sym == 256, Literal(0), k - 1;
    if sym < 256 {
      it := Literal(sym);
      var v := u;
      u := LiteralSound(v, t, k - 1);
      j := k - 2;
      TakesSame(s, c, v, s, u);
    } else if sym > 256 {
      it, c, u, j := ReferenceSound(s, sym, c, u, t, k - 1);
    }
  }

  /** The body of a block. */
  lemma {:induction false} BodySound(s: State, t: State, k: nat) returns (items: seq<Item>, c: BitString, u: State,
                                                                         j: nat)
    requires s.mode == Len && Held(s) && Goes(s, t, k)
    ensures j < k && Goes(u, t, j) && Takes(s, c, u) && SameBlock(s, u) && u.mode == Type
    ensures CodesGive(c, s.lencode, s.distcode, items, s.out, u.out)
    decreases k
  {
    hide Pow2, IsItem, IsCode, Cat, ExpandOne, Goes;
    var end, it;
    end, it, c, u, j := SymbolSound(s, t, k);
    if end {
      items := [];
    } else {
      var a, v, rest, b := c, u, [], c;
      rest, b, u, j := BodySound(v, t, j);
      items := [it] + rest;
      c := Cat(a, b);
      TakesCat(s, a, v, b, u);
      assert items[1..] == rest;
    }
  }
}
