/** inflate.c: the header of a dynamic block that inflate takes is one of the format. */
module AcceptedHeader {
  import opened Bits
  import opened Canonical
  import opened InflateTable
  import opened CodeLengths
  import opened InflateSpec
  import opened HeaderDecode
  import opened Format
  import opened Accepted

  /** Dropping bits in two goes. */
  lemma DropTwice(s: State, a: nat, b: nat)
    requires a + b <= s.n
    ensures Drop(Drop(s, a), b) == Drop(s, a + b)
  {
    ShrShr(s.x, a, b);
  }

  lemma Takes3(s: State, a: nat, b: nat, c: nat)
    requires Held(s) && a + b + c <= s.n
    ensures Takes(s, Cat(BitString(Low(s.x, a), a), Cat(BitString(Low(Shr(s.x, a), b), b),
                                                        BitString(Low(Shr(s.x, a + b), c), c))), Drop(s, a + b + c))
  {
    hide Pow2, Low, Cat, Shr;
    var s1, s2 := Drop(s, a), Drop(s, a + b);
    TakesDrop(s, a);
    TakesDrop(s1, b);
    DropTwice(s, a, b);
    TakesDrop(s2, c);
    DropTwice(s, a + b, c);
    var x, y, z := BitString(Low(s.x, a), a), BitString(Low(s1.x, b), b), BitString(Low(s2.x, c), c);
    TakesCat(s1, y, s2, z, Drop(s, a + b + c));
    TakesCat(s, x, s1, Cat(y, z), Drop(s, a + b + c));
  }

  lemma SmallCounts(x: nat)
    ensures Low(x, 5) < 32 && Low(x, 4) < 16
  {
    LowShr(x, 5);
    LowShr(x, 4);
    assert Pow2(5) == 32 && Pow2(4) == 16;
  }

  /** The three counts. */
  lemma TableSound(s: State, t: State, k: nat) returns (c: BitString, u: State)
    requires s.mode == Table && Held(s) && Goes(s, t, k)
    ensures k > 0 && Goes(u, t, k - 1) && Takes(s, c, u)
    ensures 257 <= u.nlen <= 286 && 1 <= u.ndist <= 30 && 4 <= u.ncode <= 19 && c == CountBits(u.nlen, u.ndist, u.ncode)
    ensures u == s.(x := u.x, n := u.n, nlen := u.nlen, ndist := u.ndist, ncode := u.ncode, clens := ZEROS, lens := [],
                    mode := LenLens, have := 0)
  {
    hide Pow2, Low, Cat, Shr;
    StepOn(s, t, k);
    assert Step(s) == StepTable(s);
    u := Step(s).s;
    NeverBad(u, t, k - 1);
    SmallCounts(s.x);
    SmallCounts(Shr(s.x, 5));
    SmallCounts(Shr(s.x, 10));
    Takes3(s, 5, 5, 4);
    c := CountBits(u.nlen, u.ndist, u.ncode);
    TakesSame(s, c, Drop(s, 14), s, u);
  }

  /** One code length code length. */
  lemma LenLenSound(s: State, t: State, k: nat) returns (c: BitString, u: State)
    requires s.mode == LenLens && s.have < s.ncode <= 19 && |s.clens| == 19 && Held(s) && Goes(s, t, k)
    ensures k > 0 && Goes(u, t, k - 1) && Takes(s, c, u) && |ORDER| == 19 && ORDER[s.have] < 19
    ensures u == s.(x := u.x, n := u.n, clens := u.clens, have := s.have + 1) && |u.clens| == 19
    ensures u.clens == s.clens[ORDER[s.have] := u.clens[ORDER[s.have]]] && u.clens[ORDER[s.have]] < 8
    ensures c == BitString(u.clens[ORDER[s.have]], 3)
  {
    HeaderDecode.Placed(s.have);
    hide Pow2, Low, Cat, Shr, ORDER;
    StepOn(s, t, k);
    assert Step(s) == StepLenLens(s);
    u := Step(s).s;
    c := BitString(Low(s.x, 3), 3);
    TakesDrop(s, 3);
    TakesSame(s, c, Drop(s, 3), s, u);
    LowOf3(s.x);
  }

  lemma LowOf3(x: nat)
    ensures Low(x, 3) < 8
  {
    LowShr(x, 3);
    assert Pow2(3) == 8;
  }

  /** From the r-th on, the lengths are those sent; the others stay. */
  ghost predicate SentFrom(was: seq<nat>, now: seq<nat>, r: nat, ncode: nat) {
    && |was| == |now| == 19
    && forall i :: 0 <= i < 19 ==>
         if r <= PLACE[i] < ncode then now[i] < 8 else now[i] == was[i]
  }

  lemma SentStep(was: seq<nat>, mid: seq<nat>, now: seq<nat>, r: nat, ncode: nat)
    requires r < ncode <= 19 && |was| == 19 && SentFrom(mid, now, r + 1, ncode)
    requires mid == was[ORDER[r] := mid[ORDER[r]]] && mid[ORDER[r]] < 8
    ensures SentFrom(was, now, r, ncode) && now[ORDER[r]] == mid[ORDER[r]]
  {
    HeaderDecode.Placed(r);
    forall i | 0 <= i < 19
      ensures if r <= PLACE[i] < ncode then now[i] < 8 else now[i] == was[i]
    {
      HeaderDecode.Placed(i);
    }
  }

  lemma {:induction false} LenLensSound(s: State, t: State, k: nat) returns (c: BitString, u: State, j: nat)
    requires s.mode == LenLens && s.have <= s.ncode <= 19 && |s.clens| == 19 && Held(s) && Goes(s, t, k)
    ensures j <= k && Goes(u, t, j) && Takes(s, c, u) && SentFrom(s.clens, u.clens, s.have, s.ncode)
    ensures u == s.(x := u.x, n := u.n, clens := u.clens, have := s.ncode)
    ensures c == LenLensBits(u.clens, s.have, s.ncode)
    decreases s.ncode - s.have
  {
    hide Pow2, Cat, Goes, ORDER, PLACE, BL_ORDER;
    if s.have == s.ncode {
      c, u, j := EMPTY, s, k;
      TakesNone(s, s);
      NoneSent(s.clens, s.ncode);
    } else {
      var a, v := LenLenSound(s, t, k);
      var b;
      b, u, j := LenLensSound(v, t, k - 1);
      HeaderDecode.Placed(s.have);
      SentStep(s.clens, v.clens, u.clens, s.have, s.ncode);
      TakesCat(s, a, v, b, u);
      c := Cat(a, b);
    }
  }

  lemma NoneSent(clens: seq<nat>, ncode: nat)
    requires |clens| == 19
    ensures SentFrom(clens, clens, ncode, ncode)
  {
  }

  // ---- The code length symbols ----

  /** A code length code without codes only gives zeros, which is no code for a block. */
  lemma {:induction false} NoCodesFails(s: State, t: State, k: nat)
    requires s.mode == CodeLens && NoCodes(s.clens) && NoCodes(s.lens) && 257 <= s.nlen && Goes(s, t, k)
    ensures false
    decreases k
  {
    hide Pow2, Low, Shr;
    StepOn(s, t, k);
    assert Step(s) == StepCodeLens(s);
    var u := Step(s).s;
    NeverBad(u, t, k - 1);
    if |s.lens| < s.nlen + s.ndist {
      NoMatch(s.clens, s.x);
      assert u == Drop(s, 1).(lens := s.lens + [0]);
      NoCodesFails(u, t, k - 1);
    }
  }

  lemma NoMatch(lens: seq<nat>, x: nat)
    requires NoCodes(lens)
    ensures forall s: nat :: !Matches(lens, s, x)
  {
  }

  lemma CompleteDecodes(lens: seq<nat>, x: nat, n: nat)
    requires Complete(lens)
    ensures Decode(lens, x, n) != NoCode
  {
    var s := CompleteMatch(lens, x);
  }

  lemma TokenSound(s: State, t: State, k: nat) returns (tok: Token, c: BitString, u: State)
    requires s.mode == CodeLens && |s.lens| < s.nlen + s.ndist && Complete(s.clens) && |s.clens| == 19
    requires Held(s) && Goes(s, t, k)
    ensures k > 0 && Goes(u, t, k - 1) && Takes(s, c, u) && IsToken(c, s.clens, tok) && ValidToken(tok)
    ensures tok.sym == REP_3_6 ==> s.lens != []
    ensures u == s.(x := u.x, n := u.n, lens := Apply(s.lens, tok)) && |u.lens| <= s.nlen + s.ndist
  {
    hide Pow2, Low, Shr, Cat, Decode, IsCode, Complete;
    StepOn(s, t, k);
    assert Step(s) == StepCodeLens(s) == NextCodeLen(s);
    u := Step(s).s;
    NeverBad(u, t, k - 1);
    CompleteDecodes(s.clens, s.x, s.n);
    var sym := Decode(s.clens, s.x, s.n).sym;
    SymTaken(s, s.clens, sym);
    var l := s.clens[sym];
    var v, a := Drop(s, l), BitString(Low(s.x, l), l);
    var bits := ExtraBits(sym);
    tok := Token(sym, Low(v.x, bits));
    ExtraTaken(s, a, v, bits);
    c := Cat(a, BitString(tok.extra, bits));
    assert TokenIs(c, s.clens, tok, a);
    TokenGives(s, v, u, sym, tok);
    TakesSame(s, c, Drop(v, bits), s, u);
  }

  lemma ExtraTaken(s: State, a: BitString, v: State, bits: nat)
    requires Takes(s, a, v) && bits <= v.n
    ensures Low(v.x, bits) < Pow2(bits) && Takes(s, Cat(a, BitString(Low(v.x, bits), bits)), Drop(v, bits))
  {
    hide Low, Shr, Pow2, Cat;
    LowShr(v.x, bits);
    TakesDrop(v, bits);
    TakesCat(s, a, v, BitString(Low(v.x, bits), bits), Drop(v, bits));
  }

  lemma TokenGives(s: State, v: State, u: State, sym: nat, tok: Token)
    requires s.mode == CodeLens && |s.lens| < s.nlen + s.ndist && |s.clens| == 19
    requires Decode(s.clens, s.x, s.n) == Sym(sym) && sym < 19 && s.clens[sym] <= s.n && v == Drop(s, s.clens[sym])
    requires NextCodeLen(s) == Next(u) && u.mode != Bad
    requires ExtraBits(sym) <= v.n ==> tok == Token(sym, Low(v.x, ExtraBits(sym)))
    ensures ExtraBits(sym) <= v.n && (tok.sym == REP_3_6 ==> s.lens != [])
    ensures u.x == Drop(v, ExtraBits(sym)).x && u.n == Drop(v, ExtraBits(sym)).n
    ensures u == s.(x := u.x, n := u.n, lens := Apply(s.lens, tok)) && |u.lens| <= s.nlen + s.ndist
  {
    hide Pow2, Low, Shr, Decode, Repeat, Copies, Drop;
    if sym < 16 {
      DropNone(v);
      PlainGives(s, v, u, sym);
    } else {
      RepeatGives(s, v, u, sym);
      var last := if s.lens == [] then 0 else s.lens[|s.lens| - 1];
      RepeatIs(Drop(v, ExtraBits(sym)), if sym == 16 then last else 0,
        (if sym == 18 then 11 else 3) + Low(v.x, ExtraBits(sym)));
      DropOnly(s, s.clens[sym]);
      DropOnly(v, ExtraBits(sym));
    }
  }

  lemma DropOnly(s: State, k: nat)
    requires k <= s.n
    ensures Drop(s, k) == s.(x := Drop(s, k).x, n := Drop(s, k).n)
  {
  }

  lemma PlainGives(s: State, v: State, u: State, sym: nat)
    requires Decode(s.clens, s.x, s.n) == Sym(sym) && sym < 16 && sym < |s.clens| && s.clens[sym] <= s.n
    requires v == Drop(s, s.clens[sym]) && NextCodeLen(s) == Next(u)
    ensures u == v.(lens := s.lens + [sym]) && v == s.(x := v.x, n := v.n)
  {
    hide Pow2, Low, Shr, Decode, Repeat;
  }

  lemma RepeatGives(s: State, v: State, u: State, sym: nat)
    requires Decode(s.clens, s.x, s.n) == Sym(sym) && 16 <= sym < 19 && sym < |s.clens| && s.clens[sym] <= s.n
    requires v == Drop(s, s.clens[sym]) && NextCodeLen(s) == Next(u) && u.mode != Bad
    ensures ExtraBits(sym) <= v.n && (sym == 16 ==> s.lens != [])
    ensures u == Repeat(Drop(v, ExtraBits(sym)), if sym == 16 then s.lens[|s.lens| - 1] else 0,
      (if sym == 18 then 11 else 3) + Low(v.x, ExtraBits(sym)))
  {
    hide Pow2, Low, Shr, Decode, Repeat, Drop;
  }

  lemma RepeatIs(s: State, len: nat, count: nat)
    ensures Repeat(s, len, count).mode != Bad ==>
      |s.lens| + count <= s.nlen + s.ndist && Repeat(s, len, count) == s.(lens := s.lens + Copies(len, count))
  {
  }

  lemma {:induction false} TokensSound(s: State, t: State, k: nat) returns (ts: seq<Token>, c: BitString, u: State,
                                                                            j: nat)
    requires s.mode == CodeLens && |s.lens| <= s.nlen + s.ndist && Complete(s.clens) && |s.clens| == 19
    requires Held(s) && Goes(s, t, k)
    ensures j <= k && Goes(u, t, j) && Takes(s, c, u) && AreTokens(c, s.clens, ts) && Legal(s.lens, ts)
    ensures u == s.(x := u.x, n := u.n, lens := ApplyAll(s.lens, ts)) && |u.lens| == s.nlen + s.ndist
    decreases k
  {
    hide Pow2, Cat, Goes, IsToken, Complete, Apply;
    if |s.lens| == s.nlen + s.ndist {
      ts, c, u, j := [], EMPTY, s, k;
      TakesNone(s, s);
    } else {
      var tok, a, v := TokenSound(s, t, k);
      var rest, b;
      rest, b, u, j := TokensSound(v, t, k - 1);
      ts := [tok] + rest;
      assert ts[1..] == rest;
      c := Cat(a, b);
      TakesCat(s, a, v, b, u);
    }
  }

  lemma ReadableIs(lens: seq<nat>)
    requires !Refused(LENS, lens) || !Refused(DISTS, lens)
    ensures Readable(lens)
  {
  }

  lemma NoneReadable(lens: seq<nat>)
    requires NoCodes(lens)
    ensures Readable(lens)
  {
    forall l: nat | 0 < l <= MAXBITS
      ensures Count(lens, l) == 0
    {
      NoneCounted(lens, l);
    }
    NoneUsed(lens, MAXBITS);
  }

  lemma {:induction false} NoneCounted(lens: seq<nat>, l: nat)
    requires NoCodes(lens) && l > 0
    ensures Count(lens, l) == 0
  {
    if lens != [] {
      NoneCounted(lens[..|lens| - 1], l);
    }
  }

  /** All lengths are in. */
  lemma CodesSound(s: State, t: State, k: nat) returns (u: State)
    requires s.mode == CodeLens && |s.lens| == s.nlen + s.ndist && 257 <= s.nlen && Goes(s, t, k)
    ensures k > 0 && Goes(u, t, k - 1) && s.lens[256] != 0
    ensures u == s.(mode := Len, lencode := s.lens[..s.nlen], distcode := s.lens[s.nlen..])
    ensures Readable(u.lencode) && Readable(u.distcode)
  {
    hide Refused, NoCodes, Readable, TooLarge;
    StepOn(s, t, k);
    assert Step(s) == StepCodeLens(s) == CodeLensEnd(s);
    u := Step(s).s;
    NeverBad(u, t, k - 1);
    ReadableIs(u.lencode);
    if NoCodes(u.distcode) {
      NoneReadable(u.distcode);
    } else {
      ReadableIs(u.distcode);
    }
  }

  lemma CodeLensStarts(s: State, t: State, k: nat) returns (u: State)
    requires s.mode == LenLens && s.have == s.ncode && Goes(s, t, k)
    ensures k > 0 && Goes(u, t, k - 1) && u == s.(mode := CodeLens) && (NoCodes(s.clens) || !Refused(CODES, s.clens))
  {
    hide Refused, NoCodes;
    StepOn(s, t, k);
    assert Step(s) == StepLenLens(s);
    u := Step(s).s;
    NeverBad(u, t, k - 1);
  }

  /** The header of a dynamic block. */
  lemma HeaderSound(s: State, t: State, k: nat) returns (c: BitString, u: State, j: nat)
    requires s.mode == Table && Held(s) && Goes(s, t, k)
    ensures j < k && Goes(u, t, j) && Takes(s, c, u) && IsHeader(c, u.lencode, u.distcode)
    ensures u.mode == Len && u.wrap == s.wrap && u.limited == s.limited && u.last == s.last && u.out == s.out
  {
    hide Pow2, Cat, Goes, AreTokens, Complete, Legal, ApplyAll, LenLensBits, CountBits, PLACE, ORDER;
    var a, s1 := TableSound(s, t, k);
    var b, s2;
    b, s2, j := LenLensSound(s1, t, k - 1);
    var s3 := CodeLensStarts(s2, t, j);
    if NoCodes(s3.clens) {
      NoCodesFails(s3, t, j - 1);
    }
    NotRefusedComplete(s3.clens);
    TakesSame(s1, b, s2, s1, s3);
    var ts, d, s4;
    ts, d, s4, j := TokensSound(s3, t, j - 1);
    u := CodesSound(s4, t, j);
    j := j - 1;
    TakesCat(s1, b, s3, d, s4);
    TakesCat(s, a, s1, Cat(b, d), s4);
    c := Cat(a, Cat(b, d));
    TakesSame(s, c, s4, s, u);
    SentAll(s1.clens, s2.clens, s1.ncode);
    var p := HeaderParts(s1.ncode, s2.clens, ts, d);
    assert u.lencode + u.distcode == s4.lens;
    HeaderMade(c, u.lencode, u.distcode, p);
  }

  lemma NotRefusedComplete(clens: seq<nat>)
    requires !Refused(CODES, clens)
    ensures Complete(clens)
  {
  }

  lemma SentAll(was: seq<nat>, clens: seq<nat>, ncode: nat)
    requires was == ZEROS && SentFrom(was, clens, 0, ncode)
    ensures forall i :: 0 <= i < 19 ==> clens[i] < 8 && (PLACE[i] >= ncode ==> clens[i] == 0)
  {
    forall i | 0 <= i < 19
      ensures clens[i] < 8 && (PLACE[i] >= ncode ==> clens[i] == 0)
    {
      assert was[i] == 0;
    }
  }

  lemma HeaderMade(c: BitString, l: seq<nat>, d: seq<nat>, p: HeaderParts)
    requires HeaderIs(c, l, d, p)
    ensures IsHeader(c, l, d)
  {
  }
}
