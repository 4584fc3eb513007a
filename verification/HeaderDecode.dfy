/** The header of a dynamic block read back: the code length code lengths in their order,
    then the code length symbols (section 3.2.7 of RFC 1951). */
module HeaderDecode {
  import opened Bits
  import opened Canonical
  import opened InflateTable
  import opened BitWriter
  import opened CodeLengths
  import opened InflateSpec

  /** s after its stream has moved on to rest. */
  function At(s: State, rest: BitString): State {
    s.(x := rest.val, n := rest.len)
  }

  // ---- Code length symbols ----

  lemma ApplyLen(lens: seq<nat>, t: Token)
    requires ValidToken(t) && (t.sym == REP_3_6 ==> lens != [])
    ensures |Apply(lens, t)| > |lens|
  {
  }

  lemma {:induction false} ApplyAllLen(lens: seq<nat>, ts: seq<Token>)
    requires Legal(lens, ts)
    ensures |ApplyAll(lens, ts)| >= |lens|
    decreases |ts|
  {
    if ts != [] {
      ApplyLen(lens, ts[0]);
      ApplyAllLen(Apply(lens, ts[0]), ts[1..]);
    }
  }

  /** One symbol is read in one step, and means what Apply says. */
  lemma TokenStep(s: State, t: Token, fc: seq<nat>, rest: BitString)
    requires s.mode == CodeLens && ValidToken(t) && (t.sym == REP_3_6 ==> s.lens != [])
    requires Coded(fc, s.clens, t.sym) && t.sym < |s.clens| <= |fc| && Starts(s, TokenBits(t, fc, s.clens), rest)
    requires |Apply(s.lens, t)| <= s.nlen + s.ndist
    ensures Step(s) == Next(At(s, rest).(lens := Apply(s.lens, t)))
  {
    assert BitString(fc[t.sym], s.clens[t.sym]).Valid();
    hide Cat, Pow2, Low, Shr, Decode, Coded, Step, Apply;
    var code, extra := BitString(fc[t.sym], s.clens[t.sym]), BitString(t.extra, ExtraBits(t.sym));
    var more := Cat(extra, rest);
    StartsSplit(s, code, extra, rest);
    DecodesCode(s, fc, s.clens, t.sym, more);
    var u := Drop(s, s.clens[t.sym]);
    assert Starts(u, extra, rest);
    ReadBits(u, extra, rest);
    if t.sym < REP_3_6 {
      NoExtra(extra, rest);
    }
    TokenMeans(s, t, rest);
  }

  /** The symbol and its extra bits are known. */
  lemma TokenMeans(s: State, t: Token, rest: BitString)
    requires s.mode == CodeLens && ValidToken(t) && (t.sym == REP_3_6 ==> s.lens != [])
    requires |Apply(s.lens, t)| <= s.nlen + s.ndist
    requires Decode(s.clens, s.x, s.n) == Sym(t.sym) && t.sym < |s.clens| && s.clens[t.sym] <= s.n
    requires var u := Drop(s, s.clens[t.sym]);
      && ExtraBits(t.sym) <= u.n && Low(u.x, ExtraBits(t.sym)) == t.extra
      && Drop(u, ExtraBits(t.sym)) == At(s, rest) && (t.sym < REP_3_6 ==> u == At(s, rest))
    ensures Step(s) == Next(At(s, rest).(lens := Apply(s.lens, t)))
  {
    hide Pow2, Low, Shr, Decode;
    ApplyLen(s.lens, t);
    assert Step(s) == StepCodeLens(s);
  }

  lemma NoExtra(extra: BitString, rest: BitString)
    requires extra.len == 0 && extra.Valid()
    ensures Cat(extra, rest) == rest
  {
  }

  /** The symbols send_tree sends rebuild the lengths. */
  lemma {:induction false} TokensRun(s: State, ts: seq<Token>, fc: seq<nat>, rest: BitString)
    requires s.mode == CodeLens && Legal(s.lens, ts) && Sendable(ts, fc, s.clens)
    requires forall i :: 0 <= i < |s.clens| && s.clens[i] > 0 ==> Coded(fc, s.clens, i)
    requires Starts(s, TokensBits(ts, fc, s.clens), rest)
    requires |ApplyAll(s.lens, ts)| <= s.nlen + s.ndist
    ensures Leads(s, At(s, rest).(lens := ApplyAll(s.lens, ts)))
    decreases |ts|
  {
    hide Cat, Pow2, Apply, Step;
    if ts == [] {
      CatEmpty(rest);
      assert At(s, rest).(lens := ApplyAll(s.lens, ts)) == s;
      LeadsSelf(s);
    } else {
      var t, more := ts[0], TokensBits(ts[1..], fc, s.clens);
      TokenValid(t, fc, s.clens);
      BitsValid(ts[1..], fc, s.clens);
      StartsSplit(s, TokenBits(t, fc, s.clens), more, rest);
      ApplyAllLen(Apply(s.lens, t), ts[1..]);
      TokenStep(s, t, fc, Cat(more, rest));
      var u := At(s, Cat(more, rest)).(lens := Apply(s.lens, t));
      TokensRun(u, ts[1..], fc, rest);
      LeadsStep(s, u, At(s, rest).(lens := ApplyAll(s.lens, ts)));
    }
  }

  // ---- Code length code lengths ----

  /** Where each code length symbol stands in the order. */
  const PLACE: seq<nat> := [3, 17, 15, 13, 11, 9, 7, 5, 4, 6, 8, 10, 12, 14, 16, 18, 0, 1, 2]

  lemma Placed(k: nat)
    requires k < 19
    ensures |ORDER| == |PLACE| == |BL_ORDER| == 19 && ORDER == BL_ORDER
    ensures ORDER[k] < 19 && PLACE[ORDER[k]] == k && PLACE[k] < 19 && ORDER[PLACE[k]] == k
  {
  }

  /** Known at s: the first k lengths in order, zero for the others. */
  ghost predicate KnownTo(known: seq<nat>, clens: seq<nat>, k: nat) {
    && |known| == |clens| == 19 && k <= 19
    && forall i :: 0 <= i < 19 ==> known[i] == if PLACE[i] < k then clens[i] else 0
  }

  lemma KnownStep(known: seq<nat>, clens: seq<nat>, k: nat)
    requires KnownTo(known, clens, k) && k < 19
    ensures |ORDER| == |BL_ORDER| == 19 && BL_ORDER[k] < 19 && ORDER[k] == BL_ORDER[k]
    ensures KnownTo(known[ORDER[k] := clens[ORDER[k]]], clens, k + 1)
  {
    Placed(k);
    forall i | 0 <= i < 19
      ensures known[ORDER[k] := clens[ORDER[k]]][i] == if PLACE[i] < k + 1 then clens[i] else 0
    {
      Placed(i);
    }
  }

  lemma KnownAll(known: seq<nat>, clens: seq<nat>, k: nat)
    requires KnownTo(known, clens, k)
    requires forall i :: 0 <= i < 19 && PLACE[i] >= k ==> clens[i] == 0
    ensures known == clens
  {
  }

  lemma LenLensStep(s: State, l: nat, rest: BitString)
    requires s.mode == LenLens && s.have < s.ncode <= 19 && |s.clens| == 19 && ORDER[s.have] < 19 && l < 8
    requires Starts(s, BitString(l, 3), rest)
    ensures Step(s) == Next(At(s, rest).(have := s.have + 1, clens := s.clens[ORDER[s.have] := l]))
  {
    ReadBits(s, BitString(l, 3), rest);
    hide Cat, Pow2, Low, Shr;
  }

  lemma {:induction false} LenLensRun(s: State, clens: seq<nat>, rest: BitString)
    requires s.mode == LenLens && s.have <= s.ncode <= 19 && KnownTo(s.clens, clens, s.have)
    requires forall i :: 0 <= i < 19 ==> clens[i] < 8 && (PLACE[i] >= s.ncode ==> clens[i] == 0)
    requires Starts(s, LenLensBits(clens, s.have, s.ncode), rest)
    ensures Leads(s, At(s, rest).(have := s.ncode, clens := clens))
    decreases s.ncode - s.have
  {
    hide Cat, Pow2, Step, ORDER, PLACE, BL_ORDER;
    if s.have == s.ncode {
      KnownAll(s.clens, clens, s.have);
      CatEmpty(rest);
      assert At(s, rest).(have := s.ncode, clens := clens) == s;
      LeadsSelf(s);
    } else {
      KnownStep(s.clens, clens, s.have);
      var l := clens[BL_ORDER[s.have]];
      var more := LenLensBits(clens, s.have + 1, s.ncode);
      LenLensValid(clens, s.have + 1, s.ncode);
      Pow2Of3();
      StartsSplit(s, BitString(l, 3), more, rest);
      LenLensStep(s, l, Cat(more, rest));
      var u := At(s, Cat(more, rest)).(have := s.have + 1, clens := s.clens[ORDER[s.have] := l]);
      LenLensRun(u, clens, rest);
      LeadsStep(s, u, At(s, rest).(have := s.ncode, clens := clens));
    }
  }

  // ---- The whole header ----

  /** What a dynamic block's codes have to be. */
  ghost predicate Header(L: seq<nat>, D: seq<nat>, clens: seq<nat>, fc: seq<nat>, ncode: nat) {
    && 257 <= |L| <= 286 && 1 <= |D| <= 30 && 4 <= ncode <= 19 && |clens| == 19
    && (forall i :: 0 <= i < 19 ==> clens[i] < 8 && (PLACE[i] >= ncode ==> clens[i] == 0))
    && (forall i :: 0 <= i < 19 && clens[i] > 0 ==> Coded(fc, clens, i))
    && Sendable(TreeTokens(L), fc, clens) && Sendable(TreeTokens(D), fc, clens)
    && (forall i :: 0 <= i < |L| ==> L[i] < REP_3_6) && (forall i :: 0 <= i < |D| ==> D[i] < REP_3_6)
    && Complete(clens) && Complete(L) && Complete(D) && L[256] != 0
  }

  ghost function CountBits(nlen: nat, ndist: nat, ncode: nat): BitString
    requires nlen >= 257 && ndist >= 1 && ncode >= 4
  {
    Cat(BitString(nlen - 257, 5), Cat(BitString(ndist - 1, 5), BitString(ncode - 4, 4)))
  }

  ghost function TreeBits(L: seq<nat>, D: seq<nat>, clens: seq<nat>, fc: seq<nat>): BitString
    requires Sendable(TreeTokens(L), fc, clens) && Sendable(TreeTokens(D), fc, clens)
  {
    Cat(TokensBits(TreeTokens(L), fc, clens), TokensBits(TreeTokens(D), fc, clens))
  }

  ghost function HeaderBits(L: seq<nat>, D: seq<nat>, clens: seq<nat>, fc: seq<nat>, ncode: nat): BitString
    requires Header(L, D, clens, fc, ncode)
  {
    Cat(CountBits(|L|, |D|, ncode), Cat(LenLensBits(clens, 0, ncode), TreeBits(L, D, clens, fc)))
  }

  lemma CountStep(s: State, nlen: nat, ndist: nat, ncode: nat, rest: BitString)
    requires s.mode == Table && 257 <= nlen <= 286 && 1 <= ndist <= 30 && 4 <= ncode <= 19
    requires Starts(s, CountBits(nlen, ndist, ncode), rest)
    ensures Step(s) == Next(At(s, rest).(mode := LenLens, nlen := nlen, ndist := ndist, ncode := ncode,
                                         clens := ZEROS, lens := [], have := 0))
  {
    var a, b, c := BitString(nlen - 257, 5), BitString(ndist - 1, 5), BitString(ncode - 4, 4);
    CountValid(a, b, c);
    ReadBits(s, CountBits(nlen, ndist, ncode), rest);
    StartsSplit(s, a, Cat(b, c), rest);
    ReadBits(s, a, Cat(Cat(b, c), rest));
    var t := Drop(s, 5);
    assert Starts(t, Cat(b, c), rest);
    StartsSplit(t, b, c, rest);
    ReadBits(t, b, Cat(c, rest));
    var u := Drop(t, 5);
    assert Starts(u, c, rest);
    ReadBits(u, c, rest);
    ShrShr(s.x, 5, 5);
    hide Cat, Pow2, Low, Shr;
  }

  lemma CountValid(a: BitString, b: BitString, c: BitString)
    requires a.len == b.len == 5 && c.len == 4 && a.val < 32 && b.val < 32 && c.val < 16
    ensures a.Valid() && b.Valid() && c.Valid() && Cat(b, c).Valid() && Cat(a, Cat(b, c)).Valid()
    ensures Cat(a, Cat(b, c)).len == 14
  {
    assert Pow2(5) == 32 && Pow2(4) == 16;
    CatValid(b, c);
    CatValid(a, Cat(b, c));
  }

  lemma CompleteNotRefused(typ: CodeType, lens: seq<nat>)
    requires Complete(lens)
    ensures !Refused(typ, lens)
  {
  }

  /** All lengths are there: the two codes are complete, so they are taken. */
  lemma TreesEnd(u: State, L: seq<nat>, D: seq<nat>)
    requires u.mode == CodeLens && u.nlen == |L| && u.ndist == |D| && u.lens == L + D && !u.limited
    requires 257 <= |L| && L[256] != 0 && Complete(L) && Complete(D)
    ensures Step(u) == Next(u.(mode := Len, lencode := L, distcode := D))
  {
    CompleteNotRefused(LENS, L);
    CompleteNotRefused(DISTS, D);
    hide Complete, Refused;
    assert (L + D)[..|L|] == L && (L + D)[|L|..] == D && (L + D)[256] == L[256];
  }

  /** The two trees, after the code length code is known. */
  lemma TreesRun(s: State, L: seq<nat>, D: seq<nat>, fc: seq<nat>, ncode: nat, rest: BitString)
    requires s.mode == CodeLens && s.lens == [] && s.nlen == |L| && s.ndist == |D| && !s.limited
    requires Header(L, D, s.clens, fc, ncode)
    requires Starts(s, TreeBits(L, D, s.clens, fc), rest)
    ensures Leads(s, At(s, rest).(mode := Len, lens := L + D, lencode := L, distcode := D))
  {
    var a, b := TokensBits(TreeTokens(L), fc, s.clens), TokensBits(TreeTokens(D), fc, s.clens);
    BitsValid(TreeTokens(L), fc, s.clens);
    BitsValid(TreeTokens(D), fc, s.clens);
    TreeTokensMean(L, []);
    TreeTokensMean(D, L);
    assert [] + L == L;
    hide Cat, Pow2, TokensBits, TreeTokens, ApplyAll, Legal, Sendable, Complete, Step, Leads;
    StartsSplit(s, a, b, rest);
    TokensRun(s, TreeTokens(L), fc, Cat(b, rest));
    var t := At(s, Cat(b, rest)).(lens := L);
    TokensRun(t, TreeTokens(D), fc, rest);
    var u := At(s, rest).(lens := L + D);
    LeadsTrans(s, t, u);
    var v := u.(mode := Len, lencode := L, distcode := D);
    TreesEnd(u, L, D);
    LeadsSelf(v);
    LeadsStep(u, v, v);
    LeadsTrans(s, u, v);
  }

  /** Reading back a dynamic block's header gives the two codes that were sent. */
  lemma HeaderRun(s: State, L: seq<nat>, D: seq<nat>, clens: seq<nat>, fc: seq<nat>, ncode: nat, rest: BitString)
    requires s.mode == Table && !s.limited && Header(L, D, clens, fc, ncode)
    requires Starts(s, HeaderBits(L, D, clens, fc, ncode), rest)
    ensures Leads(s, At(s, rest).(mode := Len, nlen := |L|, ndist := |D|, ncode := ncode, have := ncode,
                                  clens := clens, lens := L + D, lencode := L, distcode := D))
  {
    var a, b, c := CountBits(|L|, |D|, ncode), LenLensBits(clens, 0, ncode), TreeBits(L, D, clens, fc);
    CountValid(BitString(|L| - 257, 5), BitString(|D| - 1, 5), BitString(ncode - 4, 4));
    LenLensValid(clens, 0, ncode);
    TreeValid(L, D, clens, fc);
    CatValid(b, c);
    CompleteNotRefused(CODES, clens);
    hide Cat, Pow2, LenLensBits, CountBits, TreeBits, Step, Refused, Leads;
    StartsSplit(s, a, Cat(b, c), rest);
    CountStep(s, |L|, |D|, ncode, Cat(Cat(b, c), rest));
    var t := At(s, Cat(Cat(b, c), rest)).(mode := LenLens, nlen := |L|, ndist := |D|, ncode := ncode,
                                          clens := ZEROS, lens := [], have := 0);
    CodeLengthsKnown(t, clens, c, rest);
    var v := At(t, Cat(c, rest)).(have := ncode, clens := clens, mode := CodeLens);
    TreesRun(v, L, D, fc, ncode, rest);
    var w := At(v, rest).(mode := Len, lens := L + D, lencode := L, distcode := D);
    LeadsTrans(t, v, w);
    LeadsStep(s, t, w);
  }

  lemma CodeLengthsKnown(t: State, clens: seq<nat>, c: BitString, rest: BitString)
    requires t.mode == LenLens && t.have == 0 && t.ncode <= 19 && t.clens == ZEROS && |clens| == 19 && c.Valid()
    requires forall i :: 0 <= i < 19 ==> clens[i] < 8 && (PLACE[i] >= t.ncode ==> clens[i] == 0)
    requires Starts(t, Cat(LenLensBits(clens, 0, t.ncode), c), rest) && !Refused(CODES, clens)
    ensures Leads(t, At(t, Cat(c, rest)).(have := t.ncode, clens := clens, mode := CodeLens))
  {
    hide Cat, Pow2, LenLensBits, Step, Refused, Leads;
    LenLensValid(clens, 0, t.ncode);
    StartsSplit(t, LenLensBits(clens, 0, t.ncode), c, rest);
    LenLensRun(t, clens, Cat(c, rest));
    var u := At(t, Cat(c, rest)).(have := t.ncode, clens := clens);
    TablesKnown(u);
    var v := u.(mode := CodeLens);
    LeadsSelf(v);
    LeadsStep(u, v, v);
    LeadsTrans(t, u, v);
  }

  lemma TablesKnown(u: State)
    requires u.mode == LenLens && u.have == u.ncode && !Refused(CODES, u.clens)
    ensures Step(u) == Next(u.(mode := CodeLens))
  {
  }

  lemma TreeValid(L: seq<nat>, D: seq<nat>, clens: seq<nat>, fc: seq<nat>)
    requires Sendable(TreeTokens(L), fc, clens) && Sendable(TreeTokens(D), fc, clens)
    ensures TreeBits(L, D, clens, fc).Valid()
  {
    BitsValid(TreeTokens(L), fc, clens);
    BitsValid(TreeTokens(D), fc, clens);
    CatValid(TokensBits(TreeTokens(L), fc, clens), TokensBits(TreeTokens(D), fc, clens));
  }
}
