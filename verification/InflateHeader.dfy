/** inflate.c: reading the header of a dynamic block. */
module InflateHeader {
  import opened Bits
  import opened Canonical
  import opened TableNeed
  import opened InflateTable
  import opened InflateSpec
  import opened InflateChunks
  import opened HeaderDecode
  import opened BitWriter
  import opened BitReader
  import opened TableDecode
  import opened InflateOutput
  import opened InflateFast
  import opened InflateCases

  // ---- LENLENS ----

  lemma LensToStep(lens: seq<nat>, clens: seq<nat>, have: nat, v: nat)
    requires LensTo(lens, clens, have) && have < 19 && v < 8
    ensures |ORDER| == 19 && ORDER[have] < 19
    ensures LensTo(lens[ORDER[have] := v], clens[ORDER[have] := v], have + 1)
  {
    HeaderDecode.Placed(have);
    forall i | 0 <= i < 19
      ensures var k := ORDER[have];
        if PLACE[i] < have + 1 then lens[k := v][i] == clens[k := v][i] else clens[k := v][i] == 0
    {
      HeaderDecode.Placed(i);
    }
  }

  /** The code length code lengths that are there. */
  method LenLensCase(r: Reader, o: Output, lens: array<nat>, have: nat, ncode: nat, ghost s: State)
      returns (leave: bool, have': nat, ghost t: State)
    requires InStep(r, o, s) && s.mode == LenLens && s.have == have <= s.ncode == ncode <= 19 && r.bits < 8
    requires LensTo(lens[..], s.clens, have)
    modifies r`next, r`hold, r`bits, lens
    ensures InStep(r, o, t) && Leads(s, t) && (leave ==> Step(t) == Wait) && r.bits < 8
    ensures t == s.(x := t.x, n := t.n, have := have', clens := t.clens) && LensTo(lens[..], t.clens, have')
    ensures have' <= ncode && (!leave ==> have' == ncode)
  {
    hide Low, Shr, Pow2, BytesOf, Cat, Leads, InStep, LensTo, ORDER, Step;
    leave, have', t := false, have, s;
    LeadsSelf(s);
    while have' < ncode
      invariant have' <= ncode && InStep(r, o, t) && Leads(s, t) && r.bits < 8
      invariant t == s.(x := t.x, n := t.n, have := have', clens := t.clens) && LensTo(lens[..], t.clens, have')
    {
      var ok := NeedBits(r, o, 3, t);
      if !ok {
        leave := true;
        LenLensWaits(t);
        return;
      }
      Known(r, o, t, 3);
      var v := Low(r.hold, 3);
      LowOf3(r.hold);
      LensToStep(lens[..], t.clens, have', v);
      LensSizes(lens[..], t.clens, have');
      ghost var u := t;
      ghost var w := DropBits(r, o, 3, t);
      t := w.(clens := t.clens[ORDER[have'] := v], have := have' + 1);
      LenLensMoves(u, t, v);
      LeadsOne(u, t);
      LeadsTrans(s, u, t);
      AlsoInStep(r, o, w, t);
      lens[ORDER[have']] := v;
      have' := have' + 1;
    }
  }

  lemma LensSizes(lens: seq<nat>, clens: seq<nat>, have: nat)
    requires LensTo(lens, clens, have)
    ensures |lens| >= 19 && |clens| == 19
  {
  }

  lemma LowOf3(h: nat)
    ensures Low(h, 3) < 8
  {
    LowShr(h, 3);
    assert Pow2(3) == 8;
  }

  lemma LenLensWaits(s: State)
    requires s.mode == LenLens && s.have < s.ncode && s.n < 3
    ensures Step(s) == Wait
  {
  }

  lemma LenLensMoves(s: State, t: State, v: nat)
    requires s.mode == LenLens && s.have < s.ncode <= 19 && |s.clens| == 19 && s.n >= 3 && v == Low(s.x, 3)
    requires |ORDER| == 19 && ORDER[s.have] < 19
    requires t == Drop(s, 3).(clens := s.clens[ORDER[s.have] := v], have := s.have + 1)
    ensures Step(s) == Next(t)
  {
    hide Low, Shr;
  }

  /** The lengths not sent are zero; then the code length code's table. */
  method LenLensDone(lens: array<nat>, table: array<Code>, work: array<nat>, ncode: nat, ghost s: State)
      returns (mode: Mode, root: nat)
    requires s.mode == LenLens && s.have == s.ncode == ncode <= 19 && LensTo(lens[..], s.clens, ncode)
    requires table.Length == ENOUGH_LENS && work.Length == 288 && work != lens
    modifies lens, table, work
    ensures (mode == CodeLens || mode == Bad) && Step(s) == Next(s.(mode := mode))
    ensures mode == CodeLens ==> Usable(table[..], 0, root, CODES, s.clens)
  {
    hide ORDER, Refused, NoCodes, Built, CodeOk;
    var k := ncode;
    LensSizes(lens[..], s.clens, ncode);
    while k < 19
      invariant ncode <= k <= 19 && LensFilled(lens[..], s.clens, ncode, k)
    {
      FillOne(lens[..], s.clens, ncode, k);
      lens[ORDER[k]] := 0;
      k := k + 1;
    }
    AllFilled(lens[..], s.clens, ncode);
    PowersOf7();
    var ret, end, bits := InflateTable.InflateTable(CODES, lens[..19], table, 0, 7, work);
    root := bits;
    mode := if ret != 0 then Bad else CodeLens;
    if ret == 0 {
      NotRefusedOk(CODES, s.clens);
    }
    DoneStep(s);
  }

  lemma PowersOf7()
    ensures Pow2(7) == 128
  {
  }

  lemma DoneStep(s: State)
    requires s.mode == LenLens && s.have == s.ncode
    ensures Step(s) == Next(s.(mode := if !NoCodes(s.clens) && Refused(CODES, s.clens) then Bad else CodeLens))
  {
    hide Refused, NoCodes;
  }

  ghost predicate LensFilled(lens: seq<nat>, clens: seq<nat>, ncode: nat, k: nat) {
    && |lens| >= 19 && |clens| == 19 && k <= 19
    && (forall i :: 0 <= i < 19 ==> clens[i] < 8 && (PLACE[i] >= ncode ==> clens[i] == 0))
    && forall i :: 0 <= i < 19 && PLACE[i] < k ==> lens[i] == clens[i]
  }

  lemma FillOne(lens: seq<nat>, clens: seq<nat>, ncode: nat, k: nat)
    requires LensFilled(lens, clens, ncode, k) && ncode <= k < 19
    ensures |ORDER| == 19 && ORDER[k] < 19 && LensFilled(lens[ORDER[k] := 0], clens, ncode, k + 1)
  {
    HeaderDecode.Placed(k);
    forall i | 0 <= i < 19 && PLACE[i] < k + 1
      ensures lens[ORDER[k] := 0][i] == clens[i]
    {
      HeaderDecode.Placed(i);
    }
  }

  lemma AllFilled(lens: seq<nat>, clens: seq<nat>, ncode: nat)
    requires LensFilled(lens, clens, ncode, 19)
    ensures lens[..19] == clens && Lengths(clens) && forall i :: 0 <= i < 19 ==> clens[i] <= 7
  {
    forall i | 0 <= i < 19
      ensures lens[i] == clens[i]
    {
      HeaderDecode.Placed(i);
    }
  }

  // ---- CODELENS ----

  function Extras(sym: nat): nat {
    if sym == 16 then 2 else if sym == 17 then 3 else 7
  }

  /** A length of its own. A code length code without codes reads a bit as length zero. */
  lemma PlainStep(s: State, f: Found)
    requires s.mode == CodeLens && |s.lens| < s.nlen + s.ndist && FoundFor(CODES, s.clens, f, Decode(s.clens, s.x, s.n))
    requires f.val < 16 && f.bits <= s.n
    ensures Step(s) == Next(Drop(s, f.bits).(lens := s.lens + [f.val]))
  {
    hide Low, Shr, Decode, Refused, NoCodes, Repeat;
    assert Step(s) == StepCodeLens(s);
  }

  /** A repeated length. */
  lemma RepeatStep(s: State, f: Found)
    requires s.mode == CodeLens && |s.lens| < s.nlen + s.ndist && FoundFor(CODES, s.clens, f, Decode(s.clens, s.x, s.n))
    requires f.val >= 16 && f.bits <= s.n
    ensures f.val <= 18 && Decode(s.clens, s.x, s.n) == Sym(f.val) && f.val < |s.clens| && s.clens[f.val] == f.bits
    ensures var t, e := Drop(s, f.bits), Extras(f.val);
      if t.n < e then Step(s) == Wait
      else if f.val == 16 && s.lens == [] then Step(s) == Next(t.(mode := Bad))
      else Step(s) == Next(Repeat(Drop(t, e), if f.val == 16 then s.lens[|s.lens| - 1] else 0,
                                  (if f.val == 18 then 11 else 3) + Low(t.x, e)))
  {
    hide Low, Shr, Decode, Refused, NoCodes, Repeat;
    assert Step(s) == StepCodeLens(s);
  }

  /** The lengths read so far are in the array. */
  ghost predicate HasLens(lens: seq<nat>, have: nat, s: State) {
    have == |s.lens| <= s.nlen + s.ndist <= 316 && |lens| == 320 && lens[..have] == s.lens && Lengths(s.lens)
  }

  /** One code length symbol. */
  method CodeLensOne(r: Reader, o: Output, table: array<Code>, at: nat, root: nat, lens: array<nat>, have: nat,
                     total: nat, ghost s: State)
      returns (leave: bool, mode: Mode, have': nat, ghost t: State)
    requires InStep(r, o, s) && s.mode == CodeLens && TightFor(s, r.bits, r.hold)
    requires Usable(table[..], at, root, CODES, s.clens)
    requires HasLens(lens[..], have, s) && have < total == s.nlen + s.ndist
    modifies r`next, r`hold, r`bits, lens
    ensures InStep(r, o, t) && Went(s, leave, t) && TightFor(t, r.bits, r.hold) && (mode == CodeLens || mode == Bad)
    ensures t == s.(mode := mode, x := t.x, n := t.n, lens := t.lens)
    ensures mode == CodeLens ==> HasLens(lens[..], have', t) && (!leave ==> have' > have)
  {
    hide Low, Shr, Pow2, BytesOf, Cat, InStep, Usable, Decode, FoundFor, Step, HasLens;
    leave, mode, have', t := true, CodeLens, have, s;
    HaveIs(lens[..], have, s);
    var ok, f := FindFirst(r, o, table, at, root, s);
    if !ok {
      return;
    }
    if f.val < 16 {
      leave := false;
      PlainStep(s, f);
      ghost var u := DropBits(r, o, f.bits, s);
      t := u.(lens := s.lens + [f.val]);
      AlsoInStep(r, o, u, t);
      OneMore(lens[..], have, s, f.val, t);
      LensRoom(lens[..], have, s);
      lens[have] := f.val;
      have' := have + 1;
      FewBits(t, r.bits, r.hold);
    } else {
      leave, mode, have', t := RepeatOne(r, o, f, lens, have, total, s);
    }
  }

  lemma FewBits(t: State, bits: nat, hold: nat)
    requires bits < 8 && (t.mode == CodeLens || t.mode == Bad)
    ensures TightFor(t, bits, hold)
  {
  }

  lemma LensRoom(lens: seq<nat>, have: nat, s: State)
    requires HasLens(lens, have, s)
    ensures |lens| == 320 && have <= 316
  {
  }

  lemma OneMore(lens: seq<nat>, have: nat, s: State, v: nat, t: State)
    requires HasLens(lens, have, s) && have < s.nlen + s.ndist && v < 16
    requires t.lens == s.lens + [v] && t.nlen == s.nlen && t.ndist == s.ndist
    ensures have < |lens| && HasLens(lens[have := v], have + 1, t)
  {
    assert lens[have := v][..have + 1] == lens[..have] + [v];
  }

  /** Finding the symbol; with what is held when the case started, no byte too many. */
  method FindFirst(r: Reader, o: Output, table: array<Code>, at: nat, root: nat, ghost s: State) returns (ok: bool,
                   f: Found)
    requires InStep(r, o, s) && s.mode == CodeLens && TightFor(s, r.bits, r.hold)
    requires Usable(table[..], at, root, CODES, s.clens)
    requires |s.lens| < s.nlen + s.ndist
    modifies r`next, r`hold, r`bits
    ensures InStep(r, o, s) && r.bits <= s.n
    ensures ok ==> f.bits <= MAXBITS
    ensures if ok then f.bits <= r.bits && FoundFor(CODES, s.clens, f, Decode(s.clens, s.x, s.n))
      else Step(s) == Wait && TightFor(s, r.bits, r.hold)
    ensures ok && f.val < 16 ==> r.bits - f.bits < 8
    ensures ok && f.val >= 16 ==> r.bits - f.bits < 8 || r.bits < f.bits + Extras(f.val)
  {
    hide Low, Shr, Pow2, BytesOf, Cat, Usable, Decode, FoundFor;
    ghost var h0, b0 := r.hold, r.bits;
    HeldIsLow(r);
    ok, f := FindCode(r, table, at, root, CODES, s.clens);
    Known(r, o, s, r.bits);
    if !ok {
      assert Step(s) == StepCodeLens(s);
      return;
    }
    if b0 >= 8 && Decode(s.clens, h0, b0) != More {
      Resumed(table[..], at, root, s, h0, b0, r.bits, f);
    }
  }

  /** A repeat symbol whose extra bits were cut off is found again as it was. */
  lemma Resumed(t: seq<Code>, at: nat, root: nat, s: State, h0: nat, b0: nat, b: nat, f: Found)
    requires Usable(t, at, root, CODES, s.clens) && CutRepeat(s.clens, h0, b0) && h0 == Low(s.x, b0) && b0 <= b <= s.n
    requires FoundFor(CODES, s.clens, f, Decode(s.clens, s.x, s.n))
    requires b == b0 || (b >= b0 + 8 && Undecided(s.clens, s.x, b - 8))
    ensures f.val >= 16 && b < f.bits + Extras(f.val)
  {
    hide Low, Built, Decode;
    LowLow(s.x, b0, b0);
    DecodeFed(s.clens, h0, b0, s.x, s.n);
    if b != b0 {
      LowLow(s.x, b0, b - 8);
      DecodeFed(s.clens, h0, b0, Low(s.x, b - 8), b - 8);
    }
  }

  /** A repeat symbol: its extra bits, then the lengths. */
  method RepeatOne(r: Reader, o: Output, f: Found, lens: array<nat>, have: nat, total: nat, ghost s: State)
      returns (leave: bool, mode: Mode, have': nat, ghost t: State)
    requires InStep(r, o, s) && s.mode == CodeLens && f.bits <= r.bits <= s.n && f.val >= 16
    requires f.bits <= MAXBITS && FoundFor(CODES, s.clens, f, Decode(s.clens, s.x, s.n))
    requires (r.bits - f.bits < 8 || r.bits < f.bits + Extras(f.val))
    requires HasLens(lens[..], have, s) && have < total == s.nlen + s.ndist
    modifies r`next, r`hold, r`bits, lens
    ensures InStep(r, o, t) && Went(s, leave, t) && TightFor(t, r.bits, r.hold) && (mode == CodeLens || mode == Bad)
    ensures t == s.(mode := mode, x := t.x, n := t.n, lens := t.lens)
    ensures mode == CodeLens ==> HasLens(lens[..], have', t) && (!leave ==> have' > have)
  {
    hide Low, Shr, Pow2, BytesOf, Cat, InStep, Decode, FoundFor, Step, HasLens, Repeat;
    leave, mode, have', t := true, CodeLens, have, s;
    HaveIs(lens[..], have, s);
    RepeatStep(s, f);
    var e := Extras(f.val);
    var ok := NeedBits(r, o, f.bits + e, s);
    if !ok {
      WaitsForExtra(s, f, r.bits, r.hold);
      return;
    }
    leave := false;
    ghost var u := DropBits(r, o, f.bits, s);
    if f.val == 16 && have == 0 {
      mode, t := Bad, u.(mode := Bad);
      AlsoInStep(r, o, u, t);
      NoLens(lens[..], have, s);
      FewBits(t, 0, 0);
      return;
    }
    LensRoom(lens[..], have, s);
    LastLen(lens[..], have, s);
    SameLens(lens[..], have, s, u);
    var len := if f.val == 16 then lens[have - 1] else 0;
    mode, have', t := RepeatLens(r, o, lens, have, total, len, if f.val == 18 then 11 else 3, e, u);
  }

  lemma SameLens(lens: seq<nat>, have: nat, s: State, u: State)
    requires HasLens(lens, have, s) && u.lens == s.lens && u.nlen == s.nlen && u.ndist == s.ndist
    ensures HasLens(lens, have, u)
  {
  }

  /** The extra bits, and as many copies of the length. */
  method RepeatLens(r: Reader, o: Output, lens: array<nat>, have: nat, total: nat, len: nat, least: nat, e: nat,
                    ghost u: State)
      returns (mode: Mode, have': nat, ghost t: State)
    requires InStep(r, o, u) && u.mode == CodeLens && e <= r.bits && r.bits - e < 8 && e <= u.n
    requires len <= MAXBITS && least > 0
    requires HasLens(lens[..], have, u) && have < total == u.nlen + u.ndist
    modifies r`hold, r`bits, lens
    ensures InStep(r, o, t) && t == Repeat(Drop(u, e), len, least + Low(u.x, e)) && TightFor(t, r.bits, r.hold)
    ensures t == u.(mode := mode, x := t.x, n := t.n, lens := t.lens) && (mode == CodeLens || mode == Bad)
    ensures mode == CodeLens ==> HasLens(lens[..], have', t) && have' > have
  {
    hide Low, Shr, Pow2, InStep, HasLens, Repeat;
    mode, have' := CodeLens, have;
    Known(r, o, u, e);
    var copy := least + Low(r.hold, e);
    ghost var w := DropBits(r, o, e, u);
    t := Repeat(w, len, copy);
    RepeatIs(w, len, copy);
    AlsoInStep(r, o, w, t);
    FewBits(t, r.bits, r.hold);
    HaveIs(lens[..], have, u);
    if have + copy > total {
      mode := Bad;
    } else {
      Copied(lens[..], have, u, len, copy, t);
      FillLens(lens, have, len, copy);
      have' := have + copy;
    }
  }

  lemma WaitsForExtra(s: State, f: Found, bits: nat, hold: nat)
    requires s.mode == CodeLens && Decode(s.clens, s.x, s.n) == Sym(f.val) && f.val >= 16 && f.val < |s.clens|
    requires s.clens[f.val] == f.bits
    requires s.x == hold && s.n == bits < f.bits + Extras(f.val) && |s.lens| < s.nlen + s.ndist
    ensures TightFor(s, bits, hold)
  {
    hide Decode;
  }

  lemma NoLens(lens: seq<nat>, have: nat, s: State)
    requires HasLens(lens, have, s)
    ensures have == 0 <==> s.lens == []
  {
  }

  lemma HaveIs(lens: seq<nat>, have: nat, s: State)
    requires HasLens(lens, have, s)
    ensures have == |s.lens|
  {
  }

  lemma LastLen(lens: seq<nat>, have: nat, s: State)
    requires HasLens(lens, have, s)
    ensures have > 0 ==> have <= |lens| && lens[have - 1] == s.lens[|s.lens| - 1] && lens[have - 1] <= MAXBITS
    ensures have == |s.lens|
  {
    if have > 0 {
      assert lens[..have][have - 1] == lens[have - 1];
    }
  }

  lemma RepeatIs(w: State, len: nat, copy: nat)
    ensures var t := Repeat(w, len, copy);
      && t.x == w.x && t.n == w.n && t.room == w.room && t.out == w.out
      && (if |w.lens| + copy > w.nlen + w.ndist then t == w.(mode := Bad) else 
          t == w.(lens := w.lens + Copies(len, copy)))
  {
  }

  lemma Copied(lens: seq<nat>, have: nat, s: State, len: nat, copy: nat, t: State)
    requires HasLens(lens, have, s) && have + copy <= s.nlen + s.ndist && len <= MAXBITS
    requires t.lens == s.lens + Copies(len, copy) && t.nlen == s.nlen && t.ndist == s.ndist
    ensures have + copy <= |lens| && HasLens(lens[..have] + Copies(len, copy) + lens[have + copy..], have + copy, t)
  {
    var l := lens[..have] + Copies(len, copy) + lens[have + copy..];
    assert l[..have + copy] == lens[..have] + Copies(len, copy);
  }

  method FillLens(lens: array<nat>, have: nat, len: nat, copy: nat)
    requires have + copy <= lens.Length
    modifies lens
    ensures lens[..] == old(lens[..have]) + Copies(len, copy) + old(lens[have + copy..])
  {
    var i := 0;
    while i < copy
      invariant 0 <= i <= copy && lens[..] == old(lens[..have]) + Copies(len, i) + old(lens[have + i..])
    {
      lens[have + i] := len;
      assert Copies(len, i + 1) == Copies(len, i) + [len];
      i := i + 1;
    }
  }

  /** All symbols that are there. */
  method CodeLensCase(r: Reader, o: Output, table: array<Code>, at: nat, root: nat, lens: array<nat>, have: nat,
                      total: nat, ghost s: State)
      returns (leave: bool, mode: Mode, have': nat, ghost t: State)
    requires InStep(r, o, s) && s.mode == CodeLens && TightFor(s, r.bits, r.hold)
    requires Usable(table[..], at, root, CODES, s.clens)
    requires HasLens(lens[..], have, s) && total == s.nlen + s.ndist && Fine(s)
    modifies r`next, r`hold, r`bits, lens
    ensures InStep(r, o, t) && Leads(s, t) && Fine(t) && (leave ==> Step(t) == Wait) && TightFor(t, r.bits, r.hold)
    ensures (mode == CodeLens || mode == Bad)
    ensures t == s.(mode := mode, x := t.x, n := t.n, lens := t.lens)
    ensures mode == CodeLens ==> HasLens(lens[..], have', t) && have' <= total && (!leave ==> have' == total)
  {
    hide InStep, TightFor, Usable, Step, HasLens, Leads, Fine;
    leave, mode, have', t := false, CodeLens, have, s;
    LeadsSelf(s);
    HaveIs(lens[..], have, s);
    AtMostTotal(lens[..], have, s);
    while have' < total && mode == CodeLens
      invariant InStep(r, o, t) && Leads(s, t) && Fine(t) && TightFor(t, r.bits, r.hold)
      invariant (mode == CodeLens || mode == Bad)
      invariant t == s.(mode := mode, x := t.x, n := t.n, lens := t.lens)
      invariant mode == CodeLens ==> HasLens(lens[..], have', t) && have' <= total
      decreases total - have', if mode == CodeLens then 1 else 0
    {
      ghost var u := t;
      var h;
      leave, mode, h, t := CodeLensOne(r, o, table, at, root, lens, have', total, u);
      if leave {
        if mode == CodeLens {
          AtMostTotal(lens[..], h, t);
        }
        have' := h;
        return;
      }
      Moves(u, t);
      LeadsTrans(s, u, t);
      if mode == CodeLens {
        AtMostTotal(lens[..], h, t);
        have' := h;
      }
    }
  }

  lemma AtMostTotal(lens: seq<nat>, have: nat, s: State)
    requires HasLens(lens, have, s)
    ensures have <= s.nlen + s.ndist
  {
  }

  /** The state once the code lengths are all in. */
  function AfterLens(s: State, mode: Mode): State
    requires s.nlen <= |s.lens|
  {
    if mode == Len then s.(mode := Len, lencode := s.lens[..s.nlen], distcode := s.lens[s.nlen..]) else s.(mode := mode)
  }

  /** All lengths are in: the two tables, unless the lengths are no good or a table would
      not fit into the space reserved for it. */
  method CodeLensDone(lens: array<nat>, lt: array<Code>, dt: array<Code>, work: array<nat>, nlen: nat, ndist: nat,
                      ghost s: State)
      returns (mode: Mode, lenBits: nat, distBits: nat)
    requires s.mode == CodeLens && s.nlen == nlen && s.ndist == ndist && 257 <= nlen <= 286 && 1 <= ndist <= 30
    requires s.limited
    requires HasLens(lens[..], nlen + ndist, s) && lt.Length == ENOUGH_LENS && dt.Length == ENOUGH_DISTS && lt != dt
    requires work.Length == 288 && work != lens
    modifies lt, dt, work
    ensures mode == Len || mode == Bad
    ensures Step(s) == Next(AfterLens(s, mode))
    ensures mode == Len ==> TablesFor(lt[..], lenBits, dt[..], distBits, AfterLens(s, mode))
  {
    hide Refused, NoCodes, Built, CodeOk, Step, Usable, Exceeds;
    mode, lenBits, distBits := Bad, 0, 0;
    LensSplit(lens[..], s);
    LensStep(s);
    if lens[256] == 0 {
      return;
    }
    SomeCode(s.lens[..nlen], 256);
    var ret, bits := MakeTable(LENS, lens[..nlen], lt, 9, work);
    if ret != 0 {
      return;
    }
    lenBits := bits;
    ret, bits := MakeTable(DISTS, lens[nlen..nlen + ndist], dt, 6, work);
    if ret != 0 {
      return;
    }
    mode, distBits := Len, bits;
  }

  /** inflate_table, with what its result means for decoding. */
  method MakeTable(typ: CodeType, lens: seq<nat>, t: array<Code>, bits: nat, work: array<nat>) returns (ret: int,
                   root: nat)
    requires typ != CODES && Lengths(lens) && |lens| <= MaxSymbols(typ) && work.Length >= |lens|
    requires 0 < bits && t.Length == if typ == LENS then ENOUGH_LENS else ENOUGH_DISTS
    modifies t, work
    ensures ret == 0 || ret == 1 || ret == -1
    ensures ret == -1 <==> !NoCodes(lens) && Refused(typ, lens)
    ensures ret == 1 <==> Exceeds(typ, lens, bits)
    ensures ret == 0 ==> Usable(t[..], 0, root, typ, lens) && root == RootBits(lens, bits)
  {
    hide Refused, NoCodes, Built, Need, RootBits;
    var end;
    ret, end, root := InflateTable.InflateTable(typ, lens, t, 0, bits, work);
    NotRefusedOk(typ, lens);
  }

  lemma LensSplit(lens: seq<nat>, s: State)
    requires HasLens(lens, s.nlen + s.ndist, s) && 257 <= s.nlen
    ensures |s.lens| == s.nlen + s.ndist && lens[..s.nlen] == s.lens[..s.nlen]
    ensures lens[s.nlen..s.nlen + s.ndist] == s.lens[s.nlen..]
    ensures lens[256] == s.lens[256] && Lengths(s.lens[..s.nlen]) && Lengths(s.lens[s.nlen..])
  {
    var n := s.nlen + s.ndist;
    assert lens[..n][..s.nlen] == lens[..s.nlen];
    assert lens[..n][s.nlen..] == lens[s.nlen..n];
    assert lens[..n][256] == lens[256];
  }

  lemma LensStep(s: State)
    requires s.mode == CodeLens && |s.lens| == s.nlen + s.ndist && 257 <= s.nlen && 1 <= s.ndist && s.limited
    ensures var l, d := s.lens[..s.nlen], s.lens[s.nlen..];
      Step(s) == Next(if s.lens[256] == 0 || Refused(LENS, l) || (!NoCodes(d) && Refused(DISTS, d))
        || Exceeds(LENS, l, 9) || Exceeds(DISTS, d, 6) then AfterLens(s, Bad) else AfterLens(s, Len))
  {
    hide Refused, NoCodes, Decode, Exceeds;
    assert Step(s) == StepCodeLens(s);
  }

  lemma SomeCode(lens: seq<nat>, k: nat)
    requires k < |lens| && lens[k] != 0
    ensures !NoCodes(lens)
  {
  }
}
