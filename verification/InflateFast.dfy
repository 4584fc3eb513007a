/** inffast.c: the decoding loop that does not check for input and output. */
module InflateFast {
  import opened Bits
  import opened Canonical
  import opened InflateTable
  import opened InflateSpec
  import opened HeaderDecode
  import opened SymbolCodes
  import opened BlockDecode
  import opened BitWriter
  import opened BitReader
  import opened TableDecode
  import opened InflateOutput

  // ---- What the table entries make of the state ----

  predicate Has(op: nat, bit: nat)
    requires bit > 0
  {
    op / bit % 2 == 1
  }

  /** After a literal/length entry: a literal, a length, the end of the block or an error. */
  function AfterLen(s: State, f: Found): State
    requires f.bits <= s.n
  {
    var t := Drop(s, f.bits);
    if f.op == 0 then t.(mode := Lit, length := f.val)
    else if Has(f.op, 16) then t.(mode := LenExt, length := f.val, extra := f.op % 16)
    else if Has(f.op, 32) then t.(mode := Type)
    else t.(mode := Bad)
  }

  function AfterDist(s: State, f: Found): State
    requires f.bits <= s.n
  {
    var t := Drop(s, f.bits);
    if Has(f.op, 16) then t.(mode := DistExt, offset := f.val, extra := f.op % 16)
    else t.(mode := Bad)
  }

  /** The operation codes of literal/length symbols tell the cases apart. */
  lemma LenOps(s: nat)
    requires s < 288
    ensures var op := Meaning(LENS, s).0;
      && (s < 256 ==> op == 0) && (s == 256 ==> op != 0 && !Has(op, 16) && Has(op, 32))
      && (256 < s < 286 ==> op != 0 && Has(op, 16) && op % 16 == LEXT[s - 257] - 16 && op % 16 <= 5)
      && (s >= 286 ==> op != 0 && !Has(op, 16) && !Has(op, 32))
  {
    if 256 < s < 265 {} else if 256 < s < 273 {} else if 256 < s < 281 {} else if 256 < s {}
  }

  lemma DistOps(s: nat)
    requires s < 32
    ensures var op := Meaning(DISTS, s).0;
      && (s < 30 ==> Has(op, 16) && op % 16 == DEXT[s] - 16 && op % 16 <= 13) && (s >= 30 ==> !Has(op, 16))
  {
    if s < 8 {} else if s < 16 {} else if s < 24 {} else {}
  }

  /** What the entry of a literal/length symbol says. */
  lemma LenFacts(sym: nat, l: nat)
    requires sym < 288
    ensures var f := FoundOf(Entry(LENS, sym,
      l)); f.bits == l && (sym < 256 <==> f.op == 0) && (sym < 256 ==> f.val == sym)
    ensures Has(FoundOf(Entry(LENS, sym, l)).op, 16) <==> 256 < sym < 286
    ensures sym >= 256 ==>
      (Has(FoundOf(Entry(LENS, sym, l)).op, 32) && !Has(FoundOf(Entry(LENS, sym, l)).op, 16) <==> sym == 256)
    ensures 256 < sym < 286 ==> LenMeans(sym, FoundOf(Entry(LENS, sym, l)))
  {
    LenOps(sym);
    LenRange(sym);
    LenEntry(sym, l);
    hide Entry, Meaning, FoundOf, Pow2, LBASE, LEXT, Has;
  }

  ghost predicate LenMeans(sym: nat, f: Found)
    requires 256 < sym < 286
  {
    && f.val == LBASE[sym - 257] && f.op % 16 == LEXT[sym - 257] - 16
    && f.op % 16 <= 5 && f.val >= 3 && f.val + Pow2(f.op % 16) <= 259
  }

  lemma InvalidFacts()
    ensures var f := FoundOf(INVALID); f.bits == 1 && f.op != 0 && !Has(f.op, 16) && !Has(f.op, 32)
  {
  }

  lemma LenFits()
    ensures |LBASE| >= 29 && |LEXT| >= 29
  {
  }

  lemma LenFound(s: State, f: Found)
    requires s.mode == Len && FoundFor(LENS, s.lencode, f, Decode(s.lencode, s.x, s.n)) && f.bits <= s.n
    ensures Step(s) == Next(AfterLen(s, f))
    ensures Has(f.op, 16) ==> f.op % 16 <= 5 && f.val >= 3 && f.val + Pow2(f.op % 16) <= 259
    ensures f.op == 0 ==> f.val < 256
  {
    InvalidFacts();
    LenFits();
    hide Low, Shr, Decode, Pow2, Entry, FoundOf, Has, LBASE, LEXT, INVALID;
    var d := Decode(s.lencode, s.x, s.n);
    if d.Sym? {
      LenFacts(d.sym, s.lencode[d.sym]);
    }
    assert Step(s) == StepLen(s);
  }

  /** No length is above 258, no distance above 32768. */
  lemma LenRange(s: nat)
    requires s < 288
    ensures 256 < s < 286 ==> LBASE[s - 257] >= 3 && LBASE[s - 257] + Pow2(LEXT[s - 257] - 16) <= 259
  {
    if 256 < s < 285 {
      LengthNext(s - 257);
      NextIsHigher(s - 257);
    } else if s == 285 {
      assert Pow2(0) == 1;
    }
  }

  lemma DistRangeOf(s: nat)
    requires s < 32
    ensures s < 30 ==> DBASE[s] + Pow2(DEXT[s] - 16) <= 32769
  {
    if s < 30 {
      DistNext(s);
      DistRange(s);
    }
  }

  lemma LenEntry(s: nat, l: nat)
    requires s < 288
    ensures var f := FoundOf(Entry(LENS, s, l));
      f.op == Meaning(LENS, s).0 && f.bits == l && (s < 256 ==> f.val == s) && (256 < s ==> f.val == LBASE[s - 257])
  {
  }

  lemma DistFound(s: State, f: Found)
    requires s.mode == Dist && FoundFor(DISTS, s.distcode, f, Decode(s.distcode, s.x, s.n)) && f.bits <= s.n
    ensures Step(s) == Next(AfterDist(s, f))
    ensures Has(f.op, 16) ==> f.op % 16 <= 13 && f.val >= 1 && f.val + Pow2(f.op % 16) <= 32769
  {
    hide Low, Shr, Decode, Pow2;
    var d := Decode(s.distcode, s.x, s.n);
    if d.Sym? {
      DistOps(d.sym);
      DistRangeOf(d.sym);
      DistEntryIs(d.sym, s.distcode[d.sym]);
      hide Entry, Meaning;
    }
    assert Step(s) == StepDist(s);
  }

  lemma DistEntryIs(s: nat, l: nat)
    requires s < 32
    ensures var f := FoundOf(Entry(DISTS, s, l));
      f.op == Meaning(DISTS, s).0 && f.bits == l && f.val == DBASE[s] && (s < 30 ==> f.val >= 1)
  {
    if s < 8 {} else if s < 16 {} else if s < 24 {} else {}
  }

  // ---- Looking up with fifteen bits there ----

  /** Both levels of a table, dropping the bits on the way. */
  method FastLookup(r: Reader, t: array<Code>, at: nat, root: nat, ghost typ: CodeType, ghost lens: seq<nat>)
      returns (found: Found)
    requires r.Valid() && r.bits >= MAXBITS && Usable(t[..], at, root, typ, lens)
    modifies r`hold, r`bits
    ensures r.Valid() && found.bits <= MAXBITS && r.bits == old(r.bits) - found.bits
    ensures found.bits <= old(r.Stream()).len
    ensures r.Stream() == BitString(Shr(old(r.Stream()).val, found.bits), old(r.Stream()).len - found.bits)
    ensures FoundFor(typ, lens, found, Decode(lens, old(r.Stream()).val, old(r.Stream()).len))
    ensures old(r.Recent()) ==> r.Recent()
    ensures r.hold == Shr(old(r.hold), found.bits)
  {
    hide Low, Shr, Usable, Built, Decode, FoundFor, LookupDefined, Lookup;
    ghost var s := r.Stream();
    AlwaysDecided(t[..], at, root, typ, lens, r.hold);
    Ends(r, t[..], at, root, typ, lens, true, Lookup(t[..], at, root, r.hold));
    LevelsOf(t[..], at, root, r.hold);
    r.Peek(r.bits);
    var here := t[at + Low(r.hold, root)];
    if 0 < here.op < 16 {
      var last := here;
      here := t[at + last.val + Low(Shr(r.hold, last.bits), last.op)];
      found := Found(here.op, here.val, last.bits + here.bits);
      ShrShr(s.val, last.bits, here.bits);
      ShrShr(r.hold, last.bits, here.bits);
      r.Drop(last.bits);
      r.Drop(here.bits);
    } else {
      found := Found(here.op, here.val, here.bits);
      r.Drop(here.bits);
    }
  }

  /** The two levels, the second indexed after the first has been dropped. */
  lemma LevelsOf(t: seq<Code>, at: nat, root: nat, h: nat)
    requires LookupDefined(t, at, root, h)
    ensures at + Low(h, root) < |t|
    ensures var e := t[at + Low(h, root)];
      if 0 < e.op < 16 then
        at + e.val + Low(Shr(h, e.bits), e.op) < |t| &&
        var g := t[at + e.val + Low(Shr(h, e.bits), e.op)]; Lookup(t, at, root, h) == Found(g.op, g.val,
          e.bits + g.bits)
      else Lookup(t, at, root, h) == Found(e.op, e.val, e.bits)
  {
    var e := t[at + Low(h, root)];
    ShrLow(h, e.bits, e.op);
    hide Low, Shr;
  }

  // ---- The state of the loop ----

  /** The buffers hold what the state says. */
  ghost predicate Synced(r: Reader, o: Output, s: State)
    requires r.next <= |r.input| && o.put <= o.out.Length
    reads r, o, o.out
  {
    s.x == r.Stream().val && s.n == r.Stream().len && s.room == o.out.Length - o.put && s.out == o.Hist()
  }

  /** Reader and output in order, and in step with the state. */
  ghost predicate InStep(r: Reader, o: Output, s: State)
    reads r, o, o.out, o.w, o.w.window
  {
    r.Valid() && o.Valid() && Synced(r, o, s)
  }

  ghost predicate TablesFor(lt: seq<Code>, lenBits: nat, dt: seq<Code>, distBits: nat, s: State) {
    Usable(lt, 0, lenBits, LENS, s.lencode) && Usable(dt, 0, distBits, DISTS, s.distcode)
  }

  /** Two more bytes if there are fewer than fifteen bits. */
  method Top(r: Reader)
    requires r.Valid() && (r.bits < MAXBITS ==> r.next + 2 <= |r.input|)
    modifies r`next, r`hold, r`bits
    ensures r.Valid() && (old(r.Recent()) ==> r.Recent()) && r.Stream() == old(r.Stream()) && r.bits >= MAXBITS
    ensures if old(r.bits) < MAXBITS then r.next == old(r.next) + 2 && r.bits == old(r.bits) + 16 && r.bits >= 16
      else r.next == old(r.next) && r.bits == old(r.bits)
  {
    if r.bits < MAXBITS {
      r.Pull();
      r.Pull();
    }
  }

  /** Extra bits, pulling bytes one by one as far as needed. */
  method Extra(r: Reader, n: nat) returns (v: nat)
    requires r.Valid() && r.Recent() && n <= 13 && (r.bits < n ==> r.next < |r.input|)
    requires (r.bits + 8 < n ==> r.next + 2 <= |r.input|)
    modifies r`next, r`hold, r`bits
    ensures r.Valid() && r.Recent() && n <= old(r.Stream()).len && v == Low(old(r.Stream()).val, n)
    ensures r.Stream() == BitString(Shr(old(r.Stream()).val, n), old(r.Stream()).len - n)
    ensures r.bits + n == old(r.bits) + 8 * (r.next - old(r.next)) && old(r.next) <= r.next
    ensures r.next == old(r.next) + (if old(r.bits) >= n then 0 else if old(r.bits) + 8 >= n then 1 else 2)
  {
    hide Low, Shr;
    if r.bits < n {
      r.Pull();
      if r.bits < n {
        r.Pull();
      }
    }
    r.Peek(n);
    v := Low(r.hold, n);
    r.Drop(n);
  }

  /** Only bits, output and scratch fields differ, and the mode is m. */
  ghost predicate Onward(s: State, t: State, m: Mode) {
    t == s.(mode := m, length := t.length, offset := t.offset, extra := t.extra, x := t.x, n := t.n, room := t.room,
      out := t.out)
  }

  lemma LeadsOne(s: State, t: State)
    requires Step(s) == Next(t)
    ensures Leads(s, t)
  {
    LeadsSelf(t);
    LeadsStep(s, t, t);
  }

  /** Extra bits of a length or a distance. */
  lemma ExtraLen(s: State, r: BitString, v: nat)
    requires s.mode == LenExt && s.extra <= s.n && v == Low(s.x, s.extra)
    requires r == BitString(Shr(s.x, s.extra), s.n - s.extra)
    ensures Step(s) == Next(At(s, r).(mode := Dist, length := s.length + v)) && v < Pow2(s.extra)
  {
    LowShr(s.x, s.extra);
    hide Low, Shr, Pow2;
    assert Step(s) == StepLenExt(s);
  }

  lemma ExtraDist(s: State, r: BitString, v: nat)
    requires s.mode == DistExt && s.extra <= s.n && v == Low(s.x, s.extra)
    requires r == BitString(Shr(s.x, s.extra), s.n - s.extra)
    ensures Step(s) == Next(At(s, r).(mode := Match, offset := s.offset + v)) && v < Pow2(s.extra)
  {
    LowShr(s.x, s.extra);
    hide Low, Shr, Pow2;
    assert Step(s) == StepDistExt(s);
  }

  /** A match from its length's extra bits on. p0 is where this symbol's input starts: six
      bytes are enough for all of it. */
  method FastMatch(r: Reader, o: Output, t: array<Code>, distAt: nat, distBits: nat, base: nat, extra: nat,
                   ghost s: State, ghost p0: nat)
      returns (mode: Mode, ghost s': State)
    requires InStep(r, o, s) && r.Recent() && s.mode == LenExt && s.length == base >= 3 && s.extra == extra <= 5
    requires base + Pow2(extra) <= 259 && o.put + 258 <= o.out.Length
    requires Usable(t[..], distAt, distBits, DISTS, s.distcode)
    requires p0 <= r.next <= p0 + 2 && p0 + 6 <= |r.input| && (r.next > p0 ==> r.next == p0 + 2 && r.bits >= 1)
    modifies r`next, r`hold, r`bits, o`put, o.out
    ensures InStep(r, o, s') && r.Recent() && r.next <= p0 + 6 && Leads(s, s') && (mode == Len || mode == Bad)
    ensures Onward(s, s', mode)
    ensures o.put >= old(o.put) && (mode == Len ==> o.put > old(o.put))
  {
    hide Low, Shr, Pow2, Usable, Leads, Step, InStep;
    var len;
    ghost var s1;
    len, s1 := FastLenExt(r, o, base, extra, s, p0);
    mode, s' := FastDist(r, o, t, distAt, distBits, len, s1, p0);
    LeadsTrans(s, s1, s');
  }

  /** The length's extra bits, and enough bits for a distance code. */
  method FastLenExt(r: Reader, o: Output, base: nat, extra: nat, ghost s: State, ghost p0: nat) returns (len: nat,
                    ghost s': State)
    requires InStep(r, o, s) && r.Recent() && s.mode == LenExt && s.length == base >= 3 && s.extra == extra <= 5
    requires base + Pow2(extra) <= 259
    requires p0 <= r.next <= p0 + 2 && p0 + 6 <= |r.input| && (r.next > p0 ==> r.next == p0 + 2 && r.bits >= 1)
    modifies r`next, r`hold, r`bits
    ensures InStep(r, o, s') && r.Recent() && Leads(s, s') && Onward(s, s', Dist) && s'.length == len && 3 <= len <= 258
    ensures r.bits >= MAXBITS && p0 <= r.next <= p0 + 5 && (r.next == p0 + 5 ==> r.bits >= 20)
  {
    hide Low, Shr, Pow2, Leads, Step;
    var v := Extra(r, extra);
    ExtraLen(s, r.Stream(), v);
    s' := At(s, r.Stream()).(mode := Dist, length := s.length + v);
    LeadsOne(s, s');
    len := base + v;
    Top(r);
  }

  /** The distance code, its extra bits, and the copy. */
  method FastDist(r: Reader, o: Output, t: array<Code>, distAt: nat, distBits: nat, len: nat, ghost s: State,
                  ghost p0: nat)
      returns (mode: Mode, ghost s': State)
    requires InStep(r, o, s) && r.Recent() && s.mode == Dist && s.length == len && 3 <= len <= 258 && r.bits >= MAXBITS
    requires o.put + 258 <= o.out.Length && Usable(t[..], distAt, distBits, DISTS, s.distcode)
    requires p0 <= r.next <= p0 + 5 && p0 + 6 <= |r.input| && (r.next == p0 + 5 ==> r.bits >= 20)
    modifies r`next, r`hold, r`bits, o`put, o.out
    ensures InStep(r, o, s') && r.Recent() && r.next <= p0 + 6 && Leads(s, s') && (mode == Len || mode == Bad)
    ensures Onward(s, s', mode)
    ensures o.put >= old(o.put) && (mode == Len ==> o.put > old(o.put))
  {
    hide Low, Shr, Pow2, Usable, Leads, Step, Decode, InStep;
    var ok, dist;
    ghost var s2;
    ok, dist, s2 := FastDistCode(r, o, t, distAt, distBits, s, p0);
    if !ok {
      mode, s' := Bad, s2;
      return;
    }
    mode, s' := FastCopy(r, o, len, dist, s2);
    LeadsTrans(s, s2, s');
  }

  /** The distance, unless its code is invalid. */
  method FastDistCode(r: Reader, o: Output, t: array<Code>, distAt: nat, distBits: nat, ghost s: State, ghost p0: nat)
      returns (ok: bool, dist: nat, ghost s': State)
    requires InStep(r, o, s) && r.Recent() && s.mode == Dist && r.bits >= MAXBITS
    requires Usable(t[..], distAt, distBits, DISTS, s.distcode)
    requires p0 <= r.next <= p0 + 5 && p0 + 6 <= |r.input| && (r.next == p0 + 5 ==> r.bits >= 20)
    modifies r`next, r`hold, r`bits
    ensures InStep(r, o, s') && r.Recent() && r.next <= p0 + 6 && Leads(s, s')
    ensures Onward(s, s', if ok then Match else Bad)
    ensures ok ==> s'.length == s.length && s'.offset == dist && 1 <= dist <= WSIZE
  {
    hide Low, Shr, Pow2, Usable, Leads, Step, Decode, Has, InStep;
    dist := 0;
    var g;
    g, s' := FastDistEntry(r, o, t, distAt, distBits, s);
    ok := Has(g.op, 16);
    if ok {
      ghost var s1 := s';
      dist, s' := FastDistExtra(r, o, g.val, g.op % 16, s1);
      LeadsTrans(s, s1, s');
    }
  }

  method FastDistEntry(r: Reader, o: Output, t: array<Code>, distAt: nat, distBits: nat,
                       ghost s: State) returns (g: Found, ghost s': State)
    requires InStep(r, o, s) && r.Recent() && s.mode == Dist && r.bits >= MAXBITS
    requires Usable(t[..], distAt, distBits, DISTS, s.distcode)
    modifies r`hold, r`bits
    ensures InStep(r, o, s') && r.Recent() && r.bits + MAXBITS >= old(r.bits) && Leads(s, s')
    ensures Onward(s, s', if Has(g.op, 16) then DistExt else Bad)
    ensures Has(g.op, 16) ==> s'.length == s.length && s'.offset == g.val >= 1 && s'.extra == g.op % 16 <= 13
    ensures Has(g.op, 16) ==> g.val + Pow2(g.op % 16) <= 32769
  {
    hide Low, Shr, Pow2, Usable, Leads, Step, Decode, Has;
    g := FastLookup(r, t, distAt, distBits, DISTS, s.distcode);
    DistFound(s, g);
    s' := AfterDist(s, g);
    LeadsOne(s, s');
  }

  method FastDistExtra(r: Reader, o: Output, base: nat, extra: nat, ghost s: State) returns (dist: nat, ghost s': State)
    requires InStep(r, o, s) && r.Recent() && s.mode == DistExt && s.offset == base >= 1 && s.extra == extra <= 13
    requires base + Pow2(extra) <= 32769
    requires (r.bits < extra ==> r.next < |r.input|) && (r.bits + 8 < extra ==> r.next + 2 <= |r.input|)
    modifies r`next, r`hold, r`bits
    ensures InStep(r, o, s') && r.Recent() && Leads(s, s') && Onward(s, s', Match)
    ensures s'.length == s.length && s'.offset == dist && 1 <= dist <= WSIZE
    ensures r.next == old(r.next) + (if old(r.bits) >= extra then 0 else if old(r.bits) + 8 >= extra then 1 else 2)
  {
    hide Low, Shr, Pow2, Leads, Step;
    var v := Extra(r, extra);
    ExtraDist(s, r.Stream(), v);
    dist := base + v;
    s' := At(s, r.Stream()).(mode := Match, offset := dist);
    LeadsOne(s, s');
  }

  /** The copy, unless the distance reaches back too far. */
  method FastCopy(r: Reader, o: Output, len: nat, dist: nat, ghost s: State) returns (mode: Mode, ghost s': State)
    requires InStep(r, o, s) && s.mode == Match && s.length == len && s.offset == dist && 1 <= len <= 258
    requires 1 <= dist <= WSIZE
    requires o.put + 258 <= o.out.Length
    modifies o`put, o.out
    ensures InStep(r, o, s') && Leads(s, s') && (mode == Len || mode == Bad) && Onward(s, s', mode)
    ensures o.put >= old(o.put) && (mode == Len ==> o.put > old(o.put))
  {
    hide Leads, CopyBack;
    FarIsFar(o, dist);
    if dist > o.put + o.w.whave {
      mode, s' := Bad, s.(mode := Bad);
      assert Step(s) == StepMatch(s) == Next(s');
      LeadsOne(s, s');
    } else {
      s' := MatchRun(s);
      o.CopyMatch(len, dist);
      mode := Len;
    }
  }

  /** What buffer and window hold is all that a distance can reach. */
  lemma FarIsFar(o: Output, dist: nat)
    requires o.Valid() && dist <= WSIZE
    ensures dist > o.put + o.w.whave <==> dist > |o.Hist()|
  {
    o.HistLong();
  }

  /** A code was cut short by the end of the last buffer. */
  ghost predicate Cut(r: Reader, s: State)
    reads r
  {
    r.bits < MAXBITS && Decode(s.lencode, r.hold, r.bits) == More
  }

  /** The literal/length code. A code cut short uses up all that was held before, so what is
      held afterwards comes from this buffer. */
  method FastLen(r: Reader, t: array<Code>, lenAt: nat, lenBits: nat, ghost s: State) returns (f: Found)
    requires r.Valid() && (r.Recent() || Cut(r, s)) && s.x == r.Stream().val && s.n == r.Stream().len
    requires Usable(t[..], lenAt, lenBits, LENS, s.lencode) && r.next + 6 <= |r.input|
    modifies r`next, r`hold, r`bits
    ensures r.Valid() && r.Recent() && f.bits <= s.n && r.Stream() == BitString(Shr(s.x, f.bits), s.n - f.bits)
    ensures FoundFor(LENS, s.lencode, f, Decode(s.lencode, s.x, s.n))
    ensures r.next == old(r.next) || (r.next == old(r.next) + 2 && r.bits >= 1)
  {
    hide Low, Shr, Pow2, Usable, Decode, FoundFor, Cat;
    ghost var h, b, p, recent := r.hold, r.bits, r.next, r.Recent();
    Top(r);
    ghost var hold := r.hold;
    if !recent {
      AbovePulled(h, b, r.hold, r.bits, r.input, r.next, 2);
    }
    f := FastLookup(r, t, lenAt, lenBits, LENS, s.lencode);
    if !recent {
      LongerThan(t[..], lenAt, lenBits, s.lencode, h, b, r.input[p..], s, f);
      RecentSince(hold, b, 2, f.bits, r.input, r.next);
    }
  }

  /** A code that was not decided by b bits is longer than b. */
  lemma LongerThan(t: seq<Code>, at: nat, root: nat, lens: seq<nat>, h: nat, b: nat, bytes: seq<byte>, s: State,
                   f: Found)
    requires Usable(t, at, root, LENS, lens) && h < Pow2(b) && Decode(lens, h, b) == More
    requires BitString(s.x, s.n) == Cat(BitString(h, b), BytesOf(bytes))
    requires FoundFor(LENS, lens, f, Decode(lens, s.x, s.n))
    ensures f.bits > b
  {
    hide BytesOf, Low, Pow2;
    LowOfCat(h, b, BytesOf(bytes), b);
    Needed(lens, h, b, s.x, s.n);
    var d := Decode(lens, s.x, s.n);
    if d.Sym? {
      EntryBits(LENS, d.sym, lens[d.sym]);
    }
  }

  /** One symbol. It takes at most six bytes of input and 258 of output. */
  method FastSymbol(r: Reader, o: Output, lt: array<Code>, lenBits: nat, dt: array<Code>, distBits: nat, ghost s: State)
      returns (mode: Mode, ghost s': State)
    requires InStep(r, o, s) && (r.Recent() || Cut(r, s)) && s.mode == Len
    requires TablesFor(lt[..], lenBits, dt[..], distBits, s)
    requires r.next + 6 <= |r.input| && o.put + 258 <= o.out.Length
    modifies r`next, r`hold, r`bits, o`put, o.out
    ensures InStep(r, o, s') && r.Recent() && r.next <= old(r.next) + 6 && Leads(s, s') && Onward(s, s', mode)
    ensures mode == Len || mode == Type || mode == Bad
    ensures o.put >= old(o.put) && (mode == Len ==> o.put > old(o.put))
  {
    hide Low, Shr, Pow2, Usable, Leads, Step, Decode;
    ghost var p0 := r.next;
    var f := FastLen(r, lt, 0, lenBits, s);
    LenFound(s, f);
    s' := AfterLen(s, f);
    LeadsOne(s, s');
    if f.op == 0 {
      s' := FastLiteral(r, o, f.val, s, s');
      mode := Len;
    } else if Has(f.op, 16) {
      ghost var s1 := s';
      mode, s' := FastMatch(r, o, dt, 0, distBits, f.val, f.op % 16, s1, p0);
      LeadsTrans(s, s1, s');
    } else if Has(f.op, 32) {
      mode := Type;
    } else {
      mode := Bad;
    }
  }

  lemma LitStep(s: State, b: nat)
    requires s.mode == Lit && s.length == b < 256 && s.room > 0
    ensures Step(s) == Next(s.(mode := Len, room := s.room - 1, out := s.out + [b]))
  {
    assert b % 256 == b;
  }

  method FastLiteral(r: Reader, o: Output, b: nat, ghost s: State, ghost s1: State) returns (ghost s': State)
    requires InStep(r, o, s1) && s1.mode == Lit && s1.length == b < 256 && o.put < o.out.Length && Leads(s, s1)
    modifies o`put, o.out
    ensures InStep(r, o, s') && Leads(s, s') && s' == s1.(mode := Len, room := s1.room - 1, out := s1.out + [b])
    ensures o.put == old(o.put) + 1
  {
    hide Leads, Step;
    s' := s1.(mode := Len, room := s1.room - 1, out := s1.out + [b]);
    LitStep(s1, b);
    LeadsOne(s1, s');
    LeadsTrans(s, s1, s');
    o.Put(b);
  }

  /** inflate_fast: from mode Len, with fewer than eight bits held or a code cut short by the
      end of the last buffer, six bytes of input and room for 258, on to where the checked
      states of inflate lead: the same output, the same place in the stream, the same mode.
      Whole bytes go back at the end. */
  method InflateFast(r: Reader, o: Output, lt: array<Code>, lenBits: nat, dt: array<Code>, distBits: nat,
                     ghost s: State)
      returns (mode: Mode, ghost s': State)
    requires InStep(r, o, s) && (r.bits < 8 || Cut(r, s)) && s.mode == Len
    requires TablesFor(lt[..], lenBits, dt[..], distBits, s)
    requires r.next + 6 <= |r.input| && o.put + 258 <= o.out.Length
    modifies r`next, r`hold, r`bits, o`put, o.out
    ensures InStep(r, o, s') && r.bits < 8 && Leads(s, s') && Onward(s, s', mode)
    ensures mode == Len || mode == Type || mode == Bad
    ensures mode == Len ==> o.put > old(o.put)
  {
    hide Low, Shr, Pow2, Usable, Leads, Step;
    if r.bits < 8 {
      FewIsRecent(r);
    }
    mode, s' := Len, s;
    LeadsSelf(s);
    while true
      invariant InStep(r, o, s') && (r.Recent() || Cut(r, s')) && Leads(s, s') && Onward(s, s', Len)
      invariant TablesFor(lt[..], lenBits, dt[..], distBits, s')
      invariant r.next + 6 <= |r.input| && o.put + 258 <= o.out.Length && o.out == old(o.out)
      invariant o.put >= old(o.put)
      decreases o.out.Length - o.put
    {
      ghost var s1 := s';
      mode, s' := FastSymbol(r, o, lt, lenBits, dt, distBits, s1);
      LeadsTrans(s, s1, s');
      if mode != Len || !(|r.input| - r.next >= 6 && o.out.Length - o.put >= 258) {
        break;
      }
    }
    r.GiveBack();
  }

  lemma FewIsRecent(r: Reader)
    requires r.Valid() && r.bits < 8
    ensures r.Recent()
  {
    LowSmall(r.hold, r.bits);
    assert r.input[r.next..r.next] == [];
    NoBytes();
  }
}
