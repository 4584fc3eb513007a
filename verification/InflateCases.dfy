/** inflate.c: the cases of the state machine. Each pulls the bits it needs, does what the
    state of the stream without buffers does, and leaves fewer than eight bits behind unless
    it has to wait. */
module InflateCases {
  import opened Bits
  import opened Canonical
  import opened InflateTable
  import opened InflateSpec
  import opened InflateChunks
  import opened HeaderDecode
  import opened BlockDecode
  import opened BitWriter
  import opened BitReader
  import opened TableDecode
  import opened InflateOutput
  import opened InflateFast
  import Adler

  /** What the state knows of the bits held. */
  lemma Known(r: Reader, o: Output, s: State, k: nat)
    requires InStep(r, o, s) && k <= r.bits
    ensures r.bits <= s.n && Low(s.x, k) == Low(r.hold, k) && s.n % 8 == r.bits % 8
    ensures r.next == |r.input| ==> s.n == r.bits && s.x == r.hold
  {
    hide Low, BytesOf, Pow2, Cat;
    r.Peek(k);
    StreamLen(r);
    if r.next == |r.input| {
      AllHeld(r);
    }
  }

  lemma StreamLen(r: Reader)
    requires r.Valid()
    ensures r.Stream().len == r.bits + 8 * (|r.input| - r.next) && r.Stream().len % 8 == r.bits % 8
  {
    hide BytesOf, Pow2;
    BytesValid(r.input[r.next..]);
  }

  /** Low bits further up. */
  lemma KnownAbove(r: Reader, o: Output, s: State, a: nat, b: nat)
    requires InStep(r, o, s) && a + b <= r.bits
    ensures Low(Shr(s.x, a), b) == Low(Shr(r.hold, a), b)
  {
    hide Low, Shr;
    r.Peek(a + b);
    ShrLow(s.x, a, b);
    ShrLow(r.hold, a, b);
  }

  /** Being in step is about bits and output only. */
  lemma AlsoInStep(r: Reader, o: Output, s: State, t: State)
    requires InStep(r, o, s) && s.x == t.x && s.n == t.n && s.room == t.room && s.out == t.out
    ensures InStep(r, o, t)
  {
  }

  /** NEEDBITS: if it fails, the input is used up. */
  method NeedBits(r: Reader, o: Output, n: nat, ghost s: State) returns (ok: bool)
    requires InStep(r, o, s) && (n <= 25 || (n <= 32 && r.bits % 8 == 0))
    modifies r`next, r`hold, r`bits
    ensures InStep(r, o, s) && old(r.bits) <= r.bits <= s.n && (r.bits - old(r.bits)) % 8 == 0 && s.n % 8 == r.bits % 8
    ensures if ok
      then r.bits >= n && (old(r.bits) < n ==> r.bits < n + 8) && (old(r.bits) >= n ==> r.bits == old(r.bits))
      else r.bits < n && s.n == r.bits && s.x == r.hold && r.next == |r.input|
    ensures Low(s.x, r.bits) == Low(r.hold, r.bits)
  {
    hide Low, Pow2, BytesOf, Cat;
    ok := r.Need(n);
    Known(r, o, s, r.bits);
  }

  /** DROPBITS. */
  method DropBits(r: Reader, o: Output, k: nat, ghost s: State) returns (ghost s': State)
    requires InStep(r, o, s) && k <= r.bits
    modifies r`hold, r`bits
    ensures k <= s.n && s' == Drop(s, k) && InStep(r, o, s') && r.bits == old(r.bits) - k
    ensures r.hold == Shr(old(r.hold), k)
  {
    hide Low, Shr, Pow2, BytesOf, Cat;
    r.Drop(k);
    s' := Drop(s, k);
  }

  /** A step keeps the state fine. */
  lemma Moves(s: State, t: State)
    requires Fine(s) && Step(s) == Next(t)
    ensures Fine(t) && Leads(s, t)
  {
    StepFed(s, [], 0);
    LeadsOne(s, t);
  }

  /** The code length code lengths read so far. */
  ghost predicate LensTo(lens: seq<nat>, clens: seq<nat>, have: nat) {
    && |lens| >= 19 && |clens| == 19 && have <= 19
    && (forall i :: 0 <= i < 19 ==> clens[i] < 8)
    && forall i :: 0 <= i < 19 ==> if PLACE[i] < have then lens[i] == clens[i] else clens[i] == 0
  }

  /** A repeat symbol is there, but not all of its extra bits. */
  ghost predicate CutRepeat(clens: seq<nat>, h: nat, b: nat) {
    var d := Decode(clens, h, b);
    d.Sym? && d.sym >= 16 && b < clens[d.sym] + (if d.sym == 16 then 2 else if d.sym == 17 then 3 else 7)
  }

  /** Fewer than eight bits are held, unless a field is waiting for more. Fields that end on
      a byte start on one. */
  ghost predicate TightFor(s: State, bits: nat, hold: nat) {
    match s.mode
    case Head => bits % 8 == 0 && bits < 16 && (s.wrap || bits == 0)
    case Copy => bits == 0
    case Stored => bits < 8 || (bits % 8 == 0 && bits < 32)
    case Check => bits % 8 == 0 && bits < 32
    case Table => bits < 14
    case DistExt => bits < 8 || bits < s.extra
    case CodeLens =>
      || bits < 8
      || (|s.lens| < s.nlen + s.ndist && (Decode(s.clens, hold, bits) == More || CutRepeat(s.clens, hold, bits)))
    case Len => bits < 8 || (bits < MAXBITS && Decode(s.lencode, hold, bits) == More)
    case Dist => bits < 8 || Decode(s.distcode, hold, bits) == More
    case Bad => true
    case Dict => true
    case Done => true
    case _ => bits < 8
  }

  /** A case has moved on by one state, or waits. */
  ghost predicate Went(s: State, leave: bool, t: State) {
    if leave then t == s && Step(s) == Wait else Step(s) == Next(t)
  }

  /** HEAD: the two bytes of the zlib header; the accumulator holds just them. */
  method HeadCase(r: Reader, o: Output, wrap: bool, ghost s: State) returns (leave: bool, mode: Mode, ghost t: State)
    requires InStep(r, o, s) && s.mode == Head && s.wrap == wrap && TightFor(s, r.bits, r.hold)
    modifies r`next, r`hold, r`bits
    ensures InStep(r, o, t) && Went(s, leave, t) && t.mode == mode && t.wrap == s.wrap && t.last == s.last
    ensures TightFor(t, r.bits, r.hold)
    ensures mode == Head || mode == Bad || mode == Dict || mode == Type
  {
    hide Low, Shr, Pow2, InStep;
    leave, mode, t := false, Type, s.(mode := Type);
    assert Step(s) == StepHead(s);
    if !wrap {
      AlsoInStep(r, o, s, t);
      return;
    }
    var ok := NeedBits(r, o, 16, s);
    if !ok {
      leave, mode, t := true, Head, s;
      return;
    }
    Known(r, o, s, 8);
    KnownAbove(r, o, s, 8, 8);
    var b0, b1 := Low(r.hold, 8), Low(Shr(r.hold, 8), 8);
    if (b0 * 256 + b1) % 31 != 0 || b0 % 16 != 8 {
      DropNone(s);
      mode, t := Bad, s.(mode := Bad);
      AlsoInStep(r, o, s, t);
    } else if b0 / 16 + 8 > 15 {
      ghost var u := DropBits(r, o, 4, s);
      mode, t := Bad, u.(mode := Bad);
      AlsoInStep(r, o, u, t);
    } else {
      ghost var u := DropBits(r, o, 16, s);
      mode := if b1 / 32 % 2 == 1 then Dict else Type;
      t := u.(mode := mode);
      AlsoInStep(r, o, u, t);
    }
  }

  /** TYPEDO: the end of the stream, or a block's header bits. */
  method TypeCase(r: Reader, o: Output, last: bool, ghost s: State) returns (leave: bool, mode: Mode, last': bool,
                  ghost t: State)
    requires InStep(r, o, s) && s.mode == Type && s.last == last && TightFor(s, r.bits, r.hold)
    modifies r`next, r`hold, r`bits
    ensures InStep(r, o, t) && Went(s, leave, t) && t.mode == mode && t.wrap == s.wrap && t.last == last'
    ensures TightFor(t, r.bits, r.hold)
    ensures mode == Type || mode == Check || mode == Stored || mode == Len || mode == Table || mode == Bad
    ensures mode == Len ==> t.lencode == FixedLit() && t.distcode == FixedDist() && r.bits < 8
  {
    hide Low, Shr, Pow2, InStep, FixedLit, FixedDist, Decode, Step, AfterType;
    leave, mode, last', t := false, Check, last, s;
    TypeEnds(s);
    if last {
      Known(r, o, s, 0);
      ghost var u := DropBits(r, o, r.bits % 8, s);
      t := u.(mode := Check);
      AlsoInStep(r, o, u, t);
      return;
    }
    var ok := NeedBits(r, o, 3, s);
    if !ok {
      leave, mode := true, Type;
      return;
    }
    Known(r, o, s, 1);
    KnownAbove(r, o, s, 1, 2);
    last' := Low(r.hold, 1) == 1;
    var kind := Low(Shr(r.hold, 1), 2);
    ghost var u := DropBits(r, o, 3, s);
    mode := if kind == 0 then Stored else if kind == 1 then Len else if kind == 2 then Table else Bad;
    t := AfterType(u, last', kind);
    TypeIs(s, u, last', kind, r.bits, r.hold);
    AlsoInStep(r, o, u, t);
  }

  lemma TypeEnds(s: State)
    requires s.mode == Type
    ensures s.last ==> Step(s) == Next(Drop(s, s.n % 8).(mode := Check))
    ensures !s.last && s.n < 3 ==> Step(s) == Wait
  {
    hide Low, Shr, FixedLit, FixedDist;
    assert Step(s) == StepType(s);
  }

  /** The block that the three header bits call for. */
  ghost function AfterType(u: State, last: bool, kind: nat): State {
    if kind == 0 then u.(last := last, mode := Stored)
    else if kind == 1 then u.(last := last, mode := Len, lencode := FixedLit(), distcode := FixedDist())
    else if kind == 2 then u.(last := last, mode := Table)
    else u.(last := last, mode := Bad)
  }

  lemma TypeIs(s: State, u: State, last: bool, kind: nat, bits: nat, hold: nat)
    requires s.mode == Type && !s.last && 3 <= s.n && u == Drop(s, 3) && last == (Low(s.x, 1) == 1)
    requires kind == Low(Shr(s.x, 1), 2)
    requires bits < 8
    ensures var t := AfterType(u, last, kind);
      && Step(s) == Next(t) && TightFor(t, bits, hold) && t.wrap == s.wrap && t.last == last
      && t.x == u.x && t.n == u.n && t.room == u.room && t.out == u.out
      && t.mode == (if kind == 0 then Stored else if kind == 1 then Len else if kind == 2 then Table else Bad)
      && (t.mode == Len ==> t.lencode == FixedLit() && t.distcode == FixedDist())
  {
    hide Low, Shr, FixedLit, FixedDist, Decode;
    assert Step(s) == StepType(s);
  }

  /** STORED: on to a byte boundary, then the length and its complement. */
  method StoredCase(r: Reader, o: Output, ghost s: State) returns (leave: bool, mode: Mode, length: nat, ghost t: State)
    requires InStep(r, o, s) && s.mode == Stored && TightFor(s, r.bits, r.hold)
    modifies r`next, r`hold, r`bits
    ensures InStep(r, o, t) && Leads(s, t) && (leave ==> Step(t) == Wait) && t.mode == mode && t.wrap == s.wrap
    ensures t.last == s.last
    ensures TightFor(t, r.bits, r.hold) && (mode == Stored || mode == Copy || mode == Bad)
    ensures (mode == Copy ==> t.length == length)
    ensures mode == Stored ==> leave
  {
    hide Low, Shr, Pow2, InStep, Leads;
    length := 0;
    Known(r, o, s, 0);
    LeadsSelf(s);
    ghost var u := s;
    if r.bits % 8 != 0 {
      u := DropBits(r, o, r.bits % 8, s);
      assert Step(s) == StepStored(s) == Next(u);
      LeadsOne(s, u);
    }
    var l;
    leave, mode, l, t := StoredFields(r, o, u);
    length := l;
    if !leave {
      LeadsOne(u, t);
      LeadsTrans(s, u, t);
    }
  }

  method StoredFields(r: Reader, o: Output, ghost s: State) returns (leave: bool, mode: Mode, length: nat,
                      ghost t: State)
    requires InStep(r, o, s) && s.mode == Stored && r.bits % 8 == 0 && r.bits < 32
    modifies r`next, r`hold, r`bits
    ensures InStep(r, o, t) && Went(s, leave, t) && t.mode == mode && t.wrap == s.wrap && t.last == s.last
    ensures TightFor(t, r.bits, r.hold) && (mode == Stored || mode == Copy || mode == Bad)
    ensures (mode == Copy ==> t.length == length)
    ensures mode == Stored ==> leave
  {
    hide Low, Shr, Pow2, InStep;
    leave, mode, length, t := true, Stored, 0, s;
    Known(r, o, s, 0);
    var ok := NeedBits(r, o, 32, s);
    assert Step(s) == StepStored(s);
    if !ok {
      return;
    }
    leave := false;
    Known(r, o, s, 16);
    KnownAbove(r, o, s, 16, 16);
    length := Low(r.hold, 16);
    if length + Low(Shr(r.hold, 16), 16) != 0xffff {
      mode, t := Bad, s.(mode := Bad);
      AlsoInStep(r, o, s, t);
    } else {
      ghost var u := DropBits(r, o, 32, s);
      mode, t := Copy, u.(mode := Copy, length := length);
      AlsoInStep(r, o, u, t);
    }
  }

  /** TABLE: the three counts. */
  method TableCase(r: Reader, o: Output, ghost s: State)
      returns (leave: bool, mode: Mode, nlen: nat, ndist: nat, ncode: nat, ghost t: State)
    requires InStep(r, o, s) && s.mode == Table && TightFor(s, r.bits, r.hold)
    modifies r`next, r`hold, r`bits
    ensures InStep(r, o, t) && Went(s, leave, t) && t.mode == mode && t.wrap == s.wrap && t.last == s.last
    ensures TightFor(t, r.bits, r.hold)
    ensures mode == Table || mode == LenLens || mode == Bad
    ensures mode == LenLens ==>
      && t.nlen == nlen && t.ndist == ndist && t.ncode == ncode && 257 <= nlen <= 286 && 1 <= ndist <= 30
      && 4 <= ncode <= 19
      && t.have == 0 && t.clens == ZEROS && t.lens == []
  {
    hide Low, Shr, Pow2, InStep;
    leave, mode, nlen, ndist, ncode, t := true, Table, 0, 0, 0, s;
    var ok := NeedBits(r, o, 14, s);
    assert Step(s) == StepTable(s);
    if !ok {
      return;
    }
    leave := false;
    Known(r, o, s, 5);
    KnownAbove(r, o, s, 5, 5);
    KnownAbove(r, o, s, 10, 4);
    nlen, ndist, ncode := Low(r.hold, 5) + 257, Low(Shr(r.hold, 5), 5) + 1, Low(Shr(r.hold, 10), 4) + 4;
    CountRange(r.hold);
    ghost var u := DropBits(r, o, 14, s);
    t := u.(nlen := nlen, ndist := ndist, ncode := ncode, clens := ZEROS, lens := []);
    if nlen > 286 || ndist > 30 {
      mode, t := Bad, t.(mode := Bad);
    } else {
      mode, t := LenLens, t.(mode := LenLens, have := 0);
    }
    AlsoInStep(r, o, u, t);
  }

  lemma CountRange(h: nat)
    ensures Low(Shr(h, 10), 4) <= 15
  {
    LowShr(Shr(h, 10), 4);
    assert Pow2(4) == 16;
  }

  // ---- Copying stored bytes, literals and matches ----

  lemma CopyStep(s: State)
    requires s.mode == Copy && s.length > 0 && s.n >= 8 && s.room > 0 && Low(s.x, 8) < 256
    ensures Step(s) == Next(Drop(s, 8).(length := s.length - 1, room := s.room - 1, out := s.out + [Low(s.x, 8)]))
  {
    hide Low, Shr;
  }

  /** COPY: as many bytes as are there and fit. */
  method CopyCase(r: Reader, o: Output, length: nat, ghost s: State) returns (leave: bool, mode: Mode, length': nat,
                  ghost t: State)
    requires InStep(r, o, s) && s.mode == Copy && s.length == length && r.bits == 0
    modifies r`next, o`put, o.out
    ensures InStep(r, o, t) && Leads(s, t) && (leave ==> Step(t) == Wait) && Onward(s, t, mode) && r.bits == 0
    ensures (mode == Copy && t.length == length') || mode == Type
    ensures !leave ==> mode == Type || length' < length
  {
    hide Low, Shr, Pow2, BytesOf, Cat, Leads;
    leave, mode, length', t := false, Copy, length, s;
    LeadsSelf(s);
    if length == 0 {
      mode, t := Type, s.(mode := Type);
      assert Step(s) == Next(t);
      LeadsOne(s, t);
      return;
    }
    Known(r, o, s, 0);
    StreamLen(r);
    var have, left := |r.input| - r.next, o.out.Length - o.put;
    var copy := if length > have then have else length;
    copy := if copy > left then left else copy;
    if copy == 0 {
      leave := true;
      assert Step(s) == Wait;
      return;
    }
    var i := 0;
    while i < copy
      invariant 0 <= i <= copy && InStep(r, o, t) && Leads(s, t) && Onward(s, t, Copy) && t.length == length - i
      invariant r.bits == 0
      invariant o.out == old(o.out) && o.put == old(o.put) + i && r.next == old(r.next) + i && r.input == old(r.input)
    {
      ghost var u := t;
      t := CopyByte(r, o, t);
      LeadsTrans(s, u, t);
      i := i + 1;
    }
    length' := length - copy;
  }

  method CopyByte(r: Reader, o: Output, ghost s: State) returns (ghost t: State)
    requires InStep(r, o, s) && s.mode == Copy && s.length > 0 && r.bits == 0 && r.next < |r.input|
    requires o.put < o.out.Length
    modifies r`next, o`put, o.out
    ensures InStep(r, o, t) && Leads(s, t) && Onward(s, t, Copy) && t.length == s.length - 1 && o.put == old(o.put) + 1
    ensures r.next == old(r.next) + 1
  {
    hide Low, Shr, Pow2, BytesOf, Cat, Leads, Step;
    var b := r.Next();
    t := Drop(s, 8).(length := s.length - 1, room := s.room - 1, out := s.out + [b]);
    CopyStep(s);
    LeadsOne(s, t);
    o.Put(b);
  }

  /** LIT. */
  method LitCase(r: Reader, o: Output, length: nat, ghost s: State) returns (leave: bool, ghost t: State)
    requires InStep(r, o, s) && s.mode == Lit && s.length == length < 256
    modifies o`put, o.out
    ensures InStep(r, o, t) && Went(s, leave, t) && (!leave ==> Onward(s, t, Len))
    ensures o.out == old(o.out) && o.put >= old(o.put)
  {
    hide Leads;
    leave, t := true, s;
    assert Step(s) == StepLit(s);
    if o.put == o.out.Length {
      return;
    }
    hide Step;
    leave, t := false, s.(mode := Len, room := s.room - 1, out := s.out + [length]);
    LitStep(s, length);
    o.Put(length);
  }

  /** Several bytes of a match, one a step. */
  lemma {:induction false} MatchSome(s: State, n: nat) returns (t: State)
    requires s.mode == Match && 1 <= s.offset <= |s.out| && 1 <= n <= s.length && n <= s.room
    ensures Leads(s, t)
    ensures t == if n == s.length then s.(mode := Len, length := 0, room := s.room - n,
      out := CopyBack(s.out, n, s.offset))
      else s.(length := s.length - n, room := s.room - n, out := CopyBack(s.out, n, s.offset))
    decreases n
  {
    if n == s.length {
      t := MatchRun(s);
    } else {
      hide Leads, CopyBack;
      CopyOne(s.out, s.offset);
      var u := s.(length := s.length - 1, room := s.room - 1, out := CopyBack(s.out, 1, s.offset));
      assert Step(s) == StepMatch(s) == Next(u);
      if n == 1 {
        t := u;
        LeadsOne(s, t);
      } else {
        t := MatchSome(u, n - 1);
        CopyParts(s.out, 1, n - 1, s.offset);
        LeadsStep(s, u, t);
      }
    }
  }

  /** MATCH: a stretch of the match. */
  method MatchCase(r: Reader, o: Output, length: nat, offset: nat, ghost s: State) returns (leave: bool, mode: Mode,
                   length': nat, ghost t: State)
    requires InStep(r, o, s) && s.mode == Match && s.length == length && s.offset == offset && 1 <= length
    requires 1 <= offset <= WSIZE
    modifies o`put, o.out
    ensures InStep(r, o, t) && Leads(s, t) && (leave ==> Step(t) == Wait) && Onward(s, t, mode)
    ensures (mode == Len || mode == Bad || mode == Match) && (leave ==> mode == Match)
    ensures mode == Match ==> t.length == length' && t.offset == offset && 1 <= length' <= length
    ensures !leave && mode == Match ==> length' < length
    ensures o.out == old(o.out) && o.put >= old(o.put)
  {
    hide Leads, CopyBack;
    leave, mode, length', t := true, Match, length, s;
    LeadsSelf(s);
    if o.put == o.out.Length {
      assert Step(s) == StepMatch(s);
      return;
    }
    leave := false;
    FarIsFar(o, offset);
    if offset > o.put + o.w.whave {
      mode, t := Bad, s.(mode := Bad);
      assert Step(s) == StepMatch(s) == Next(t);
      LeadsOne(s, t);
    } else {
      var n := o.CopySome(length, offset);
      t := MatchSome(s, n);
      length' := length - n;
      if length' == 0 {
        mode := Len;
      }
    }
  }

  // ---- Symbols ----

  /** LEN, the checked way. */
  method LenCase(r: Reader, o: Output, t: array<Code>, lenAt: nat, lenBits: nat, ghost s: State)
      returns (leave: bool, f: Found, ghost s': State)
    requires InStep(r, o, s) && s.mode == Len && TightFor(s, r.bits, r.hold)
    requires Usable(t[..], lenAt, lenBits, LENS, s.lencode)
    modifies r`next, r`hold, r`bits
    ensures InStep(r, o, s') && Went(s, leave, s') && TightFor(s', r.bits, r.hold) && (leave ==> r.bits == s.n)
    ensures !leave ==> f.bits <= s.n && s' == AfterLen(s, f) && r.bits < 8
    ensures !leave && Has(f.op, 16) ==> f.op % 16 <= 5 && f.val >= 3 && f.val + Pow2(f.op % 16) <= 259
    ensures !leave && f.op == 0 ==> f.val < 256
  {
    hide Low, Shr, Pow2, Usable, Decode, FoundFor, InStep, Step, AfterLen, Has;
    var ok;
    ok, f := FindFor(r, o, t, lenAt, lenBits, LENS, s.lencode, s);
    if !ok {
      leave, s' := true, s;
      SymbolWaits(s);
      WaitsShort(s.lencode, s.x, s.n, t[..], lenAt, lenBits, LENS);
      return;
    }
    leave := false;
    LenFound(s, f);
    ghost var u := DropBits(r, o, f.bits, s);
    s' := AfterLen(s, f);
    AfterSymbol(s, f, r.bits, r.hold);
    AlsoInStep(r, o, u, s');
  }

  /** The next symbol of a code, if the bits for it are there. */
  method FindFor(r: Reader, o: Output, t: array<Code>, at: nat, root: nat, ghost typ: CodeType, ghost lens: seq<nat>,
                 ghost s: State)
      returns (ok: bool, f: Found)
    requires InStep(r, o, s) && Usable(t[..], at, root, typ, lens)
    modifies r`next, r`hold, r`bits
    ensures InStep(r, o, s) && r.bits <= s.n
    ensures ok ==> f.bits <= r.bits && FoundFor(typ, lens, f, Decode(lens, s.x, s.n))
    ensures !ok ==> s.x == r.hold && s.n == r.bits && Decode(lens, s.x, s.n) == More
    ensures ok && (old(r.bits) < 8 || Decode(lens, old(r.hold), old(r.bits)) == More) ==> r.bits - f.bits < 8
  {
    hide Low, Shr, Pow2, Usable, Decode, FoundFor, BytesOf, Cat;
    ok, f := FindCode(r, t, at, root, typ, lens);
    Known(r, o, s, 0);
  }

  lemma SymbolWaits(s: State)
    requires s.mode == Len || s.mode == Dist
    requires Decode(if s.mode == Len then s.lencode else s.distcode, s.x, s.n) == More
    ensures Step(s) == Wait
  {
    hide Decode;
  }

  /** After a symbol only the stream has moved on; few bits are held. */
  lemma AfterSymbol(s: State, f: Found, bits: nat, hold: nat)
    requires f.bits <= s.n && bits < 8
    ensures var t, u := AfterLen(s, f), Drop(s, f.bits);
      t.x == u.x && t.n == u.n && t.room == u.room && t.out == u.out && TightFor(t, bits, hold)
    ensures var t, u := AfterDist(s, f), Drop(s, f.bits);
      t.x == u.x && t.n == u.n && t.room == u.room && t.out == u.out && TightFor(t, bits, hold)
  {
    hide Low, Shr, Decode, Has;
  }

  /** Fifteen bits decide every symbol. */
  lemma WaitsShort(lens: seq<nat>, x: nat, n: nat, t: seq<Code>, at: nat, root: nat, typ: CodeType)
    requires Usable(t, at, root, typ, lens) && Decode(lens, x, n) == More
    ensures n < MAXBITS
  {
    hide Built;
    if exists s: nat :: Matches(lens, s, x) {
      var s: nat :| Matches(lens, s, x);
      DecodeSym(lens, x, n, s);
    }
  }

  /** LENEXT. */
  method LenExtCase(r: Reader, o: Output, length: nat, extra: nat, ghost s: State) returns (leave: bool, length': nat,
                    ghost t: State)
    requires InStep(r, o, s) && s.mode == LenExt && s.length == length && s.extra == extra <= 5 && r.bits < 8
    modifies r`next, r`hold, r`bits
    ensures InStep(r, o, t) && Went(s, leave, t) && r.bits < 8 && length <= length' < length + Pow2(extra)
    ensures !leave ==> Onward(s, t, Dist) && t.length == length'
  {
    hide Low, Shr, Pow2, BytesOf, Cat;
    leave, length', t := true, length, s;
    var ok := NeedBits(r, o, extra, s);
    PowPositive(extra);
    if !ok {
      assert Step(s) == StepLenExt(s);
      return;
    }
    leave := false;
    Known(r, o, s, extra);
    var v := Low(r.hold, extra);
    ghost var u := DropBits(r, o, extra, s);
    ExtraLen(s, BitString(u.x, u.n), v);
    length' := length + v;
    t := At(s, BitString(u.x, u.n)).(mode := Dist, length := length');
    AlsoInStep(r, o, u, t);
  }

  lemma PowPositive(n: nat)
    ensures Pow2(n) >= 1
  {
  }

  /** DIST. */
  method DistCase(r: Reader, o: Output, t: array<Code>, distAt: nat, distBits: nat, ghost s: State)
      returns (leave: bool, f: Found, ghost s': State)
    requires InStep(r, o, s) && s.mode == Dist && TightFor(s, r.bits, r.hold)
    requires Usable(t[..], distAt, distBits, DISTS, s.distcode)
    modifies r`next, r`hold, r`bits
    ensures InStep(r, o, s') && Went(s, leave, s') && TightFor(s', r.bits, r.hold)
    ensures !leave ==> f.bits <= s.n && s' == AfterDist(s, f)
    ensures !leave && Has(f.op, 16) ==> f.op % 16 <= 13 && f.val >= 1 && f.val + Pow2(f.op % 16) <= 32769
  {
    hide Low, Shr, Pow2, Usable, Decode, FoundFor, InStep, Step, AfterDist, Has;
    var ok;
    ok, f := FindFor(r, o, t, distAt, distBits, DISTS, s.distcode, s);
    if !ok {
      leave, s' := true, s;
      SymbolWaits(s);
      return;
    }
    leave := false;
    DistFound(s, f);
    ghost var u := DropBits(r, o, f.bits, s);
    s' := AfterDist(s, f);
    AfterSymbol(s, f, r.bits, r.hold);
    AlsoInStep(r, o, u, s');
  }

  /** DISTEXT. */
  method DistExtCase(r: Reader, o: Output, offset: nat, extra: nat, ghost s: State) returns (leave: bool, offset': nat,
                     ghost t: State)
    requires InStep(r, o, s) && s.mode == DistExt && s.offset == offset && s.extra == extra <= 13
    requires TightFor(s, r.bits, r.hold)
    modifies r`next, r`hold, r`bits
    ensures InStep(r, o, t) && Went(s, leave, t) && TightFor(t, r.bits, r.hold)
    ensures offset <= offset' < offset + Pow2(extra)
    ensures !leave ==> Onward(s, t, Match) && t.offset == offset' && t.length == s.length
  {
    hide Low, Shr, Pow2, BytesOf, Cat;
    leave, offset', t := true, offset, s;
    var ok := NeedBits(r, o, extra, s);
    PowPositive(extra);
    if !ok {
      assert Step(s) == StepDistExt(s);
      return;
    }
    leave := false;
    Known(r, o, s, extra);
    var v := Low(r.hold, extra);
    ghost var u := DropBits(r, o, extra, s);
    ExtraDist(s, BitString(u.x, u.n), v);
    offset' := offset + v;
    t := At(s, BitString(u.x, u.n)).(mode := Match, offset := offset');
    AlsoInStep(r, o, u, t);
  }

  /** CHECK: the checksum of all output, if there is a trailer. */
  method CheckCase(r: Reader, o: Output, wrap: bool, check: nat, ghost s: State) returns (leave: bool, mode: Mode,
                   ghost t: State)
    requires InStep(r, o, s) && s.mode == Check && s.wrap == wrap && TightFor(s, r.bits, r.hold)
    requires check == Adler.Checksum(o.before)
    modifies r`next, r`hold, r`bits
    ensures InStep(r, o, t) && Went(s, leave, t) && t.mode == mode && t.wrap == s.wrap && t.last == s.last
    ensures TightFor(t, r.bits, r.hold)
    ensures mode == Check || mode == Done || mode == Bad
  {
    hide Low, Shr, Pow2, BytesOf, Cat, Swap32, Adler.Checksum;
    leave, mode, t := false, Done, s.(mode := Done);
    assert Step(s) == StepCheck(s);
    if !wrap {
      return;
    }
    var ok := NeedBits(r, o, 32, s);
    if !ok {
      leave, mode, t := true, Check, s;
      return;
    }
    Known(r, o, s, 32);
    var c := Sum(check, o.out[..o.put], o.before);
    if Swap32(Low(r.hold, 32)) != c {
      mode, t := Bad, s.(mode := Bad);
    } else {
      ghost var u := DropBits(r, o, 32, s);
      t := u.(mode := Done);
    }
  }

  /** The running checksum, over what this call has written. */
  method Sum(check: nat, data: seq<byte>, ghost before: seq<byte>) returns (c: nat)
    requires check == Adler.Checksum(before)
    ensures c == Adler.Checksum(before + data)
  {
    SumParts(before);
    Adler.ChecksumCat(before, data);
    c := Adler.Adler32(check, data);
  }

  lemma SumParts(before: seq<byte>)
    ensures var c, u := Adler.Checksum(before), Adler.Update(Adler.INITIAL, before);
      u.Reduced() && Adler.Split(c) == u
  {
    var u := Adler.Update(Adler.INITIAL, before);
    assert u.Reduced();
    hide Adler.Update;
    Adler.PackSplit(u);
  }
}
