/** inflate.c: the state machine as a whole, resumed call by call. */
module Inflate {
  import opened Bits
  import opened Canonical
  import opened TableNeed
  import opened InflateTable
  import opened InflateSpec
  import opened InflateChunks
  import opened BitWriter
  import opened BitReader
  import opened TableDecode
  import opened InflateOutput
  import opened InflateFast
  import opened InflateCases
  import opened InflateHeader
  import Adler
  import StaticTrees

  // ---- Progress ----

  function Rank(m: Mode): nat {
    match m
    case Head => 3 case Copy => 3 case LenLens => 3
    case Type => 2 case CodeLens => 2 case LenExt => 2 case DistExt => 2
    case Bad => 0 case Done => 0 case Dict => 0
    case _ => 1
  }

  /** Every step uses up bits or room, or comes nearer to one that does. */
  function Left(s: State): nat {
    4 * (s.n + s.room) + Rank(s.mode)
  }

  ghost predicate Shrunk(s: State, p: Outcome) {
    p.Next? ==> Left(p.s) < Left(s)
  }

  lemma FieldsShrink(s: State)
    ensures s.mode == Head ==> Shrunk(s, StepHead(s))
    ensures s.mode == Type ==> Shrunk(s, StepType(s))
    ensures s.mode == Stored ==> Shrunk(s, StepStored(s))
    ensures s.mode == Copy ==> Shrunk(s, StepCopy(s))
    ensures s.mode == Table ==> Shrunk(s, StepTable(s))
  {
    hide Low, Shr, FixedLit, FixedDist;
  }

  lemma ExtrasShrink(s: State)
    ensures s.mode == LenExt ==> Shrunk(s, StepLenExt(s))
    ensures s.mode == DistExt ==> Shrunk(s, StepDistExt(s))
    ensures s.mode == Match ==> Shrunk(s, StepMatch(s))
    ensures s.mode == Lit ==> Shrunk(s, StepLit(s))
    ensures s.mode == Check ==> Shrunk(s, StepCheck(s))
  {
    hide Low, Shr, Swap32;
  }

  lemma SymbolsShrink(s: State)
    ensures s.mode == Len ==> Shrunk(s, StepLen(s))
    ensures s.mode == Dist ==> Shrunk(s, StepDist(s))
  {
    hide Low, Shr, LBASE, LEXT, DBASE, DEXT, Decode;
  }

  lemma LenLensShrink(s: State)
    ensures s.mode == LenLens ==> Shrunk(s, StepLenLens(s))
  {
    hide Low, Shr, ORDER, Refused, NoCodes;
  }

  lemma CodeLensShrink(s: State)
    ensures s.mode == CodeLens ==> Shrunk(s, StepCodeLens(s))
  {
    hide Low, Shr, Decode, Refused, NoCodes, Repeat;
    if s.mode == CodeLens && |s.lens| < s.nlen + s.ndist {
      var d := Decode(s.clens, s.x, s.n);
      if d.Sym? && d.sym >= 16 {
        RepeatShrinks(s, d.sym);
      }
    }
  }

  lemma RepeatShrinks(s: State, sym: nat)
    requires s.mode == CodeLens && |s.lens| < s.nlen + s.ndist && Decode(s.clens, s.x, s.n) == Sym(sym) && sym >= 16
    ensures Shrunk(s, StepCodeLens(s))
  {
    hide Low, Shr, Decode, Refused, NoCodes, Repeat;
    var t := Drop(s, s.clens[sym]);
    var e := Extras(sym);
    if t.n >= e {
      RepeatIs(Drop(t, e), if sym == 16 && s.lens != [] then s.lens[|s.lens| - 1] else 0,
        (if sym == 16 || sym == 17 then 3 else 11) + Low(t.x, e));
    }
  }

  lemma StepShrinks(s: State, t: State)
    requires Step(s) == Next(t)
    ensures Left(t) < Left(s)
  {
    hide StepHead, StepType, StepStored, StepCopy, StepTable, StepLenLens, StepCodeLens, StepLen, StepLenExt,
      StepDist, StepDistExt, StepMatch, StepLit, StepCheck, Left;
    FieldsShrink(s);
    ExtrasShrink(s);
    SymbolsShrink(s);
    LenLensShrink(s);
    CodeLensShrink(s);
  }

  lemma {:induction false} RunShrinks(s: State, k: nat)
    requires Run(s, k).Next?
    ensures Run(s, k).s == s || Left(Run(s, k).s) < Left(s)
    decreases k
  {
    hide Step, Left;
    if k > 0 {
      StepShrinks(s, Step(s).s);
      RunShrinks(Step(s).s, k - 1);
    }
  }

  lemma LeadsShrinks(s: State, t: State)
    requires Leads(s, t)
    ensures t == s || Left(t) < Left(s)
  {
    hide Run, Left;
    var k: nat :| Run(s, k) == Next(t);
    RunShrinks(s, k);
  }

  // ---- The machine ----

  /** A stream not yet begun. */
  function NotBegun(wrap: bool): State {
    State(Head, wrap, true, false, 0, 0, 0, 0, 0, 0, 0, [], [], [], [], 0, 0, 0, [])
  }

  /** The tables of fixed blocks. */
  ghost predicate FixedTables(lt: seq<Code>, dt: seq<Code>) {
    Usable(lt, 0, 9, LENS, FixedLit()) && Usable(dt, 0, 5, DISTS, FixedDist())
  }

  /** When LEN holds how many bits: fewer than eight whenever a case goes on to it, and all
      there are when a call leaves in it. */
  predicate Handed(leave: bool, mode: Mode, bits: nat, n: nat) {
    mode == Len ==> if leave then bits == n else bits < 8
  }

  /** What is known of a length and a distance, by how far they are read. */
  ghost predicate CopyKnown(t: State, len: nat, off: nat, ext: nat) {
    match t.mode
    case Lit => t.length == len < 256
    case LenExt => t.length == len >= 3 && t.extra == ext <= 5 && len + Pow2(ext) <= 259
    case Dist => t.length == len && 3 <= len <= 258
    case DistExt =>
      && t.length == len && 3 <= len <= 258
      && t.offset == off >= 1 && t.extra == ext <= 13 && off + Pow2(ext) <= 32769
    case Match => t.length == len && 1 <= len <= 258 && t.offset == off && 1 <= off <= WSIZE
    case _ => t.mode == Bad || t.mode == Len || t.mode == Type
  }

  /** What a call returns. */
  datatype Return = Ok | StreamEnd | NeedDict | DataError | BufError

  class Inflater {
    const r: Reader
    const o: Output
    const lt: array<Code>
    const dt: array<Code>
    const fixLen: array<Code>
    const fixDist: array<Code>
    const work: array<nat>
    const lens: array<nat>
    const wrap: bool
    var mode: Mode
    var last: bool
    var length: nat
    var offset: nat
    var extra: nat
    var nlen: nat
    var ndist: nat
    var ncode: nat
    var have: nat
    var lenCodes: array<Code>
    var lenBits: nat
    var distCodes: array<Code>
    var distBits: nat
    var check: nat
    /** The state of the stream without buffers that this one stands for. */
    ghost var s: State

    ghost predicate Parts()
      reads fixLen, fixDist
    {
      && lt.Length == ENOUGH_LENS && dt.Length == ENOUGH_DISTS && work.Length == 288 && lens.Length == 320
      && work != lens
      && lt != dt && lt != fixLen && lt != fixDist && dt != fixLen && dt != fixDist
      && FixedTables(fixLen[..], fixDist[..])
    }

    /** The fields that matter in the current mode. */
    ghost predicate Scratch()
      reads this`mode, this`last, this`s, this`length, this`offset, this`extra, this`nlen, this`ndist, this`ncode,
        this`have,
        this`lenCodes, this`lenBits, this`distCodes, this`distBits, lens, lenCodes, distCodes
    {
      match mode
      case Copy => s.length == length
      case LenLens => Counts() && s.lens == [] && s.have == have <= ncode && LensTo(lens[..], s.clens, have)
      case CodeLens =>
        && Counts() && HasLens(lens[..], have, s)
        && lenCodes == lt && Usable(lenCodes[..], 0, lenBits, CODES, s.clens)
      case _ => Decoding(mode) ==> s.mode == mode && CopyKnown(s, length, offset, extra)
    }

    ghost predicate Counts()
      reads this`s, this`nlen, this`ndist, this`ncode
    {
      && s.nlen == nlen && s.ndist == ndist && s.ncode == ncode
      && 257 <= nlen <= 286 && 1 <= ndist <= 30 && 4 <= ncode <= 19
    }

    ghost predicate Coded()
      reads this`mode, this`s, this`lenCodes, this`lenBits, this`distCodes, this`distBits, lenCodes, distCodes
    {
      Decoding(mode) ==> TablesFor(lenCodes[..], lenBits, distCodes[..], distBits, s)
    }

    /** All that holds in every mode. */
    ghost predicate Base(t: State)
      reads this`check, r, o, o.out, o.w, o.w.window, fixLen, fixDist
    {
      && Parts() && InStep(r, o, t) && Fine(t) && TightFor(t, r.bits, r.hold)
      && t.wrap == wrap && check == Adler.Checksum(o.before)
    }

    /** The fields of the mode. */
    ghost predicate Fields()
      reads this`mode, this`last, this`s, this`length, this`offset, this`extra, this`nlen, this`ndist, this`ncode,
        this`have,
        this`lenCodes, this`lenBits, this`distCodes, this`distBits, lens, lenCodes, distCodes
    {
      s.mode == mode && s.last == last && Scratch() && Coded()
    }

    /** In the middle of a call. */
    ghost predicate Good()
      reads this, r, o, o.out, o.w, o.w.window, lens, lenCodes, distCodes, fixLen, fixDist
    {
      Base(s) && Fields()
    }

    lemma Facts()
      requires Base(s)
      ensures Parts() && InStep(r, o, s) && Fine(s) && TightFor(s, r.bits, r.hold) && s.wrap == wrap
      ensures check == Adler.Checksum(o.before)
    {
    }

    lemma Renew(t: State)
      requires Parts() && InStep(r, o, t) && Fine(t) && TightFor(t, r.bits, r.hold) && t.wrap == wrap
      requires check == Adler.Checksum(o.before)
      ensures Base(t)
    {
    }

    /** Between calls: what is left of the input waits, and the output of all calls is in
        the window. */
    ghost predicate Resting()
      reads this, r, o, o.out, o.w, o.w.window, lens, lenCodes, distCodes, fixLen, fixDist
    {
      && Parts() && r.Valid() && o.Valid() && o.put == 0 && Fine(s) && TightFor(s, r.bits, r.hold)
      && s.x == r.Stream().val && s.n == r.Stream().len && s.out == o.before
      && s.wrap == wrap && s.limited && check == Adler.Checksum(o.before) && Fields()
    }

    /** A stream not yet begun, on an empty accumulator and an empty window. */
    constructor (wrap: bool, r: Reader, o: Output, lt: array<Code>, dt: array<Code>, fixLen: array<Code>,
                 fixDist: array<Code>,
                 work: array<nat>, lens: array<nat>)
      requires r.Valid() && r.bits == 0 && r.Stream() == EMPTY && o.Valid() && o.put == 0 && o.before == []
      requires lt.Length == ENOUGH_LENS && dt.Length == ENOUGH_DISTS && work.Length == 288 && lens.Length == 320
      requires work != lens
      requires lt != dt && lt != fixLen && lt != fixDist && dt != fixLen && dt != fixDist
      requires FixedTables(fixLen[..], fixDist[..])
      ensures Resting() && s == NotBegun(wrap) && this.wrap == wrap && this.r == r && this.o == o
      ensures this.lt == lt && this.dt == dt && this.work == work && this.lens == lens
    {
      hide FixedTables, Fine, TightFor, BytesOf, Cat, Pow2, TablesFor, Usable, LensTo, HasLens, Adler.Checksum,
        Output.Valid, NotBegun;
      this.r, this.o, this.lt, this.dt, this.fixLen, this.fixDist, this.work, this.lens := r, o, lt, dt, fixLen,
        fixDist, work, lens;
      this.wrap, lenCodes, distCodes, check := wrap, fixLen, fixDist, 1;
      mode, last, length, offset, extra := Head, false, 0, 0, 0;
      nlen, ndist, ncode, have, lenBits, distBits := 0, 0, 0, 0, 9, 5;
      s := NotBegun(wrap);
      new;
      Beginning(wrap, r.hold);
      PlainFields();
    }

    lemma PlainFields()
      requires !Decoding(mode) && mode != Copy && mode != LenLens && mode != CodeLens && s.mode == mode
      requires s.last == last
      ensures Fields()
    {
    }

    lemma LenFields()
      requires mode == Len && TablesFor(lenCodes[..], lenBits, distCodes[..], distBits, s) && s.mode == mode
      requires s.last == last
      ensures Fields()
    {
    }

    lemma LenLensFields()
      requires mode == LenLens && s.mode == mode && s.last == last && Counts() && s.lens == []
      requires s.have == have <= ncode && LensTo(lens[..], s.clens, have)
      ensures Fields()
    {
    }

    method GoHead() returns (leave: bool)
      requires Good() && mode == Head
      modifies this`mode, this`s, this`length, r`next, r`hold, r`bits
      ensures Good() && Followed(old(s), leave, s) && Handed(leave, mode, r.bits, s.n)
    {
      hide Base, Fields, InStep, Fine, TightFor, Parts, TablesFor, Followed, Adler.Checksum, LensTo, HasLens, Usable,
        Pow2, Went, Onward;
      Facts();
      ModeIs();
      var m;
      ghost var t;
      leave, m, t := HeadCase(r, o, wrap, s);
      After(s, leave, t);
      PlainTo(m, length, t);
    }

    method GoType() returns (leave: bool)
      requires Good() && mode == Type
      modifies this`mode, this`s, this`last, this`length, this`offset, this`extra, this`lenCodes, this`lenBits,
        this`distCodes, this`distBits,
        r`next, r`hold, r`bits
      ensures Good() && Followed(old(s), leave, s) && Handed(leave, mode, r.bits, s.n)
    {
      hide Base, Fields, InStep, Fine, TightFor, Parts, TablesFor, Followed, Adler.Checksum, LensTo, HasLens, Usable,
        Pow2, Went, Onward;
      Facts();
      ModeIs();
      var m, l;
      ghost var t;
      leave, m, l, t := TypeCase(r, o, last, s);
      After(s, leave, t);
      last := l;
      if m == Len {
        UseFixed(t);
        MoveTo(Len, length, offset, extra, t);
      } else {
        PlainTo(m, length, t);
      }
    }

    /** fixedtables: the tables made for all streams. */
    method UseFixed(ghost t: State)
      requires Parts() && t.lencode == FixedLit() && t.distcode == FixedDist()
      modifies this`lenCodes, this`lenBits, this`distCodes, this`distBits
      ensures TablesFor(lenCodes[..], lenBits, distCodes[..], distBits, t)
    {
      hide FixedTables, TablesFor, FixedLit, FixedDist;
      FixedUsable(fixLen[..], fixDist[..], t);
      lenCodes, lenBits, distCodes, distBits := fixLen, 9, fixDist, 5;
    }

    method GoStored() returns (leave: bool)
      requires Good() && mode == Stored
      modifies this`mode, this`s, this`length, r`next, r`hold, r`bits
      ensures Good() && Followed(old(s), leave, s) && Handed(leave, mode, r.bits, s.n)
    {
      hide Base, Fields, InStep, Fine, TightFor, Parts, TablesFor, Followed, Adler.Checksum, LensTo, HasLens, Usable,
        Pow2, Went, Onward;
      Facts();
      ModeIs();
      var m, l;
      ghost var t;
      leave, m, l, t := StoredCase(r, o, s);
      AfterAll(s, leave, t);
      PlainTo(m, l, t);
    }

    /** On to the state t, in a mode with at most a length. */
    method PlainTo(m: Mode, len: nat, ghost t: State)
      requires Parts() && InStep(r, o, t) && Fine(t) && TightFor(t, r.bits, r.hold) && t.wrap == wrap
      requires check == Adler.Checksum(o.before) && t.mode == m && t.last == last && (m == Copy ==> t.length == len)
      requires !Decoding(m) && m != LenLens && m != CodeLens
      modifies this`mode, this`s, this`length
      ensures Good() && s == t && mode == m
    {
      hide Base, Fields, InStep, Fine, TightFor, Parts, Adler.Checksum;
      mode, length, s := m, len, t;
      Renew(s);
      SimpleFields();
    }

    lemma SimpleFields()
      requires s.mode == mode && s.last == last && (mode == Copy ==> s.length == length)
      requires !Decoding(mode) && mode != LenLens && mode != CodeLens
      ensures Fields()
    {
      hide TablesFor, LensTo, HasLens, Usable;
    }

    method GoCopy() returns (leave: bool)
      requires Good() && mode == Copy
      modifies this`mode, this`s, this`length, r`next, o`put, o.out
      ensures Good() && Followed(old(s), leave, s) && Handed(leave, mode, r.bits, s.n)
    {
      hide Base, Fields, InStep, Fine, TightFor, Parts, TablesFor, Followed, Adler.Checksum, LensTo, HasLens, Usable,
        Pow2, Went, Onward;
      Facts();
      ModeIs();
      CopyLength();
      NoBits(s, r.bits, r.hold);
      var m, l;
      ghost var t;
      leave, m, l, t := CopyCase(r, o, length, s);
      OnwardIs(s, t, m);
      AfterAll(s, leave, t);
      FewTight(t, r.bits, r.hold);
      PlainTo(m, l, t);
    }

    lemma CopyLength()
      requires Fields()
      ensures mode == Copy ==> s.length == length
    {
    }

    method GoTable() returns (leave: bool)
      requires Good() && mode == Table
      modifies this`mode, this`s, this`length, this`nlen, this`ndist, this`ncode, this`have, r`next, r`hold, r`bits
      ensures Good() && Followed(old(s), leave, s) && Handed(leave, mode, r.bits, s.n)
    {
      hide Base, Fields, InStep, Fine, TightFor, Parts, TablesFor, Followed, Adler.Checksum, LensTo, HasLens, Usable,
        Pow2, Went, Onward;
      Facts();
      ModeIs();
      var m, nl, nd, nc;
      ghost var t;
      leave, m, nl, nd, nc, t := TableCase(r, o, s);
      After(s, leave, t);
      if m == LenLens {
        EnterLenLens(nl, nd, nc, t);
      } else {
        nlen, ndist, ncode, have := nl, nd, nc, 0;
        PlainTo(m, length, t);
      }
    }

    method EnterLenLens(nl: nat, nd: nat, nc: nat, ghost t: State)
      requires Parts() && InStep(r, o, t) && Fine(t) && TightFor(t, r.bits, r.hold) && t.wrap == wrap
      requires check == Adler.Checksum(o.before) && t.mode == LenLens && t.last == last
      requires t.nlen == nl && t.ndist == nd && t.ncode == nc && 257 <= nl <= 286 && 1 <= nd <= 30 && 4 <= nc <= 19
      requires t.lens == [] && t.have == 0 && t.clens == ZEROS
      modifies this`mode, this`s, this`nlen, this`ndist, this`ncode, this`have
      ensures Good() && s == t && mode == LenLens
    {
      hide Base, Fields, InStep, Fine, TightFor, Adler.Checksum, LensTo, FixedTables, ZEROS;
      NoneYet(lens[..]);
      mode, nlen, ndist, ncode, have, s := LenLens, nl, nd, nc, 0, t;
      Renew(s);
      LenLensFields();
    }

    method GoLenLens() returns (leave: bool)
      requires Good() && mode == LenLens
      modifies this`mode, this`s, this`have, this`lenCodes, this`lenBits, lens, lt, work, r`next, r`hold, r`bits
      ensures Good() && Followed(old(s), leave, s) && Handed(leave, mode, r.bits, s.n)
    {
      hide Base, Fields, InStep, Fine, TightFor, Parts, TablesFor, Followed, Adler.Checksum, LensTo, HasLens, Usable,
        Pow2, Went, Onward;
      Facts();
      ModeIs();
      LenLensIs();
      FewHeld(s, r.bits, r.hold);
      var h;
      ghost var t;
      leave, h, t := LenLensCase(r, o, lens, have, ncode, s);
      Later(s, t);
      ghost var s0 := s;
      have, s := h, t;
      FewTight(s, r.bits, r.hold);
      Renew(s);
      if leave {
        AfterAll(s0, true, s);
        LenLensFields();
      } else {
        BuildCodes();
        FollowedOn(s0, t, s);
      }
    }

    lemma LenLensIs()
      requires Fields() && mode == LenLens
      ensures Counts() && s.lens == [] && s.have == have <= ncode && LensTo(lens[..], s.clens, have)
    {
    }

    /** The code length code's table, once its lengths are all in. */
    method BuildCodes()
      requires mode == LenLens && Base(s) && s.mode == mode && s.last == last && Counts() && s.lens == []
      requires s.have == have == ncode
      requires LensTo(lens[..], s.clens, ncode)
      modifies this`mode, this`s, this`have, this`lenCodes, this`lenBits, lens, lt, work
      ensures Good() && Followed(old(s), false, s) && Handed(false, mode, r.bits, s.n)
    {
      hide Base, Fields, InStep, Fine, TightFor, Followed, Adler.Checksum, LensTo, HasLens, Usable, Pow2, Step, Parts;
      var m, root := MakeCodes();
      Become(m);
      EnterCodes(root);
    }

    method MakeCodes() returns (m: Mode, root: nat)
      requires s.mode == LenLens && Base(s) && Counts() && s.have == ncode && LensTo(lens[..], s.clens, ncode)
      modifies lens, lt, work
      ensures Base(s) && r.bits < 8 && (m == CodeLens || m == Bad) && Step(s) == Next(s.(mode := m))
      ensures lens.Length == 320
      ensures m == CodeLens ==> Usable(lt[..], 0, root, CODES, s.clens)
    {
      hide InStep, Fine, TightFor, Adler.Checksum, LensTo, Usable, Pow2, Step, FixedTables;
      FewHeld(s, r.bits, r.hold);
      m, root := LenLensDone(lens, lt, work, ncode, s);
    }

    method EnterCodes(root: nat)
      requires mode == CodeLens || mode == Bad
      requires s.mode == mode && s.last == last && Counts() && s.lens == [] && lens.Length == 320
      requires mode == CodeLens ==> Usable(lt[..], 0, root, CODES, s.clens)
      modifies this`have, this`lenCodes, this`lenBits
      ensures Fields()
    {
      hide HasLens, Usable;
      have, lenCodes, lenBits := 0, lt, root;
      NoLensYet(lens[..], s);
      CodeLensFields();
    }

    /** The mode changes, and nothing else. */
    method Become(m: Mode)
      requires Base(s) && r.bits < 8 && Step(s) == Next(s.(mode := m)) && m != Head && m != Check && m != Copy
      modifies this`mode, this`s
      ensures Base(s) && Followed(old(s), false, s) && s == old(s).(mode := m) && mode == m
    {
      hide Base, InStep, Fine, TightFor, Parts, Followed, Adler.Checksum, Pow2, Went, Step;
      Facts();
      ghost var t := s.(mode := m);
      WentOne(s, t);
      After(s, false, t);
      AlsoInStep(r, o, s, t);
      FewTight(t, r.bits, r.hold);
      mode, s := m, t;
      Renew(s);
    }

    lemma CodeLensFields()
      requires s.mode == mode && s.last == last
      requires mode == Bad || mode == CodeLens
      requires mode == CodeLens ==> Counts() && HasLens(lens[..], have, s)
      requires mode == CodeLens ==> lenCodes == lt && Usable(lenCodes[..], 0, lenBits, CODES, s.clens)
      ensures Fields()
    {
      hide TablesFor, LensTo, HasLens, Usable;
    }

    method GoLit() returns (leave: bool)
      requires Good() && mode == Lit
      modifies this`mode, this`s, this`length, this`offset, this`extra, o`put, o.out
      ensures Good() && Followed(old(s), leave, s) && Handed(leave, mode, r.bits, s.n)
    {
      hide Base, Fields, InStep, Fine, TightFor, Parts, TablesFor, Followed, Adler.Checksum, LensTo, HasLens, Usable,
        Pow2, Went, Onward;
      Facts();
      ModeIs();
      LitIs();
      FewHeld(s, r.bits, r.hold);
      ghost var t;
      leave, t := LitCase(r, o, length, s);
      After(s, leave, t);
      var m := if leave then Lit else Len;
      if !leave {
        OnwardIs(s, t, Len);
        FewTight(t, r.bits, r.hold);
        OnwardTables(s, t, Len, lenCodes[..], lenBits, distCodes[..], distBits);
      }
      MoveTo(m, length, offset, extra, t);
    }

    lemma LitIs()
      requires Fields() && mode == Lit
      ensures s.length == length < 256 && TablesFor(lenCodes[..], lenBits, distCodes[..], distBits, s)
    {
    }

    method GoMatch() returns (leave: bool)
      requires Good() && mode == Match
      modifies this`mode, this`s, this`length, this`offset, this`extra, o`put, o.out
      ensures Good() && Followed(old(s), leave, s) && Handed(leave, mode, r.bits, s.n)
    {
      hide Base, Fields, InStep, Fine, TightFor, Parts, TablesFor, Followed, Adler.Checksum, LensTo, HasLens, Usable,
        Pow2, Went, Onward;
      Facts();
      ModeIs();
      MatchIs();
      FewHeld(s, r.bits, r.hold);
      var m, l;
      ghost var t;
      leave, m, l, t := MatchCase(r, o, length, offset, s);
      OnwardIs(s, t, m);
      OnwardTables(s, t, m, lenCodes[..], lenBits, distCodes[..], distBits);
      AfterAll(s, leave, t);
      FewTight(t, r.bits, r.hold);
      MoveTo(m, l, offset, extra, t);
    }

    lemma MatchIs()
      requires Fields() && mode == Match
      ensures s.length == length && 1 <= length <= 258 && s.offset == offset && 1 <= offset <= WSIZE
      ensures TablesFor(lenCodes[..], lenBits, distCodes[..], distBits, s)
    {
    }

    /** The fields of a length and a distance, as far as they are known. */
    lemma CopyFields()
      requires s.mode == mode && s.last == last && TablesFor(lenCodes[..], lenBits, distCodes[..], distBits, s)
      requires CopyKnown(s, length, offset, extra)
      ensures Fields()
    {
      hide TablesFor, LensTo, HasLens, Usable;
    }

    /** On to the state t, and to its mode and fields. */
    method MoveTo(m: Mode, len: nat, off: nat, ext: nat, ghost t: State)
      requires Parts() && InStep(r, o, t) && Fine(t) && TightFor(t, r.bits, r.hold) && t.wrap == wrap
      requires check == Adler.Checksum(o.before) && t.mode == m && t.last == last && CopyKnown(t, len, off, ext)
      requires TablesFor(lenCodes[..], lenBits, distCodes[..], distBits, t)
      modifies this`mode, this`s, this`length, this`offset, this`extra
      ensures Good() && s == t && mode == m
    {
      hide Base, Fields, InStep, Fine, TightFor, Parts, TablesFor, Adler.Checksum, CopyKnown;
      mode, length, offset, extra, s := m, len, off, ext, t;
      Renew(s);
      CopyFields();
    }

    method GoLenExt() returns (leave: bool)
      requires Good() && mode == LenExt
      modifies this`mode, this`s, this`length, this`offset, this`extra, r`next, r`hold, r`bits
      ensures Good() && Followed(old(s), leave, s) && Handed(leave, mode, r.bits, s.n)
    {
      hide Base, Fields, InStep, Fine, TightFor, Parts, TablesFor, Followed, Adler.Checksum, LensTo, HasLens, Usable,
        Pow2, Went, Onward;
      Facts();
      ModeIs();
      LenExtIs();
      FewHeld(s, r.bits, r.hold);
      var l;
      ghost var t;
      leave, l, t := LenExtCase(r, o, length, extra, s);
      After(s, leave, t);
      if leave {
        FewTight(t, r.bits, r.hold);
        MoveTo(LenExt, length, offset, extra, t);
      } else {
        OnwardIs(s, t, Dist);
        FewTight(t, r.bits, r.hold);
        OnwardTables(s, t, Dist, lenCodes[..], lenBits, distCodes[..], distBits);
        MoveTo(Dist, l, offset, extra, t);
      }
    }

    lemma LenExtIs()
      requires Fields() && mode == LenExt
      ensures s.length == length >= 3 && s.extra == extra <= 5 && length + Pow2(extra) <= 259
      ensures TablesFor(lenCodes[..], lenBits, distCodes[..], distBits, s)
    {
    }

    method GoDistExt() returns (leave: bool)
      requires Good() && mode == DistExt
      modifies this`mode, this`s, this`length, this`offset, this`extra, r`next, r`hold, r`bits
      ensures Good() && Followed(old(s), leave, s) && Handed(leave, mode, r.bits, s.n)
    {
      hide Base, Fields, InStep, Fine, TightFor, Parts, TablesFor, Followed, Adler.Checksum, LensTo, HasLens, Usable,
        Pow2, Went, Onward;
      Facts();
      ModeIs();
      DistExtIs();
      var d;
      ghost var t;
      leave, d, t := DistExtCase(r, o, offset, extra, s);
      After(s, leave, t);
      if leave {
        MoveTo(DistExt, length, offset, extra, t);
      } else {
        OnwardIs(s, t, Match);
        OnwardTables(s, t, Match, lenCodes[..], lenBits, distCodes[..], distBits);
        MoveTo(Match, length, d, extra, t);
      }
    }

    lemma DistExtIs()
      requires Fields() && mode == DistExt
      ensures s.length == length && 3 <= length <= 258 && s.offset == offset >= 1 && s.extra == extra <= 13
      ensures offset + Pow2(extra) <= 32769
      ensures TablesFor(lenCodes[..], lenBits, distCodes[..], distBits, s)
    {
    }

    method GoDist() returns (leave: bool)
      requires Good() && mode == Dist
      modifies this`mode, this`s, this`length, this`offset, this`extra, r`next, r`hold, r`bits
      ensures Good() && Followed(old(s), leave, s) && Handed(leave, mode, r.bits, s.n)
    {
      hide Base, Fields, InStep, Fine, TightFor, Parts, TablesFor, Followed, Adler.Checksum, LensTo, HasLens, Usable,
        Pow2, Went, Onward;
      Facts();
      ModeIs();
      DistIs();
      var f;
      ghost var t;
      leave, f, t := DistCase(r, o, distCodes, 0, distBits, s);
      After(s, leave, t);
      if leave {
        MoveTo(Dist, length, offset, extra, t);
      } else {
        DistMode(s, f, t);
        SameTables(s, t, lenCodes[..], lenBits, distCodes[..], distBits);
        if Has(f.op, 16) {
          MoveTo(DistExt, length, f.val, f.op % 16, t);
        } else {
          MoveTo(Bad, length, offset, extra, t);
        }
      }
    }

    lemma DistIs()
      requires Fields() && mode == Dist
      ensures s.length == length && 3 <= length <= 258 && TablesFor(lenCodes[..], lenBits, distCodes[..], distBits, s)
      ensures Usable(distCodes[..], 0, distBits, DISTS, s.distcode)
    {
    }

    lemma LenIs()
      requires Fields() && mode == Len
      ensures TablesFor(lenCodes[..], lenBits, distCodes[..], distBits, s)
      ensures Usable(lenCodes[..], 0, lenBits, LENS, s.lencode)
    {
    }

    /** LEN: inflate_fast if there is plenty of input and output. */
    method GoLen() returns (leave: bool)
      requires Good() && mode == Len
      modifies this`mode, this`s, this`length, this`offset, this`extra, r`next, r`hold, r`bits, o`put, o.out
      ensures Good() && Followed(old(s), leave, s) && Handed(leave, mode, r.bits, s.n)
    {
      if |r.input| - r.next >= 6 && o.out.Length - o.put >= 258 {
        GoFast();
        leave := false;
      } else {
        leave := GoLenSlow();
      }
    }

    method GoFast()
      requires Good() && mode == Len && r.next + 6 <= |r.input| && o.put + 258 <= o.out.Length
      modifies this`mode, this`s, this`length, this`offset, this`extra, r`next, r`hold, r`bits, o`put, o.out
      ensures Good() && Followed(old(s), false, s) && Handed(false, mode, r.bits, s.n)
    {
      hide Base, Fields, InStep, Fine, TightFor, Parts, TablesFor, Followed, Adler.Checksum, LensTo, HasLens, Usable,
        Pow2, Went, Onward;
      Facts();
      ModeIs();
      LenIs();
      LenTight(r, s);
      ghost var put := o.put;
      var m;
      ghost var t;
      RoomOf(r, o, s);
      m, t := InflateFast.InflateFast(r, o, lenCodes, lenBits, distCodes, distBits, s);
      RoomOf(r, o, t);
      OnwardIs(s, t, m);
      OnwardTables(s, t, m, lenCodes[..], lenBits, distCodes[..], distBits);
      AfterAll(s, false, t);
      FewTight(t, r.bits, r.hold);
      MoveTo(m, length, offset, extra, t);
    }

    method GoLenSlow() returns (leave: bool)
      requires Good() && mode == Len
      modifies this`mode, this`s, this`length, this`offset, this`extra, r`next, r`hold, r`bits
      ensures Good() && Followed(old(s), leave, s) && Handed(leave, mode, r.bits, s.n)
    {
      hide Base, Fields, InStep, Fine, TightFor, Parts, TablesFor, Followed, Adler.Checksum, LensTo, HasLens, Usable,
        Pow2, Went, Onward;
      Facts();
      ModeIs();
      LenIs();
      var f;
      ghost var t;
      leave, f, t := LenCase(r, o, lenCodes, 0, lenBits, s);
      After(s, leave, t);
      if leave {
        MoveTo(Len, length, offset, extra, t);
      } else {
        LenMode(s, f, t);
        SameTables(s, t, lenCodes[..], lenBits, distCodes[..], distBits);
        EnterLen(f, t);
      }
    }

    /** The mode and fields that an entry calls for. */
    method EnterLen(f: Found, ghost t: State)
      requires Parts() && InStep(r, o, t) && Fine(t) && TightFor(t, r.bits, r.hold) && t.wrap == wrap
      requires check == Adler.Checksum(o.before) && t.last == last
      requires TablesFor(lenCodes[..], lenBits, distCodes[..], distBits, t)
      requires f.op == 0 ==> f.val < 256
      requires Has(f.op, 16) ==> f.op % 16 <= 5 && f.val >= 3 && f.val + Pow2(f.op % 16) <= 259
      requires if f.op == 0 then t.mode == Lit && t.length == f.val
        else if Has(f.op, 16) then t.mode == LenExt && t.length == f.val && t.extra == f.op % 16
        else if Has(f.op, 32) then t.mode == Type else t.mode == Bad
      modifies this`mode, this`s, this`length, this`offset, this`extra
      ensures Good() && s == t && mode == t.mode
    {
      hide Base, Fields, InStep, Fine, TightFor, Parts, TablesFor, Adler.Checksum, Pow2, Has;
      if f.op == 0 {
        MoveTo(Lit, f.val, offset, extra, t);
      } else if Has(f.op, 16) {
        MoveTo(LenExt, f.val, offset, f.op % 16, t);
      } else if Has(f.op, 32) {
        MoveTo(Type, length, offset, extra, t);
      } else {
        MoveTo(Bad, length, offset, extra, t);
      }
    }

    method GoCheck() returns (leave: bool)
      requires Good() && mode == Check
      modifies this`mode, this`s, this`length, r`next, r`hold, r`bits
      ensures Good() && Followed(old(s), leave, s) && Handed(leave, mode, r.bits, s.n)
    {
      hide Base, Fields, InStep, Fine, TightFor, Parts, TablesFor, Followed, Adler.Checksum, LensTo, HasLens, Usable,
        Pow2, Went, Onward;
      Facts();
      ModeIs();
      var m;
      ghost var t;
      leave, m, t := CheckCase(r, o, wrap, check, s);
      After(s, leave, t);
      PlainTo(m, length, t);
    }

    /** CODELENS: the symbols that are there, then the two tables. */
    method GoCodeLens() returns (leave: bool)
      requires Good() && mode == CodeLens && s.limited
      modifies this`mode, this`s, this`have, this`lenCodes, this`lenBits, this`distCodes, this`distBits, lens, lt, dt,
        work, r`next, r`hold, r`bits
      ensures Good() && Followed(old(s), leave, s) && s.limited && Handed(leave, mode, r.bits, s.n)
    {
      hide Base, Fields, InStep, Fine, TightFor, Parts, TablesFor, Followed, Adler.Checksum, LensTo, HasLens, Usable,
        Pow2, Went, Onward;
      ghost var s0 := s;
      var done;
      leave, done := ReadCodeLens();
      if done {
        leave := false;
        ghost var t := s;
        LeadsKeeps(s0, t);
        BuildTables();
        FollowedOn(s0, t, s);
      } else {
        FollowedKeeps(s0, leave, s);
      }
    }

    method ReadCodeLens() returns (leave: bool, done: bool)
      requires Good() && mode == CodeLens
      modifies this`mode, this`s, this`have, lens, r`next, r`hold, r`bits
      ensures Good() && Leads(old(s), s) && (!done ==> Followed(old(s), leave, s))
      ensures (mode == CodeLens || mode == Bad) && (done ==> mode == CodeLens && have == nlen + ndist)
    {
      hide Base, Fields, InStep, Fine, TightFor, Parts, TablesFor, Followed, Adler.Checksum, LensTo, HasLens, Usable,
        Pow2, Went, Onward;
      Facts();
      ModeIs();
      hide Leads;
      CodeLensIs();
      var m, h;
      ghost var t;
      leave, m, h, t := CodeLensCase(r, o, lt, 0, lenBits, lens, have, nlen + ndist, s);
      done := !leave && m == CodeLens;
      if !done {
        AfterAll(s, leave, t);
      } else {
        Later(s, t);
      }
      CodeLensTo(m, h, t);
    }

    /** On to the state t, with more lengths known. */
    method CodeLensTo(m: Mode, h: nat, ghost t: State)
      requires Parts() && InStep(r, o, t) && Fine(t) && TightFor(t, r.bits, r.hold) && t.wrap == wrap
      requires check == Adler.Checksum(o.before) && t.mode == m && t.last == last
      requires m == Bad || m == CodeLens
      requires m == CodeLens ==>
        t.nlen == nlen && t.ndist == ndist && t.ncode == ncode && Counts() && HasLens(lens[..], h, t)
      requires m == CodeLens ==> lenCodes == lt && Usable(lenCodes[..], 0, lenBits, CODES, t.clens)
      modifies this`mode, this`s, this`have
      ensures Good() && s == t && mode == m && have == h
    {
      hide Base, Fields, InStep, Fine, TightFor, Parts, Adler.Checksum, HasLens, Usable;
      mode, have, s := m, h, t;
      Renew(s);
      CodeLensFields();
    }

    lemma CodeLensIs()
      requires Fields() && mode == CodeLens
      ensures Counts() && HasLens(lens[..], have, s) && lenCodes == lt && Usable(lt[..], 0, lenBits, CODES, s.clens)
    {
    }

    method BuildTables()
      requires Good() && mode == CodeLens && have == nlen + ndist && s.limited
      modifies this`mode, this`s, this`lenCodes, this`lenBits, this`distCodes, this`distBits, lt, dt, work
      ensures Good() && Followed(old(s), false, s) && s.limited && Handed(false, mode, r.bits, s.n)
    {
      hide Base, Fields, InStep, Fine, TightFor, Parts, TablesFor, Followed, Adler.Checksum, HasLens, Usable, Pow2,
        Went, Step, AfterLens;
      var m, lb, db := MakeTables();
      mode, lenCodes, lenBits, distCodes, distBits := m, lt, lb, dt, db;
      TakeTables(AfterLens(s, m));
    }

    /** The state after the tables are made. */
    ghost method TakeTables(t: State)
      requires Base(s) && s.last == last && InStep(r, o, t) && Fine(t) && TightFor(t, r.bits, r.hold)
      requires t.mode == mode && t.wrap == s.wrap && t.last == s.last && (mode == Len || mode == Bad)
      requires mode == Len ==> TablesFor(lenCodes[..], lenBits, distCodes[..], distBits, t)
      modifies this`s
      ensures Good() && s == t
    {
      hide Base, Fields, InStep, Fine, TightFor, Parts, TablesFor, Adler.Checksum;
      Facts();
      s := t;
      Renew(s);
      if mode == Len {
        LenFields();
      } else {
        PlainFields();
      }
    }

    method MakeTables() returns (m: Mode, lb: nat, db: nat)
      requires Good() && mode == CodeLens && have == nlen + ndist && s.limited
      modifies lt, dt, work
      ensures Base(s) && s.last == last && (m == Len || m == Bad) && s.nlen <= |s.lens| && r.bits < 8
      ensures var t := AfterLens(s, m);
        && InStep(r, o, t) && Fine(t) && TightFor(t, r.bits, r.hold) && Followed(s, false, t)
        && t.mode == m && t.wrap == s.wrap && t.last == s.last && t.limited
        && (m == Len ==> TablesFor(lt[..], lb, dt[..], db, t))
    {
      hide Fields, InStep, Fine, TightFor, TablesFor, Followed, Adler.Checksum, HasLens, Usable, Pow2, Went,
        FixedTables, Step, AfterLens;
      ModeIs();
      CodeLensIs();
      m, lb, db := CodeLensDone(lens, lt, dt, work, nlen, ndist, s);
      TablesKnownAs(s, lens[..], m);
      ghost var t := AfterLens(s, m);
      WentOne(s, t);
      After(s, false, t);
      AlsoInStep(r, o, s, t);
      AllRead(s, lens[..], r.bits, r.hold);
      FewTight(t, r.bits, r.hold);
    }

    /** One case. */
    method Go() returns (leave: bool)
      requires Good() && s.limited
      modifies this, r`next, r`hold, r`bits, o`put, o.out, lens, lt, dt, work
      ensures Good() && Followed(old(s), leave, s) && s.limited && Handed(leave, mode, r.bits, s.n)
    {
      hide Base, Fields, Followed;
      ghost var s0 := s;
      match mode {
        case Head => leave := GoHead();
        case Type => leave := GoType();
        case Stored => leave := GoStored();
        case Copy => leave := GoCopy();
        case Table => leave := GoTable();
        case LenLens => leave := GoLenLens();
        case CodeLens => leave := GoCodeLens();
        case Len => leave := GoLen();
        case LenExt => leave := GoLenExt();
        case Dist => leave := GoDist();
        case DistExt => leave := GoDistExt();
        case Match => leave := GoMatch();
        case Lit => leave := GoLit();
        case Check => leave := GoCheck();
        case Dict =>
          leave := true;
          Stays();
        case Done =>
          leave := true;
          Stays();
        case Bad =>
          leave := true;
          Stays();
      }
      FollowedKeeps(s0, leave, s);
    }

    lemma Stays()
      requires Good() && (mode == Dict || mode == Done || mode == Bad)
      ensures Followed(s, true, s)
    {
      hide Base, Fields, Leads, Step;
      ModeIs();
      Over(s);
      LeadsSelf(s);
    }

    /** inflate: given more input and a buffer with at least the space that was left, go on
        as far as the stream without buffers would, and no further. */
    method Inflate(more: seq<byte>, buffer: array<byte>) returns (ret: Return, written: nat)
      requires Resting() && s.room <= buffer.Length && buffer != o.w.window
      modifies this, r, o, o.w, o.w.window, buffer, lens, lt, dt, work
      ensures Resting() && written <= buffer.Length && s.out == old(s.out) + buffer[..written]
      ensures s.room == buffer.Length - written
      ensures Leads(Feed(old(s), more, buffer.Length - old(s).room), s) && Step(s) == Wait
      ensures mode == s.mode && Handed(true, mode, r.bits, s.n)
      ensures ret == StreamEnd <==> s.mode == Done
      ensures ret == DataError <==> s.mode == Bad
      ensures ret == NeedDict <==> s.mode == Dict
      ensures ret == BufError <==> s.mode != Done && s.mode != Bad && s.mode != Dict && written == 0 && r.next == 0
    {
      hide Base, Fields, Resting, Followed, Leads, Step, Output.Valid, Left, Feed;
      written := 0;
      ghost var s0, before := Feed(s, more, buffer.Length - s.room), s.out;
      StartCall(more, buffer);
      LeadsSelf(s);
      var leave := false;
      while !leave
        invariant Good() && s.limited && o.out == buffer && Leads(s0, s) && (leave ==> Step(s) == Wait)
        invariant o.before == before && (leave ==> Handed(true, mode, r.bits, s.n))
        decreases !leave, Left(s)
      {
        ghost var s1 := s;
        leave := Go();
        Onwards(s0, s1, leave, s);
      }
      written := LeaveCall(buffer);
      AtRest();
      match mode
      case Done => ret := StreamEnd;
      case Bad => ret := DataError;
      case Dict => ret := NeedDict;
      case _ => ret := if r.next == 0 && written == 0 then BufError else Ok;
    }

    /** The new input and buffer. */
    method StartCall(more: seq<byte>, buffer: array<byte>)
      requires Resting() && s.room <= buffer.Length && buffer != o.w.window
      modifies this`s, r, o`out
      ensures Good() && s == Feed(old(s), more, buffer.Length - old(s).room) && o.out == buffer
      ensures o.before == old(s.out) && s.limited
    {
      hide Fine, TightFor, Fields, Pow2, BytesOf, Cat, Adler.Checksum, Leads, FixedTables;
      FeedFine(s, more, buffer.Length - s.room);
      FeedTight(s, more, buffer.Length - s.room, r.bits, r.hold);
      FeedStream(s, more, buffer.Length - s.room);
      r.Refill(more);
      o.StartCall(buffer);
      Fed(more, buffer.Length - s.room);
    }

    /** The fields do not depend on bits and room. */
    ghost method Fed(more: seq<byte>, room: nat)
      requires Fields()
      modifies this`s
      ensures Fields() && s == Feed(old(s), more, room)
    {
      hide Pow2, BytesOf, LensTo, Usable;
      ghost var t := Feed(s, more, room);
      s := t;
    }

    /** inf_leave. */
    method LeaveCall(buffer: array<byte>) returns (written: nat)
      requires Good() && s.limited && o.out == buffer
      modifies this`check, o`put, o`before, o.w`wsize, o.w`wnext, o.w`whave, o.w.window
      ensures Resting() && written <= buffer.Length && s.out == old(o.before) + buffer[..written]
      ensures s.room == buffer.Length - written && s == old(s)
    {
      hide Fine, TightFor, Fields, Pow2, BytesOf, Cat, Adler.Checksum, Leads, FixedTables;
      written := o.put;
      check := Sum(check, o.out[..o.put], o.before);
      o.EndCall();
      assert o.before + o.out[..0] == o.before;
    }

    lemma AtRest()
      requires Resting()
      ensures mode == s.mode
    {
    }

    lemma ModeIs()
      requires Fields()
      ensures s.mode == mode && s.last == last
    {
    }
  }

  /** What a case promises: it follows the stream's states; it leaves only where they wait,
      and gets somewhere otherwise. */
  ghost predicate Followed(s: State, leave: bool, t: State) {
    Leads(s, t) && if leave then Step(t) == Wait else t != s
  }

  /** A stream stays limited. */
  ghost predicate Keeps(s: State, p: Outcome) {
    p.Next? ==> p.s.limited == s.limited
  }

  lemma FieldsKeep(s: State)
    ensures s.mode == Head ==> Keeps(s, StepHead(s))
    ensures s.mode == Type ==> Keeps(s, StepType(s))
    ensures s.mode == Stored ==> Keeps(s, StepStored(s))
    ensures s.mode == Copy ==> Keeps(s, StepCopy(s))
    ensures s.mode == Table ==> Keeps(s, StepTable(s))
  {
    hide Low, Shr, FixedLit, FixedDist;
  }

  lemma ExtrasKeep(s: State)
    ensures s.mode == LenExt ==> Keeps(s, StepLenExt(s))
    ensures s.mode == DistExt ==> Keeps(s, StepDistExt(s))
    ensures s.mode == Match ==> Keeps(s, StepMatch(s))
    ensures s.mode == Lit ==> Keeps(s, StepLit(s))
    ensures s.mode == Check ==> Keeps(s, StepCheck(s))
  {
    hide Low, Shr, Swap32;
  }

  lemma CodesKeep(s: State)
    ensures s.mode == Len ==> Keeps(s, StepLen(s))
    ensures s.mode == Dist ==> Keeps(s, StepDist(s))
    ensures s.mode == LenLens ==> Keeps(s, StepLenLens(s))
    ensures s.mode == CodeLens ==> Keeps(s, StepCodeLens(s))
  {
    hide Low, Shr, LBASE, LEXT, DBASE, DEXT, Decode, ORDER, Refused, NoCodes, TooLarge;
  }

  lemma StepKeeps(s: State, t: State)
    requires Step(s) == Next(t)
    ensures t.limited == s.limited
  {
    hide StepHead, StepType, StepStored, StepCopy, StepTable, StepLenLens, StepCodeLens, StepLen, StepLenExt,
      StepDist, StepDistExt, StepMatch, StepLit, StepCheck;
    FieldsKeep(s);
    ExtrasKeep(s);
    CodesKeep(s);
  }

  lemma {:induction false} RunKeeps(s: State, k: nat)
    requires Run(s, k).Next?
    ensures Run(s, k).s.limited == s.limited
    decreases k
  {
    hide Step;
    if k > 0 {
      StepKeeps(s, Step(s).s);
      RunKeeps(Step(s).s, k - 1);
    }
  }

  lemma FollowedKeeps(s: State, leave: bool, t: State)
    requires Followed(s, leave, t)
    ensures t.limited == s.limited
  {
    hide Run, Step;
    var k: nat :| Run(s, k) == Next(t);
    RunKeeps(s, k);
  }

  lemma LeadsKeeps(s: State, t: State)
    requires Leads(s, t)
    ensures t.limited == s.limited
  {
    hide Run;
    var k: nat :| Run(s, k) == Next(t);
    RunKeeps(s, k);
  }

  lemma Over(s: State)
    requires s.mode == Dict || s.mode == Done || s.mode == Bad
    ensures Step(s) == Wait
  {
  }

  lemma Beginning(wrap: bool, hold: nat)
    ensures var s := NotBegun(wrap);
      && Fine(s) && TightFor(s, 0, hold)
      && s.mode == Head && s.wrap == wrap && s.limited && !s.last && s.x == s.n == 0 && s.out == []
    ensures Adler.Checksum([]) == 1
  {
  }

  lemma FixedUsable(lt: seq<Code>, dt: seq<Code>, s: State)
    requires FixedTables(lt, dt) && s.lencode == FixedLit() && s.distcode == FixedDist()
    ensures TablesFor(lt, 9, dt, 5, s)
  {
  }

  /** A case that went several steps. */
  lemma AfterAll(s: State, leave: bool, t: State)
    requires Fine(s) && Leads(s, t) && (if leave then Step(t) == Wait else t != s)
    ensures Fine(t) && Followed(s, leave, t)
  {
    LeadsFed(s, t, [], 0);
  }

  lemma NoBits(s: State, bits: nat, hold: nat)
    requires s.mode == Copy && TightFor(s, bits, hold)
    ensures bits == 0
  {
  }

  lemma FewHeld(s: State, bits: nat, hold: nat)
    requires TightFor(s, bits, hold) && (s.mode == Lit || s.mode == Match || s.mode == LenExt || s.mode == LenLens)
    ensures bits < 8
  {
  }

  lemma FewTight(t: State, bits: nat, hold: nat)
    requires bits < 8 && (t.mode == Copy ==> bits == 0) && t.mode != Head && t.mode != Check
    ensures TightFor(t, bits, hold)
  {
  }

  lemma OnwardIs(s: State, t: State, m: Mode)
    requires Onward(s, t, m)
    ensures t.mode == m && t.wrap == s.wrap && t.last == s.last && t.lencode == s.lencode && t.distcode == s.distcode
  {
  }

  lemma OnwardTables(s: State, t: State, m: Mode, lt: seq<Code>, lb: nat, dt: seq<Code>, db: nat)
    requires Onward(s, t, m) && TablesFor(lt, lb, dt, db, s)
    ensures TablesFor(lt, lb, dt, db, t)
  {
  }

  lemma FollowedOn(s: State, t: State, u: State)
    requires Leads(s, t) && Followed(t, false, u)
    ensures Followed(s, false, u)
  {
    hide Leads;
    LeadsTrans(s, t, u);
    LeadsShrinks(s, t);
    LeadsShrinks(t, u);
  }

  lemma LenTight(r: Reader, s: State)
    requires s.mode == Len && TightFor(s, r.bits, r.hold)
    ensures r.bits < 8 || Cut(r, s)
  {
  }

  lemma RoomOf(r: Reader, o: Output, s: State)
    requires InStep(r, o, s)
    ensures s.room == o.out.Length - o.put
  {
  }

  lemma DistMode(s: State, f: Found, t: State)
    requires f.bits <= s.n && t == AfterDist(s, f)
    ensures t.wrap == s.wrap && t.last == s.last && t.lencode == s.lencode && t.distcode == s.distcode
    ensures t.length == s.length
    ensures if Has(f.op, 16) then t.mode == DistExt && t.offset == f.val && t.extra == f.op % 16 else t.mode == Bad
  {
  }

  lemma LenMode(s: State, f: Found, t: State)
    requires f.bits <= s.n && t == AfterLen(s, f)
    ensures t.wrap == s.wrap && t.last == s.last && t.lencode == s.lencode && t.distcode == s.distcode
    ensures if f.op == 0 then t.mode == Lit && t.length == f.val
      else if Has(f.op, 16) then t.mode == LenExt && t.length == f.val && t.extra == f.op % 16
      else if Has(f.op, 32) then t.mode == Type else t.mode == Bad
  {
  }

  lemma SameTables(s: State, t: State, lt: seq<Code>, lb: nat, dt: seq<Code>, db: nat)
    requires t.lencode == s.lencode && t.distcode == s.distcode && TablesFor(lt, lb, dt, db, s)
    ensures TablesFor(lt, lb, dt, db, t)
  {
  }

  lemma AllRead(s: State, lens: seq<nat>, bits: nat, hold: nat)
    requires s.mode == CodeLens && TightFor(s, bits, hold) && HasLens(lens, s.nlen + s.ndist, s)
    ensures bits < 8
  {
  }

  lemma TablesKnownAs(s: State, lens: seq<nat>, m: Mode)
    requires HasLens(lens, s.nlen + s.ndist, s)
    ensures s.nlen <= |s.lens|
    ensures var t := AfterLens(s, m);
      && t.mode == m && t.wrap == s.wrap && t.limited == s.limited && t.last == s.last
      && t.x == s.x && t.n == s.n && t.room == s.room && t.out == s.out
  {
  }

  lemma FeedTight(s: State, more: seq<byte>, room: nat, bits: nat, hold: nat)
    requires TightFor(s, bits, hold)
    ensures TightFor(Feed(s, more, room), bits, hold)
  {
    hide Pow2, BytesOf, Decode;
  }

  lemma FeedStream(s: State, more: seq<byte>, room: nat)
    ensures var t := Feed(s, more, room);
      BitString(t.x, t.n) == Cat(BitString(s.x, s.n),
        BytesOf(more)) && t.wrap == s.wrap && t.limited == s.limited && t.room == s.room + room && t.out == s.out
  {
    hide Pow2, BytesOf;
    BytesValid(more);
  }

  lemma Onwards(s0: State, s: State, leave: bool, t: State)
    requires Leads(s0, s) && Followed(s, leave, t)
    ensures Leads(s0, t) && (leave ==> Step(t) == Wait) && (!leave ==> Left(t) < Left(s))
  {
    hide Leads, Left;
    LeadsTrans(s0, s, t);
    LeadsShrinks(s, t);
  }

  lemma WentOne(s: State, t: State)
    requires Step(s) == Next(t)
    ensures Went(s, false, t)
  {
  }

  /** Several steps within a mode. */
  lemma Later(s: State, t: State)
    requires Fine(s) && Leads(s, t)
    ensures Fine(t)
  {
    LeadsFed(s, t, [], 0);
  }

  lemma NoLensYet(lens: seq<nat>, s: State)
    requires |lens| == 320 && s.lens == [] && s.nlen + s.ndist <= 316
    ensures HasLens(lens, 0, s)
  {
  }

  lemma NoneYet(lens: seq<nat>)
    requires |lens| == 320
    ensures LensTo(lens, ZEROS, 0)
  {
  }

  /** A case that went one step has got somewhere. */
  lemma After(s: State, leave: bool, t: State)
    requires Fine(s) && Went(s, leave, t)
    ensures Fine(t) && Followed(s, leave, t) && (leave ==> t == s)
  {
    hide Fine, Leads, Step;
    if leave {
      LeadsSelf(s);
    } else {
      Moves(s, t);
      StepShrinks(s, t);
    }
  }

  // ---- Call after call ----

  /** One more call. */
  lemma {:induction false} DrivesOn(s: State, cs: seq<Chunk>, t: State, c: Chunk, u: State)
    requires Drives(s, cs, t) && Leads(Feed(t, c.bytes, c.room), u) && Step(u) == Wait
    ensures Drives(s, cs + [c], u)
    decreases |cs|
  {
    hide Leads, Feed, Step;
    if cs == [] {
      assert (cs + [c])[1..] == [];
      assert Drives(u, [], u);
    } else {
      var m :| Leads(Feed(s, cs[0].bytes, cs[0].room), m) && Step(m) == Wait && Drives(m, cs[1..], t);
      DrivesOn(m, cs[1..], t, c, u);
      assert (cs + [c])[1..] == cs[1..] + [c];
    }
  }

  /** A stream fed in chunks of input and output space: what comes out is what the stream
      without buffers puts out when driven by those chunks. */
  method DecodeChunks(f: Inflater, chunks: seq<Chunk>) returns (out: seq<byte>, mode: Mode)
    requires f.Resting() && f.s == NotBegun(f.wrap)
    modifies f, f.r, f.o, f.o.w, f.o.w.window, f.lens, f.lt, f.dt, f.work
    ensures Drives(NotBegun(f.wrap), chunks, f.s) && out == f.s.out && mode == f.s.mode
  {
    hide Inflater.Resting, Leads, Step, Drives, Feed;
    f.AtRest();
    out, mode := [], f.mode;
    var i, left: nat := 0, 0;
    NoChunks(f.s);
    assert chunks[..0] == [];
    while i < |chunks|
      invariant 0 <= i <= |chunks| && f.Resting() && out == f.s.out && left == f.s.room
      invariant Drives(NotBegun(f.wrap), chunks[..i], f.s)
    {
      var c := chunks[i];
      var buffer := new byte[left + c.room];
      ghost var s := f.s;
      var _, written := f.Inflate(c.bytes, buffer);
      DrivesOn(NotBegun(f.wrap), chunks[..i], s, c, f.s);
      assert chunks[..i + 1] == chunks[..i] + [c];
      out := out + buffer[..written];
      left := buffer.Length - written;
      i := i + 1;
    }
    assert chunks[..i] == chunks;
    f.AtRest();
    mode := f.mode;
  }

  lemma NoChunks(s: State)
    ensures Drives(s, [], s)
  {
  }

  // ---- A stream from its start ----

  lemma FixedBits()
    ensures RootBits(FixedLit(), 9) == 9 && RootBits(FixedDist(), 5) == 5
    ensures Need(FixedLit(), 9) == 512 && Need(FixedDist(), 5) == 32
  {
    hide SubTables, Longest, Shortest;
    var L, D := FixedLit(), FixedDist();
    assert L[144] == 9 && L[256] == 7 && D[0] == 5;
    ShortNeed(L, 9, Pow2(9));
    ShortNeed(D, 5, Pow2(5));
    assert Pow2(9) == 512 && Pow2(5) == 32;
  }

  lemma FixedAccepted()
    ensures !NoCodes(FixedLit()) && !NoCodes(FixedDist()) && !Refused(LENS, FixedLit()) && !Refused(DISTS, FixedDist())
    ensures Lengths(FixedLit()) && Lengths(FixedDist()) && |FixedLit()| == 288 && |FixedDist()| == 32
  {
    assert FixedLit()[0] == 8 && FixedDist()[0] == 5;
    FixedOk();
    StaticTrees.FixedComplete();
  }

  /** fixedtables, with the tables built at run time: the two tables of fixed blocks. */
  method MakeFixed() returns (lenfix: array<Code>, distfix: array<Code>)
    ensures fresh(lenfix) && fresh(distfix) && FixedTables(lenfix[..], distfix[..])
  {
    lenfix, distfix := new Code[ENOUGH_LENS](_ => INVALID), new Code[ENOUGH_DISTS](_ => INVALID);
    var work := new nat[288](_ => 0);
    FixedBits();
    FixedAccepted();
    hide FixedLit, FixedDist, Need, RootBits, NoCodes, Refused, Usable;
    var ret, root := MakeTable(LENS, FixedLit(), lenfix, 9, work);
    assert ret == 0 && root == 9;
    ret, root := MakeTable(DISTS, FixedDist(), distfix, 5, work);
    assert ret == 0 && root == 5;
  }

  /** inflateInit: a stream not yet begun. */
  method NewStream(wrap: bool) returns (f: Inflater)
    ensures fresh(f) && fresh(f.r) && fresh(f.o) && fresh(f.o.w) && fresh(f.o.w.window) && fresh(f.lens) && fresh(f.lt)
    ensures fresh(f.dt) && fresh(f.work)
    ensures f.Resting() && f.s == NotBegun(wrap) && f.wrap == wrap
  {
    hide FixedTables, Inflater.Resting, NotBegun, Output.Valid;
    var r := new Reader();
    var o := new Output();
    var lenfix, distfix := MakeFixed();
    var lt, dt := new Code[ENOUGH_LENS](_ => INVALID), new Code[ENOUGH_DISTS](_ => INVALID);
    var work, lens := new nat[288](_ => 0), new nat[320](_ => 0);
    f := new Inflater(wrap, r, o, lt, dt, lenfix, distfix, work, lens);
  }

  /** A whole stream through inflate, in chunks: the output and the verdict are those of the
      stream without buffers. */
  method InflateAll(wrap: bool, chunks: seq<Chunk>) returns (out: seq<byte>, mode: Mode)
    ensures exists t :: Drives(NotBegun(wrap), chunks, t) && out == t.out && mode == t.mode
  {
    hide Drives, Inflater.Resting, NotBegun;
    var f := NewStream(wrap);
    out, mode := DecodeChunks(f, chunks);
  }
}
