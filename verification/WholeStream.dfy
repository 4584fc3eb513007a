/** deflate and then inflate, both with their buffers: the data comes back. */
module WholeStream {
  import opened Bits
  import opened BitWriter
  import opened InflateTable
  import opened InflateSpec
  import opened InflateChunks
  import opened Chains
  import opened Compress
  import Inflate
  import RoundTrip

  // ---- Table space ----

  /** The same stream with as many table entries as it takes. */
  function Unlimited(s: State): State {
    s.(limited := false)
  }

  function UnlimitedOutcome(p: Outcome): Outcome {
    match p
    case Wait => Wait
    case Next(t) => Next(Unlimited(t))
  }

  lemma FieldsSame(s: State)
    ensures s.mode == Head ==> StepHead(Unlimited(s)) == UnlimitedOutcome(StepHead(s))
    ensures s.mode == Type ==> StepType(Unlimited(s)) == UnlimitedOutcome(StepType(s))
    ensures s.mode == Stored ==> StepStored(Unlimited(s)) == UnlimitedOutcome(StepStored(s))
    ensures s.mode == Copy ==> StepCopy(Unlimited(s)) == UnlimitedOutcome(StepCopy(s))
    ensures s.mode == Table ==> StepTable(Unlimited(s)) == UnlimitedOutcome(StepTable(s))
  {
    hide Low, Shr, FixedLit, FixedDist, HeadVerdict;
  }

  lemma CopiesSame(s: State)
    ensures s.mode == LenExt ==> StepLenExt(Unlimited(s)) == UnlimitedOutcome(StepLenExt(s))
    ensures s.mode == DistExt ==> StepDistExt(Unlimited(s)) == UnlimitedOutcome(StepDistExt(s))
    ensures s.mode == Match ==> StepMatch(Unlimited(s)) == UnlimitedOutcome(StepMatch(s))
    ensures s.mode == Lit ==> StepLit(Unlimited(s)) == UnlimitedOutcome(StepLit(s))
    ensures s.mode == Check ==> StepCheck(Unlimited(s)) == UnlimitedOutcome(StepCheck(s))
  {
    hide Low, Shr, Swap32;
  }

  lemma SymbolsSame(s: State)
    ensures s.mode == Len ==> StepLen(Unlimited(s)) == UnlimitedOutcome(StepLen(s))
    ensures s.mode == Dist ==> StepDist(Unlimited(s)) == UnlimitedOutcome(StepDist(s))
  {
    hide Low, Shr, LBASE, LEXT, DBASE, DEXT, Decode;
  }

  lemma LenLensSame(s: State)
    ensures s.mode == LenLens ==> StepLenLens(Unlimited(s)) == UnlimitedOutcome(StepLenLens(s))
  {
    hide Low, Shr, ORDER, Refused, NoCodes;
  }

  lemma CodesSame(s: State)
    requires s.mode == CodeLens && !TooLarge(s)
    ensures StepCodeLens(Unlimited(s)) == UnlimitedOutcome(StepCodeLens(s))
  {
    hide Low, Shr, Decode, Refused, NoCodes, TooLarge, Repeat;
    if |s.lens| < s.nlen + s.ndist {
      var d := Decode(s.clens, s.x, s.n);
      if d.Sym? && d.sym >= 16 {
        RepeatSame(s, d.sym);
      }
    }
  }

  lemma RepeatSame(s: State, sym: nat)
    requires s.mode == CodeLens && |s.lens| < s.nlen + s.ndist && Decode(s.clens, s.x, s.n) == Sym(sym) && sym >= 16
    ensures StepCodeLens(Unlimited(s)) == UnlimitedOutcome(StepCodeLens(s))
  {
    hide Low, Shr, Decode, CodeLensEnd, Repeat;
    var t := Drop(s, s.clens[sym]);
    if sym == 16 {
      if t.n >= 2 && s.lens != [] {
        RepeatAlike(Drop(t, 2), s.lens[|s.lens| - 1], 3 + Low(t.x, 2));
      }
    } else if sym == 17 {
      if t.n >= 3 {
        RepeatAlike(Drop(t, 3), 0, 3 + Low(t.x, 3));
      }
    } else if t.n >= 7 {
      RepeatAlike(Drop(t, 7), 0, 11 + Low(t.x, 7));
    }
  }

  lemma RepeatAlike(u: State, len: nat, count: nat)
    ensures Repeat(Unlimited(u), len, count) == Unlimited(Repeat(u, len, count))
  {
  }

  /** But for a code that takes too many entries, every step is the same. */
  lemma StepSame(s: State)
    requires !TooLarge(s)
    ensures Step(Unlimited(s)) == UnlimitedOutcome(Step(s))
  {
    hide StepHead, StepType, StepStored, StepCopy, StepTable, StepLenLens, StepCodeLens, StepLen, StepLenExt,
      StepDist, StepDistExt, StepMatch, StepLit, StepCheck, TooLarge;
    if s.mode == CodeLens {
      CodesSame(s);
    } else {
      FieldsSame(s);
      CopiesSame(s);
      SymbolsSame(s);
      LenLensSame(s);
    }
  }

  /** The stream comes to a block with a code that takes too many entries. */
  ghost predicate MeetsLarge(s: State) {
    exists u :: Leads(s, u) && TooLarge(u)
  }

  lemma MeetsLater(s: State, t: State)
    requires Step(s) == Next(t) && MeetsLarge(t)
    ensures MeetsLarge(s)
  {
    hide Step, Leads, TooLarge;
    var u :| Leads(t, u) && TooLarge(u);
    LeadsStep(s, t, u);
  }

  lemma {:induction false} RunSame(s: State, k: nat)
    requires Run(Unlimited(s), k).Next? && !MeetsLarge(s)
    ensures Run(s, k).Next? && Run(Unlimited(s), k).s == Unlimited(Run(s, k).s)
    decreases k
  {
    hide Step, TooLarge, Leads;
    if k > 0 {
      LeadsSelf(s);
      StepSame(s);
      var t := Step(s).s;
      if MeetsLarge(t) {
        MeetsLater(s, t);
      }
      RunSame(t, k - 1);
    }
  }

  lemma GivenUp(u: State)
    requires TooLarge(u) && u.limited
    ensures Step(u) == Next(u.(mode := Bad)) && Step(u.(mode := Bad)) == Wait
  {
    hide Decode, Refused, NoCodes, Exceeds;
    assert Step(u) == StepCodeLens(u);
  }

  /** A limited stream that comes to such a block is given up. */
  lemma LargeEnd(s: State, t: State)
    requires s.limited && MeetsLarge(s) && Leads(s, t) && Step(t) == Wait
    ensures t.mode == Bad
  {
    hide Step, TooLarge, Leads;
    var u :| Leads(s, u) && TooLarge(u);
    Inflate.LeadsKeeps(s, u);
    GivenUp(u);
    var bad := u.(mode := Bad);
    LeadsSelf(bad);
    LeadsStep(u, bad, bad);
    LeadsTrans(s, u, bad);
    OnlyEnd(s, t, bad);
  }

  /** Where a limited stream ends: as without the limit, or given up. */
  lemma LimitedEnd(s: State, v: State, t: State)
    requires s.limited && Leads(Unlimited(s), v) && (v.mode == Done || v.mode == Bad) && Leads(s, t) && Step(t) == Wait
    ensures if MeetsLarge(s) then t.mode == Bad else t.mode == v.mode && t.out == v.out
  {
    hide Step, TooLarge, Run;
    if MeetsLarge(s) {
      LargeEnd(s, t);
    } else {
      var k: nat :| Run(Unlimited(s), k) == Next(v);
      RunSame(s, k);
      var u := Run(s, k).s;
      Inflate.Over(u);
      OnlyEnd(s, t, u);
    }
  }

  // ---- There and back ----

  /** All input and all output space at once. */
  function Whole(wrap: bool, bytes: seq<byte>, room: nat): State {
    Feed(Inflate.NotBegun(wrap), bytes, room)
  }

  lemma WholeIs(wrap: bool, bytes: seq<byte>, room: nat)
    ensures var s := Whole(wrap, bytes, room);
      && s.mode == Head && s.wrap == wrap && s.limited && !s.last && s.out == [] && s.room == room
      && BitString(s.x, s.n) == BytesOf(bytes)
  {
    hide BytesOf;
    BytesValid(bytes);
  }

  /** What inflate makes of a compressed stream, however it is cut: the data, unless a block
      in it has a code that takes more table entries than inflate has. */
  lemma ComesBack(bytes: seq<byte>, wrap: bool, data: seq<byte>, chunks: seq<Chunk>, t: State)
    requires InflatesTo(bytes, wrap, data) && chunks != [] && AllBytes(chunks) == bytes && AllRoom(chunks) >= |data|
    requires Drives(Inflate.NotBegun(wrap), chunks, t)
    ensures if MeetsLarge(Whole(wrap, bytes, AllRoom(chunks))) then t.mode == Bad else t.mode == Done && t.out == data
  {
    hide Step, Leads, Drives, AllBytes, AllRoom, Feed, BytesOf, MeetsLarge;
    var s := Whole(wrap, bytes, AllRoom(chunks));
    Inflate.Beginning(wrap, 0);
    DrivesAtOnce(Inflate.NotBegun(wrap), chunks, t);
    WholeIs(wrap, bytes, AllRoom(chunks));
    assert FromStart(Unlimited(s), bytes, wrap, |data|);
    var v :| Leads(Unlimited(s), v) && v.mode == Done && v.out == data && v.n == 0;
    LimitedEnd(s, v, t);
  }

  /** deflate, then inflate on the bytes cut in any way: the data comes back. */
  method ThereAndBack(g: Config, data: seq<byte>, wrap: bool, wbits: nat, levelFlags: nat, lazy: bool,
                      maxLazy: nat, goodMatch: nat, niceMatch: nat, maxChain: nat, filtered: bool, fixedOnly: bool,
                      memLevel: nat, cut: seq<byte> -> seq<Chunk>)
      returns (bytes: seq<byte>, out: seq<byte>, mode: Mode)
    requires g.Ok() && 8 <= wbits <= 15 && levelFlags < 4 && maxLazy <= MAX_MATCH && 1 <= memLevel <= 9
    requires forall b :: cut(b) != [] && AllBytes(cut(b)) == b && AllRoom(cut(b)) >= |data|
    ensures if MeetsLarge(Whole(wrap, bytes, AllRoom(cut(bytes)))) then mode == Bad else mode == Done && out == data
  {
    hide MeetsLarge, InflatesTo, Drives, AllBytes, AllRoom, Whole, Chosen, Hold, StreamBits, BytesOf, RoundTrip.Written;
    ghost var items, blocks;
    bytes, items, blocks := Compress.Compress(g, data, wrap, wbits, levelFlags, lazy, maxLazy, goodMatch, niceMatch,
      maxChain, filtered, fixedOnly, memLevel);
    var chunks := cut(bytes);
    out, mode := Inflate.InflateAll(wrap, chunks);
    ghost var t :| Drives(Inflate.NotBegun(wrap), chunks, t) && out == t.out && mode == t.mode;
    ComesBack(bytes, wrap, data, chunks, t);
  }
}
