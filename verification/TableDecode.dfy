/** inflate.c: finding the next symbol through the tables, pulling no more bytes than that
    takes. */
module TableDecode {
  import opened Bits
  import opened Canonical
  import opened InflateTable
  import opened InflateSpec
  import opened InflateChunks
  import opened BitWriter
  import opened BitReader

  /** A table that stands for a code. */
  ghost predicate Usable(t: seq<Code>, at: nat, root: nat, typ: CodeType, lens: seq<nat>) {
    |lens| <= MaxSymbols(typ) && Lengths(lens) && CodeOk(lens) && Built(t, at, root, typ, lens)
  }

  /** The entry found is that of the symbol that the code decodes to. */
  ghost predicate FoundFor(typ: CodeType, lens: seq<nat>, f: Found, d: Symbol) {
    match d
    case More => false
    case NoCode => f == FoundOf(INVALID)
    case Sym(s) => s < |lens| <= MaxSymbols(typ) && lens[s] > 0 && f == FoundOf(Entry(typ, s, lens[s]))
  }

  /** What any stream h is looked up as. */
  lemma LookupIs(t: seq<Code>, at: nat, root: nat, typ: CodeType, lens: seq<nat>, h: nat)
    requires Usable(t, at, root, typ, lens)
    ensures LookupDefined(t, at, root, h)
    ensures forall s: nat :: Matches(lens, s, h) ==> Lookup(t, at, root, h) == FoundOf(Entry(typ, s, lens[s]))
    ensures (forall s: nat :: !Matches(lens, s, h)) ==> Lookup(t, at, root, h) == FoundOf(INVALID)
  {
    if exists s: nat :: Matches(lens, s, h) {
      var s: nat :| Matches(lens, s, h);
      assert Gives(t, at, root, h, Entry(typ, s, lens[s]));
    } else if Complete(lens) {
      var s := CompleteMatch(lens, h);
      assert false;
    } else {
      assert Gives(t, at, root, h, INVALID);
    }
  }

  /** Enough bits are there: the entry found is the symbol's, whatever follows. */
  lemma Decided(t: seq<Code>, at: nat, root: nat, typ: CodeType, lens: seq<nat>, h: nat, b: nat, x: nat, n: nat)
    requires Usable(t, at, root, typ, lens) && Low(h, b) == Low(x, b) && b <= n
    ensures LookupDefined(t, at, root, h)
    ensures Lookup(t, at, root, h).bits <= b ==> FoundFor(typ, lens, Lookup(t, at, root, h), Decode(lens, x, n))
    ensures Lookup(t, at, root, h).bits > b ==> Decode(lens, h, b) == More
  {
    LookupIs(t, at, root, typ, lens, h);
    var f := Lookup(t, at, root, h);
    hide Lookup, LookupDefined, Built, Entry;
    if exists s: nat :: Matches(lens, s, h) {
      var s: nat :| Matches(lens, s, h);
      EntryBits(typ, s, lens[s]);
      DecodeSym(lens, h, b, s);
    }
    if f.bits <= b {
      DecodeFed(lens, h, b, x, n);
    }
  }

  lemma EntryBits(typ: CodeType, s: nat, l: nat)
    requires s < MaxSymbols(typ)
    ensures FoundOf(Entry(typ, s, l)).bits == l
  {
  }

  /** With fifteen bits there, a symbol is always decided. */
  lemma AlwaysDecided(t: seq<Code>, at: nat, root: nat, typ: CodeType, lens: seq<nat>, h: nat)
    requires Usable(t, at, root, typ, lens)
    ensures LookupDefined(t, at, root, h) && Lookup(t, at, root, h).bits <= MAXBITS
  {
    LookupIs(t, at, root, typ, lens, h);
    hide Lookup, LookupDefined, Built, Entry;
    if exists s: nat :: Matches(lens, s, h) {
      var s: nat :| Matches(lens, s, h);
      EntryBits(typ, s, lens[s]);
    }
  }

  /** The second level does not look at more of the stream's start. */
  lemma SameRoot(h: nat, y: nat, root: nat, b: nat)
    requires Low(h, b) == Low(y, b) && root <= b
    ensures Low(h, root) == Low(y, root)
  {
    LowLow(h, root, b);
    LowLow(y, root, b);
  }

  /** A code that fewer bits did not decide takes more than those. */
  lemma Needed(lens: seq<nat>, h: nat, b: nat, x: nat, n: nat)
    requires CodeOk(lens) && Low(h, b) == Low(x, b) && b <= n && Decode(lens, h, b) == More
    requires Decode(lens, x, n) != More
    ensures var d := Decode(lens, x, n); if d.Sym? then lens[d.sym] > b else b == 0
  {
    var d := Decode(lens, x, n);
    if d.Sym? {
      if lens[d.sym] <= b {
        PreFed(x, h, lens[d.sym], b);
        DecodeSym(lens, h, b, d.sym);
      }
    } else if b >= 1 {
      NoneFed(lens, x, b, h);
    }
  }

  /** The first b bits do not decide a symbol. */
  ghost predicate Undecided(lens: seq<nat>, x: nat, b: nat) {
    Decode(lens, Low(x, b), b) == More
  }

  lemma HeldIsLow(r: Reader)
    requires r.Valid()
    ensures r.hold == Low(r.Stream().val, r.bits)
  {
    hide Low, Pow2, Cat, BytesOf;
    r.Peek(r.bits);
    LowSmall(r.hold, r.bits);
  }

  lemma NotDecided(r: Reader, t: seq<Code>, at: nat, root: nat, typ: CodeType, lens: seq<nat>)
    requires r.Valid() && Usable(t, at, root, typ, lens) && LookupDefined(t, at, root, r.hold)
    requires Lookup(t, at, root, r.hold).bits > r.bits
    ensures Undecided(lens, r.Stream().val, r.bits)
  {
    hide Low, Usable, Built, Decode, Lookup, LookupDefined;
    HeldIsLow(r);
    Decided(t, at, root, typ, lens, r.hold, r.bits, r.hold, r.bits);
  }

  /** The first level: pull bytes until the entry's bits are there. */
  method FindRoot(r: Reader, t: array<Code>, at: nat, root: nat, ghost typ: CodeType, ghost lens: seq<nat>)
      returns (ok: bool, here: Code)
    requires r.Valid() && Usable(t[..], at, root, typ, lens)
    modifies r`next, r`hold, r`bits
    ensures r.Valid() && r.Stream() == old(r.Stream()) && r.bits >= old(r.bits)
    ensures LookupDefined(t[..], at, root, r.hold)
    ensures here == t[at + Low(r.hold, root)]
    ensures if ok then here.bits <= r.bits else here.bits > r.bits && r.next == |r.input|
    ensures r.bits == old(r.bits) || (r.bits >= old(r.bits) + 8 && Undecided(lens, r.Stream().val, r.bits - 8))
  {
    hide Low, Usable, Built, Decode, Undecided, Lookup;
    while true
      invariant r.Valid() && r.Stream() == old(r.Stream()) && r.bits >= old(r.bits)
      invariant r.bits == old(r.bits) || (r.bits >= old(r.bits) + 8 && Undecided(lens, r.Stream().val, r.bits - 8))
      decreases |r.input| - r.next
    {
      FewNeeded(t[..], at, root, typ, lens, r.hold);
      here := t[at + Low(r.hold, root)];
      if here.bits <= r.bits {
        return true, here;
      }
      if r.next == |r.input| {
        return false, here;
      }
      NotDecided(r, t[..], at, root, typ, lens);
      r.Pull();
    }
  }

  /** No entry asks for more than fifteen bits. */
  lemma FewNeeded(t: seq<Code>, at: nat, root: nat, typ: CodeType, lens: seq<nat>, h: nat)
    requires Usable(t, at, root, typ, lens)
    ensures LookupDefined(t, at, root, h) && t[at + Low(h, root)].bits <= Lookup(t, at, root, h).bits <= MAXBITS
  {
    LookupIs(t, at, root, typ, lens, h);
    RootFirst(t, at, root, h);
    hide Low, Shr, Built, CodeOk, Lookup, LookupDefined, Entry, FoundOf;
    if exists s: nat :: Matches(lens, s, h) {
      var s: nat :| Matches(lens, s, h);
      EntryBits(typ, s, lens[s]);
    } else {
      InvalidBits();
    }
  }

  lemma RootFirst(t: seq<Code>, at: nat, root: nat, h: nat)
    requires LookupDefined(t, at, root, h)
    ensures t[at + Low(h, root)].bits <= Lookup(t, at, root, h).bits
  {
    hide Low, Shr;
  }

  lemma InvalidBits()
    ensures FoundOf(INVALID).bits == 1
  {
  }

  /** With no byte left, what is held is all there is. */
  lemma AllHeld(r: Reader)
    requires r.Valid() && r.next == |r.input|
    ensures r.Stream() == BitString(r.hold, r.bits)
  {
    assert r.input[r.next..] == [];
    NoBytes();
    CatEmpty(BitString(r.hold, r.bits));
  }

  /** The second level, under the entry `last` of the first. */
  method FindSub(r: Reader, t: array<Code>, at: nat, root: nat, last: Code, ghost typ: CodeType, ghost lens: seq<nat>)
      returns (ok: bool, here: Code)
    requires r.Valid() && Usable(t[..], at, root, typ, lens) && LookupDefined(t[..], at, root, r.hold)
    requires last == t[at + Low(r.hold, root)] && 0 < last.op < 16 && last.bits <= r.bits
    modifies r`next, r`hold, r`bits
    ensures r.Valid() && r.Stream() == old(r.Stream()) && r.bits >= old(r.bits)
    ensures LookupDefined(t[..], at, root, r.hold)
    ensures Lookup(t[..], at, root, r.hold) == Found(here.op, here.val, last.bits + here.bits)
    ensures if ok then last.bits + here.bits <= r.bits else last.bits + here.bits > r.bits && r.next == |r.input|
    ensures r.bits == old(r.bits) || (r.bits >= old(r.bits) + 8 && Undecided(lens, r.Stream().val, r.bits - 8))
  {
    hide Low, Shr, Usable, Built, Decode, Undecided;
    while true
      invariant r.Valid() && r.Stream() == old(r.Stream()) && r.bits >= old(r.bits)
      invariant r.bits == old(r.bits) || (r.bits >= old(r.bits) + 8 && Undecided(lens, r.Stream().val, r.bits - 8))
      invariant LookupDefined(t[..], at, root, r.hold) && last == t[at + Low(r.hold, root)]
      decreases |r.input| - r.next
    {
      here := t[at + last.val + Shr(Low(r.hold, last.bits + last.op), last.bits)];
      if last.bits + here.bits <= r.bits {
        return true, here;
      }
      if r.next == |r.input| {
        return false, here;
      }
      ghost var h, b := r.hold, r.bits;
      NotDecided(r, t[..], at, root, typ, lens);
      r.Peek(b);
      FewNeeded(t[..], at, root, typ, lens, r.hold);
      r.Pull();
      r.Peek(b);
      SameRoot(h, r.hold, root, b);
      FewNeeded(t[..], at, root, typ, lens, r.hold);
    }
  }

  /** The next symbol, not yet dropped; or the input ran out in its code. */
  method FindCode(r: Reader, t: array<Code>, at: nat, root: nat, ghost typ: CodeType, ghost lens: seq<nat>)
      returns (ok: bool, found: Found)
    requires r.Valid() && Usable(t[..], at, root, typ, lens)
    modifies r`next, r`hold, r`bits
    ensures r.Valid() && r.Stream() == old(r.Stream()) && r.bits >= old(r.bits)
    ensures ok ==> found.bits <= r.bits && FoundFor(typ, lens, found, Decode(lens, r.Stream().val, r.Stream().len))
    ensures ok ==> found.bits <= MAXBITS
    ensures !ok ==> r.next == |r.input| && Decode(lens, r.Stream().val, r.Stream().len) == More
    ensures ok && (old(r.bits) < 8 || Decode(lens, old(r.hold), old(r.bits)) == More) ==> r.bits - found.bits < 8
    ensures r.bits == old(r.bits) || (r.bits >= old(r.bits) + 8 && Undecided(lens, r.Stream().val, r.bits - 8))
  {
    hide Low, Shr, Usable, Built, Decode, FoundFor, Undecided;
    ghost var b0, h0, x := r.bits, r.hold, r.Stream().val;
    HeldIsLow(r);
    var here;
    ok, here := FindRoot(r, t, at, root, typ, lens);
    found := Found(here.op, here.val, here.bits);
    if ok && 0 < here.op < 16 {
      var last := here;
      ok, here := FindSub(r, t, at, root, last, typ, lens);
      found := Found(here.op, here.val, last.bits + here.bits);
    }
    FewNeeded(t[..], at, root, typ, lens, r.hold);
    Ends(r, t[..], at, root, typ, lens, ok, found);
    if ok && (b0 < 8 || Decode(lens, h0, b0) == More) {
      NoMoreThanNeeded(t[..], at, root, typ, lens, x, r.Stream().len, b0, r.bits, found);
    }
  }

  /** No byte is pulled that the code does not reach into. */
  lemma NoMoreThanNeeded(t: seq<Code>, at: nat, root: nat, typ: CodeType, lens: seq<nat>, x: nat, n: nat, b0: nat,
                         b: nat, f: Found)
    requires Usable(t, at, root, typ, lens) && FoundFor(typ, lens, f, Decode(lens, x, n)) && f.bits <= b <= n && b0 <= n
    requires b == b0 || (b >= 8 && Undecided(lens, x, b - 8))
    requires b0 < 8 || Decode(lens, Low(x, b0), b0) == More
    ensures b - f.bits < 8
  {
    hide Low, Built;
    var k := if b == b0 then b0 else b - 8;
    if b != b0 || b0 >= 8 {
      LowLow(x, k, k);
      Needed(lens, Low(x, k), k, x, n);
      var d := Decode(lens, x, n);
      if d.Sym? {
        EntryBits(typ, d.sym, lens[d.sym]);
      }
    }
  }

  lemma Ends(r: Reader, t: seq<Code>, at: nat, root: nat, typ: CodeType, lens: seq<nat>, ok: bool, found: Found)
    requires r.Valid() && Usable(t, at, root, typ, lens) && LookupDefined(t, at, root, r.hold)
    requires ok ==> found == Lookup(t, at, root, r.hold) && found.bits <= r.bits
    requires !ok ==> Lookup(t, at, root, r.hold).bits > r.bits && r.next == |r.input|
    ensures ok ==> FoundFor(typ, lens, found, Decode(lens, r.Stream().val, r.Stream().len))
    ensures !ok ==> Decode(lens, r.Stream().val, r.Stream().len) == More
  {
    hide Low, Shr, Usable, Built, Decode, FoundFor, Lookup, LookupDefined;
    r.Peek(r.bits);
    Decided(t, at, root, typ, lens, r.hold, r.bits, r.Stream().val, r.Stream().len);
    if !ok {
      AllHeld(r);
    }
  }
}
