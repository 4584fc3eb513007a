/** inftrees.c: two-level decoding tables for a canonical Huffman code. */
module InflateTable {
  import opened Bits
  import opened Canonical
  import opened TableNeed

  datatype CodeType = CODES | LENS | DISTS

  /** A table entry: an operation, the bits it uses up here, and a value. */
  datatype Code = Code(op: nat, bits: nat, val: nat)

  const ENOUGH_LENS := 852
  const ENOUGH_DISTS := 592

  const INVALID_OP := 64
  const END_OP := 96

  const INVALID := Code(INVALID_OP, 1, 0)

  const LBASE: seq<nat> := [3, 4, 5, 6, 7, 8, 9, 10, 11, 13, 15, 17, 19, 23, 27, 31,
                            35, 43, 51, 59, 67, 83, 99, 115, 131, 163, 195, 227, 258, 0, 0]
  const LEXT: seq<nat> := [16, 16, 16, 16, 16, 16, 16, 16, 17, 17, 17, 17, 18, 18, 18, 18,
                           19, 19, 19, 19, 20, 20, 20, 20, 21, 21, 21, 21, 16, 203, 77]
  const DBASE: seq<nat> := [1, 2, 3, 4, 5, 7, 9, 13, 17, 25, 33, 49, 65, 97, 129, 193,
                            257, 385, 513, 769, 1025, 1537, 2049, 3073, 4097, 6145,
                            8193, 12289, 16385, 24577, 0, 0]
  const DEXT: seq<nat> := [16, 16, 16, 16, 17, 17, 18, 18, 19, 19, 20, 20, 21, 21, 22, 22,
                           23, 23, 24, 24, 25, 25, 26, 26, 27, 27,
                           28, 28, 29, 29, 64, 64]

  function MaxSymbols(t: CodeType): nat {
    match t
    case CODES => 19
    case LENS => 288
    case DISTS => 32
  }

  /** The operation and value that stand for symbol s in a table of type t. */
  function Meaning(t: CodeType, s: nat): (r: (nat, nat))
    requires s < MaxSymbols(t)
    ensures r.0 == 0 || r.0 >= 16
  {
    match t
    case CODES => (0, s)
    case LENS =>
      if s < 256 then (0, s)
      else if s == 256 then (END_OP, 0)
      else (LEXT[s - 257], LBASE[s - 257])
    case DISTS => (DEXT[s], DBASE[s])
  }

  /** The table entry of symbol s that uses up `bits` bits. */
  function Entry(t: CodeType, s: nat, bits: nat): (c: Code)
    requires s < MaxSymbols(t)
    ensures c.op == 0 || c.op >= 16
  {
    Code(Meaning(t, s).0, bits, Meaning(t, s).1)
  }

  /** What inflate makes of the table at `at` for the input bits x: the operation,
      the value and the bits to drop over both levels. */
  datatype Found = Found(op: nat, val: nat, bits: nat)

  ghost predicate LookupDefined(t: seq<Code>, at: nat, root: nat, x: nat) {
    && at + Low(x, root) < |t|
    && var h := t[at + Low(x, root)];
       0 < h.op < 16 ==> h.bits == root && at + h.val + Shr(Low(x, h.bits + h.op), h.bits) < |t|
  }

  function Lookup(t: seq<Code>, at: nat, root: nat, x: nat): Found
    requires LookupDefined(t, at, root, x)
  {
    var h := t[at + Low(x, root)];
    if 0 < h.op < 16 then
      var g := t[at + h.val + Shr(Low(x, h.bits + h.op), h.bits)];
      Found(g.op, g.val, h.bits + g.bits)
    else
      Found(h.op, h.val, h.bits)
  }

  function FoundOf(c: Code): Found {
    Found(c.op, c.val, c.bits)
  }

  /** Looking up the stream x gives the one-level reading of the entry c. */
  ghost predicate Gives(t: seq<Code>, at: nat, root: nat, x: nat, c: Code) {
    LookupDefined(t, at, root, x) && Lookup(t, at, root, x) == FoundOf(c)
  }

  /** The table decodes symbol s from every stream its code starts. */
  ghost predicate Decodes(t: seq<Code>, at: nat, root: nat, typ: CodeType, lens: seq<nat>)
    requires |lens| <= MaxSymbols(typ)
  {
    forall s: nat, x: nat :: Matches(lens, s, x) ==> Gives(t, at, root, x, Entry(typ, s, lens[s]))
  }

  // ---- The backward increment of a bit-reversed code ----

  function BackInc(h: nat, l: nat): nat {
    if l == 0 then 0
    else if Bit(h, l - 1) == 0 then Low(h, l - 1) + Pow2(l - 1)
    else BackInc(h, l - 1)
  }

  lemma {:induction false} BackIncPre(h: nat, l: nat)
    ensures BackInc(h, l) < Pow2(l)
    ensures if Pre(h, l) + 1 < Pow2(l) then Pre(BackInc(h, l), l) == Pre(h, l) + 1
            else BackInc(h, l) == 0
  {
    if l != 0 {
      BackIncPre(h, l - 1);
      PreBound(h, l - 1);
      LowShr(h, l - 1);
      if Bit(h, l - 1) == 0 {
        TopBit(Low(h, l - 1), l - 1);
        PreInjective(BackInc(h, l), h, l - 1);
      } else {
        TopBit(BackInc(h, l - 1), l - 1);
      }
    }
  }

  /** Backwards increment of the len-bit code huff: the next code in canonical
      order, or zero after the last one. */
  method BackIncrement(huff: nat, len: nat) returns (h: nat)
    requires len > 0
    ensures h < Pow2(len)
    ensures Pre(huff, len) + 1 < Pow2(len) ==> Pre(h, len) == Pre(huff, len) + 1
    ensures Pre(huff, len) + 1 == Pow2(len) ==> h == 0
  {
    var i := len;
    while i != 0 && Bit(huff, i - 1) == 1
      invariant i <= len
      invariant BackInc(huff, len) == BackInc(huff, i)
    {
      i := i - 1;
    }
    if i != 0 {
      h := Low(huff, i - 1);
      h := h + Pow2(i - 1);
    } else {
      h := 0;
    }
    BackIncPre(huff, len);
  }

  // ---- Filling replicated entries ----

  /** Store `here` at every index of a table of 2^curr entries whose low w bits
      are `base`. */
  method Fill(table: array<Code>, next: nat, base: nat, w: nat, curr: nat, here: Code)
    requires w <= curr && base < Pow2(w)
    requires next + Pow2(curr) <= table.Length
    modifies table
    ensures Filled(old(table[..]), table[..], next, base, w, curr, here)
  {
    var incr := Pow2(w);
    var fill := Pow2(curr);
    ghost var m := Pow2(curr - w);
    Pow2Add(w, curr - w);
    ghost var t0, size := table[..], fill;
    while true
      invariant 0 < m && fill == incr * m && fill <= size
      invariant FilledFrom(t0, table[..], next, base, w, size, here, fill)
      decreases m
    {
      MulAdd(incr, m - 1, 1);
      ghost var t1 := table[..];
      fill := fill - incr;
      m := m - 1;
      table[next + base + fill] := here;
      FillStep(t0, t1, table[..], next, base, w, size, here, fill, m);
      if fill == 0 {
        break;
      }
    }
  }

  /** The entries from index `fill` on are stored. */
  ghost predicate FilledFrom(t1: seq<Code>, t2: seq<Code>, next: nat, base: nat, w: nat, size: nat, here: Code,
                             fill: nat) {
    && |t1| == |t2|
    && forall i :: 0 <= i < |t1| ==>
      t2[i] == if next + fill <= i < next + size && Low(i - next, w) == base then here else t1[i]
  }

  lemma FillStep(t0: seq<Code>, t1: seq<Code>, t2: seq<Code>, next: nat, base: nat, w: nat, size: nat, here: Code,
                 fill: nat, m: nat)
    requires base < Pow2(w) && fill == Pow2(w) * m
    requires next + fill + Pow2(w) <= next + size <= |t1|
    requires FilledFrom(t0, t1, next, base, w, size, here, fill + Pow2(w))
    requires t2 == t1[next + base + fill := here]
    ensures FilledFrom(t0, t2, next, base, w, size, here, fill)
  {
    forall i | 0 <= i < |t0|
      ensures t2[i] == if next + fill <= i < next + size && Low(i - next, w) == base then here else t0[i]
    {
      if next + fill <= i < next + fill + Pow2(w) {
        Unpack(i - next - fill, m, w);
      }
    }
  }

  // ---- Counting and sorting the symbols by length ----

  method CountLengths(lens: seq<nat>) returns (count: seq<nat>)
    requires Lengths(lens)
    ensures |count| == MAXBITS + 1
    ensures forall l :: 0 <= l <= MAXBITS ==> count[l] == Count(lens, l)
  {
    count := seq(MAXBITS + 1, _ => 0);
    var sym := 0;
    while sym < |lens|
      invariant 0 <= sym <= |lens| && |count| == MAXBITS + 1
      invariant forall l :: 0 <= l <= MAXBITS ==> count[l] == Count(lens[..sym], l)
    {
      assert lens[..sym + 1][..sym] == lens[..sym];
      count := count[lens[sym] := count[lens[sym]] + 1];
      sym := sym + 1;
    }
    assert lens[..sym] == lens;
  }

  lemma SlotBound(lens: seq<nat>, l: nat, r: nat)
    requires 0 < l && r < Count(lens, l)
    ensures Offset(lens, l) + r < |lens|
  {
    OffsetMono(lens, l, l + 1);
    OffsetBound(lens, l + 1);
  }

  /** The symbols below n that are in use stand where sorting by length and then by
      value puts them. */
  ghost predicate Placed(lens: seq<nat>, n: nat, work: seq<nat>)
    requires n <= |lens|
  {
    && |work| >= |lens|
    && forall s :: 0 <= s < n && lens[s] != 0 ==>
      && Offset(lens, lens[s]) + Count(lens[..s], lens[s]) < |work|
      && work[Offset(lens, lens[s]) + Count(lens[..s], lens[s])] == s
  }

  lemma SlotsDiffer(lens: seq<nat>, s: nat, t: nat)
    requires s < t < |lens| && lens[s] != 0 && lens[t] != 0
    ensures Offset(lens, lens[s]) + Count(lens[..s], lens[s]) != Offset(lens, lens[t]) + Count(lens[..t], lens[t])
  {
    CountPrefix(lens, s, lens[s]);
    CountPrefix(lens, t, lens[t]);
    if lens[s] < lens[t] {
      OffsetMono(lens, lens[s], lens[t]);
    } else if lens[t] < lens[s] {
      OffsetMono(lens, lens[t], lens[s]);
    } else {
      RankInjective(lens, s, t);
    }
  }

  lemma PlaceStep(lens: seq<nat>, n: nat, before: seq<nat>, after: seq<nat>)
    requires n < |lens| && lens[n] != 0 && Placed(lens, n, before)
    requires Offset(lens, lens[n]) + Count(lens[..n], lens[n]) < |before|
    requires after == before[Offset(lens, lens[n]) + Count(lens[..n], lens[n]) := n]
    ensures Placed(lens, n + 1, after)
  {
    forall s | 0 <= s < n && lens[s] != 0
      ensures after[Offset(lens, lens[s]) + Count(lens[..s], lens[s])] == s
    {
      SlotsDiffer(lens, s, n);
    }
  }

  method Offsets(lens: seq<nat>, count: seq<nat>) returns (offs: seq<nat>)
    requires |count| == MAXBITS + 1
    requires forall l :: 0 <= l <= MAXBITS ==> count[l] == Count(lens, l)
    ensures |offs| == MAXBITS + 1
    ensures forall l :: 0 < l <= MAXBITS ==> offs[l] == Offset(lens, l)
  {
    offs := seq(MAXBITS + 1, _ => 0);
    var len := 1;
    while len < MAXBITS
      invariant 1 <= len <= MAXBITS && |offs| == MAXBITS + 1
      invariant forall l :: 0 < l <= len ==> offs[l] == Offset(lens, l)
    {
      offs := offs[len + 1 := offs[len] + count[len]];
      len := len + 1;
    }
  }

  /** The next free place for each length, after the first n symbols. */
  ghost predicate OffsetsAt(lens: seq<nat>, n: nat, offs: seq<nat>)
    requires n <= |lens|
  {
    |offs| == MAXBITS + 1 && forall l :: 0 < l <= MAXBITS ==> offs[l] == Offset(lens, l) + Count(lens[..n], l)
  }

  lemma OffsetsFirst(lens: seq<nat>, offs: seq<nat>)
    requires |offs| == MAXBITS + 1 && forall l :: 0 < l <= MAXBITS ==> offs[l] == Offset(lens, l)
    ensures OffsetsAt(lens, 0, offs)
  {
    hide Offset;
    assert lens[..0] == [];
  }

  lemma OffsetsStep(lens: seq<nat>, n: nat, offs: seq<nat>)
    requires n < |lens| && OffsetsAt(lens, n, offs) && lens[n] <= MAXBITS
    ensures OffsetsAt(lens, n + 1, if lens[n] == 0 then offs else offs[lens[n] := offs[lens[n]] + 1])
  {
    hide Offset;
    assert lens[..n + 1][..n] == lens[..n];
  }

  lemma PlacedNone(lens: seq<nat>, work: seq<nat>)
    requires |work| >= |lens|
    ensures Placed(lens, 0, work)
  {
  }

  lemma PlaceSkip(lens: seq<nat>, n: nat, work: seq<nat>)
    requires n < |lens| && lens[n] == 0 && Placed(lens, n, work)
    ensures Placed(lens, n + 1, work)
  {
  }

  /** Sort the symbols by length, by symbol order within each length. */
  method SortSymbols(lens: seq<nat>, count: seq<nat>, work: array<nat>)
    requires Lengths(lens)
    requires |count| == MAXBITS + 1
    requires forall l :: 0 <= l <= MAXBITS ==> count[l] == Count(lens, l)
    requires work.Length >= |lens|
    modifies work
    ensures Placed(lens, |lens|, work[..])
  {
    hide Placed, Count, Offset;
    var offs := Offsets(lens, count);
    var sym := 0;
    PlacedNone(lens, work[..]);
    OffsetsFirst(lens, offs);
    while sym < |lens|
      invariant 0 <= sym <= |lens| && |offs| == MAXBITS + 1
      invariant OffsetsAt(lens, sym, offs)
      invariant Placed(lens, sym, work[..])
    {
      OffsetsStep(lens, sym, offs);
      var l0 := lens[sym];
      if l0 != 0 {
        CountPrefix(lens, sym, l0);
        SlotBound(lens, l0, Count(lens[..sym], l0));
        ghost var before := work[..];
        work[offs[l0]] := sym;
        PlaceStep(lens, sym, before, work[..]);
        offs := offs[l0 := offs[l0] + 1];
      } else {
        PlaceSkip(lens, sym, work[..]);
      }
      sym := sym + 1;
    }
  }

  // ---- What the table holds so far ----

  /** Symbol s is entered for the stream x: directly in the root table, or behind a
      link either to a sub-table that is already full or to the one being filled,
      which is at `next`, has `curr` index bits and hangs off root index `low`. */
  ghost predicate Entered(t: seq<Code>, at: nat, root: nat, typ: CodeType, lens: seq<nat>,
                          s: nat, x: nat, low: int, curr: nat, next: nat)
    requires |lens| <= MaxSymbols(typ) && s < |lens|
  {
    var i := Low(x, root);
    && at + i < |t|
    && var h := t[at + i];
       if lens[s] <= root then
         h == Entry(typ, s, lens[s])
       else
         && h.bits == root && 0 < h.op < 16 && Pow2(root) <= h.val
         && ((i == low && at + h.val == next && h.op == curr) || at + h.val + Pow2(h.op) <= next)
         && var j := at + h.val + Low(Shr(x, root), h.op);
            j < |t| && t[j] == Entry(typ, s, lens[s] - root)
  }

  /** All codes before code c of length len are entered. */
  ghost predicate Stage(t: seq<Code>, at: nat, root: nat, typ: CodeType, lens: seq<nat>,
                        len: nat, c: nat, low: int, curr: nat, next: nat)
    requires |lens| <= MaxSymbols(typ)
  {
    forall s: nat, x: nat :: Matches(lens, s, x) && Pre(x, len) < c ==>
      Entered(t, at, root, typ, lens, s, x, low, curr, next)
  }

  /** An earlier stream's symbol is no longer than the code at hand. */
  lemma EarlierIsShorter(lens: seq<nat>, s: nat, x: nat, len: nat, c: nat)
    requires len > 0 && Matches(lens, s, x) && Pre(x, len) < c <= Used(lens, len)
    ensures lens[s] <= len
  {
    if lens[s] > len {
      BelowStays(lens, x, len, lens[s]);
      CodeBounds(lens, s);
    }
  }

  /** t2 is t1 with `here` stored at the indices that Fill writes. */
  ghost predicate Filled(t1: seq<Code>, t2: seq<Code>, next: nat, base: nat, w: nat, curr: nat, here: Code) {
    FilledFrom(t1, t2, next, base, w, Pow2(curr), here, 0)
  }

  lemma FillRoot(t1: seq<Code>, t2: seq<Code>, at: nat, root: nat, typ: CodeType, lens: seq<nat>,
                 len: nat, huff: nat, s0: nat)
    requires |lens| <= MaxSymbols(typ) && s0 < |lens| && lens[s0] == len
    requires 0 < len <= root && at + Pow2(root) <= |t1|
    requires huff < Pow2(len) && Pre(huff, len) == CodeOf(lens, s0)
    requires Stage(t1, at, root, typ, lens, len, CodeOf(lens, s0), -1, root, at)
    requires Filled(t1, t2, at, huff, len, root, Entry(typ, s0, len))
    ensures Stage(t2, at, root, typ, lens, len, CodeOf(lens, s0) + 1, -1, root, at)
  {
    var c := CodeOf(lens, s0);
    CodeBounds(lens, s0);
    LowSmall(huff, len);
    forall s: nat, x: nat | Matches(lens, s, x) && Pre(x, len) < c + 1
      ensures Entered(t2, at, root, typ, lens, s, x, -1, root, at)
    {
      var i := Low(x, root);
      LowShr(x, root);
      LowLow(x, len, root);
      PreInjective(x, huff, len);
      if Pre(x, len) < c {
        EarlierIsShorter(lens, s, x, len, c);
        assert Entered(t1, at, root, typ, lens, s, x, -1, root, at);
        assert t2[at + i] == t1[at + i];
      } else {
        UniqueMatch(lens, s, s0, x);
      }
    }
  }

  lemma FillSub(t1: seq<Code>, t2: seq<Code>, at: nat, root: nat, typ: CodeType, lens: seq<nat>,
                len: nat, huff: nat, s0: nat, low: nat, curr: nat, next: nat)
    requires |lens| <= MaxSymbols(typ) && s0 < |lens| && lens[s0] == len
    requires root < len <= root + curr && 0 < curr < 16
    requires at + Pow2(root) <= next && next + Pow2(curr) <= |t1|
    requires huff < Pow2(len) && Pre(huff, len) == CodeOf(lens, s0) && low == Low(huff, root)
    requires at + low < |t1| && t1[at + low] == Code(curr, root, next - at)
    requires Stage(t1, at, root, typ, lens, len, CodeOf(lens, s0), low, curr, next)
    requires Filled(t1, t2, next, Shr(huff, root), len - root, curr,
                    Entry(typ, s0, len - root))
    ensures Stage(t2, at, root, typ, lens, len, CodeOf(lens, s0) + 1, low, curr, next)
  {
    forall s: nat, x: nat | Matches(lens, s, x) && Pre(x, len) < CodeOf(lens, s0) + 1
      ensures Entered(t2, at, root, typ, lens, s, x, low, curr, next)
    {
      FillSubOne(t1, t2, at, root, typ, lens, len, huff, s0, s, x, low, curr, next);
    }
  }

  lemma FillSubOne(t1: seq<Code>, t2: seq<Code>, at: nat, root: nat, typ: CodeType, lens: seq<nat>,
                   len: nat, huff: nat, s0: nat, s: nat, x: nat, low: nat, curr: nat, next: nat)
    requires |lens| <= MaxSymbols(typ) && s0 < |lens| && lens[s0] == len
    requires root < len <= root + curr && 0 < curr < 16
    requires at + Pow2(root) <= next && next + Pow2(curr) <= |t1|
    requires huff < Pow2(len) && Pre(huff, len) == CodeOf(lens, s0) && low == Low(huff, root)
    requires at + low < |t1| && t1[at + low] == Code(curr, root, next - at)
    requires Filled(t1, t2, next, Shr(huff, root), len - root, curr,
                    Entry(typ, s0, len - root))
    requires Matches(lens, s, x) && Pre(x, len) < CodeOf(lens, s0) + 1
    requires Pre(x, len) < CodeOf(lens, s0) ==> Entered(t1, at, root, typ, lens, s, x, low, curr, next)
    ensures Entered(t2, at, root, typ, lens, s, x, low, curr, next)
  {
    HuffParts(huff, root, len);
    PreInjective(x, huff, len);
    var here := Entry(typ, s0, len - root);
    if Pre(x, len) < CodeOf(lens, s0) {
      FillSubKeeps(t1, t2, at, root, typ, lens, len, huff, s, x, low, curr, next, here);
    } else {
      UniqueMatch(lens, s, s0, x);
      FillSubEnters(t1, t2, at, root, typ, lens, len, huff, s, x, low, curr, next, here);
    }
  }

  lemma HuffParts(huff: nat, root: nat, len: nat)
    requires root <= len && huff < Pow2(len)
    ensures Low(huff, len) == huff
    ensures Low(Shr(huff, root), len - root) == Shr(huff, root)
    ensures Shr(huff, root) < Pow2(len - root)
  {
    LowSmall(huff, len);
    ShrLow(huff, root, len - root);
    LowShr(Shr(huff, root), len - root);
  }

  lemma FillSubEnters(t1: seq<Code>, t2: seq<Code>, at: nat, root: nat, typ: CodeType, lens: seq<nat>,
                      len: nat, huff: nat, s: nat, x: nat, low: nat, curr: nat, next: nat, here: Code)
    requires |lens| <= MaxSymbols(typ) && s < |lens| && lens[s] == len
    requires root < len <= root + curr && 0 < curr < 16
    requires at + Pow2(root) <= next && next + Pow2(curr) <= |t1|
    requires low == Low(huff, root) && Low(x, len) == Low(huff, len)
    requires Low(Shr(huff, root), len - root) == Shr(huff, root)
    requires at + low < |t1| && t1[at + low] == Code(curr, root, next - at)
    requires here == Entry(typ, s, len - root)
    requires Filled(t1, t2, next, Shr(huff, root), len - root, curr, here)
    ensures Entered(t2, at, root, typ, lens, s, x, low, curr, next)
  {
    var y := Shr(x, root);
    LowJoin(x, huff, root, len - root);
    LowLow(y, len - root, curr);
    LowShr(x, root);
    LowShr(y, curr);
    assert t2[at + low] == t1[at + low];
    assert t2[next + Low(y, curr)] == here;
  }

  lemma FillSubKeeps(t1: seq<Code>, t2: seq<Code>, at: nat, root: nat, typ: CodeType, lens: seq<nat>,
                     len: nat, huff: nat, s: nat, x: nat, low: nat, curr: nat, next: nat, here: Code)
    requires |lens| <= MaxSymbols(typ) && s < |lens|
    requires root < len <= root + curr
    requires at + Pow2(root) <= next && next + Pow2(curr) <= |t1|
    requires low == Low(huff, root) && Low(x, len) != Low(huff, len)
    requires Low(Shr(huff, root), len - root) == Shr(huff, root)
    requires Entered(t1, at, root, typ, lens, s, x, low, curr, next)
    requires Filled(t1, t2, next, Shr(huff, root), len - root, curr, here)
    ensures Entered(t2, at, root, typ, lens, s, x, low, curr, next)
  {
    hide Pow2, Low, Shr;
    var i, y := Low(x, root), Shr(x, root);
    LowShr(x, root);
    assert t2[at + i] == t1[at + i];
    if lens[s] > root {
      var h := t1[at + i];
      var j := at + h.val + Low(y, h.op);
      LowShr(y, h.op);
      if i == low && at + h.val == next && h.op == curr {
        LowJoin(x, huff, root, len - root);
        LowLow(y, len - root, curr);
      }
      assert t2[j] == t1[j];
    }
  }

  /** Hanging a new sub-table off a root entry that no earlier code reaches. */
  lemma NewSub(t1: seq<Code>, t2: seq<Code>, at: nat, root: nat, typ: CodeType, lens: seq<nat>, len: nat, huff: nat,
               low1: int, curr1: nat, next1: nat, low2: nat, curr2: nat, next2: nat)
    requires |lens| <= MaxSymbols(typ)
    requires root < len && Pre(huff, len) == Shl(Pre(huff, root), len - root)
    requires Stage(t1, at, root, typ, lens, len, Pre(huff, len), low1, curr1, next1)
    requires low2 == Low(huff, root) < Pow2(root) && next2 == next1 + Pow2(curr1) && at <= next1
    requires at + low2 < |t1| && t2 == t1[at + low2 := Code(curr2, root, next2 - at)]
    ensures Stage(t2, at, root, typ, lens, len, Pre(huff, len), low2, curr2, next2)
  {
    forall s: nat, x: nat | Matches(lens, s, x) && Pre(x, len) < Pre(huff, len)
      ensures Entered(t2, at, root, typ, lens, s, x, low2, curr2, next2)
    {
      EarlierPrefix(x, huff, root, len);
      NewSubKeeps(t1, t2, at, root, typ, lens, s, x, low1, curr1, next1, low2, curr2, next2);
    }
  }

  lemma EarlierPrefix(x: nat, huff: nat, root: nat, len: nat)
    requires root <= len && Pre(huff, len) == Shl(Pre(huff, root), len - root) && Pre(x, len) < Pre(huff, len)
    ensures Low(x, root) != Low(huff, root)
  {
    PrePrefix(x, root, len);
    ShlCancel(Pre(x, root), Pre(huff, root), len - root);
    PreInjective(x, huff, root);
  }

  lemma NewSubKeeps(t1: seq<Code>, t2: seq<Code>, at: nat, root: nat, typ: CodeType, lens: seq<nat>, s: nat, x: nat,
                    low1: int, curr1: nat, next1: nat, low2: nat, curr2: nat, next2: nat)
    requires |lens| <= MaxSymbols(typ) && s < |lens|
    requires Low(x, root) != low2 < Pow2(root) && next2 == next1 + Pow2(curr1) && at <= next1
    requires at + low2 < |t1| && t2 == t1[at + low2 := Code(curr2, root, next2 - at)]
    requires Entered(t1, at, root, typ, lens, s, x, low1, curr1, next1)
    ensures Entered(t2, at, root, typ, lens, s, x, low2, curr2, next2)
  {
    hide Low, Shr, Entry;
    var i := Low(x, root);
    var h := t1[at + i];
    assert t2[at + i] == h;
    if lens[s] > root {
      var j := at + h.val + Low(Shr(x, root), h.op);
      assert t2[j] == t1[j];
    }
  }

  /** Every code with the prefix at hand fits in a sub-table of curr index bits: the
      codes of length at most root + curr use up the prefix. */
  ghost predicate Covers(lens: seq<nat>, root: nat, huff: nat, curr: nat, max: nat) {
    root + curr == max || (root + curr < max && Used(lens, root + curr) >= Shl(Pre(huff, root) + 1, curr))
  }

  lemma FitsInSub(lens: seq<nat>, root: nat, huff: nat, curr: nat, max: nat, len: nat, huff2: nat)
    requires Covers(lens, root, huff, curr, max) && root < len <= max
    requires Pre(huff2, root) == Pre(huff, root) && Pre(huff2, len) >= First(lens, len)
    ensures len <= root + curr
  {
    if len > root + curr {
      var p1, d := Pre(huff, root) + 1, len - root - curr;
      UsedGrows(lens, root + curr, len - 1);
      PrePrefix(huff2, root, len);
      ShlMono(Shl(p1, curr), Used(lens, root + curr), d);
      ShlShl(p1, curr, d);
    }
  }

  /** Index bits of the sub-table for the prefix of huff, by looking ahead in the
      counts of the codes that are still to come. */
  method SubTableBits(count: seq<nat>, root: nat, len: nat, max: nat, huff: nat, ghost lens: seq<nat>)
      returns (curr: nat)
    requires |count| == MAXBITS + 1 && root < len <= max <= MAXBITS
    requires Pre(huff, len) == Shl(Pre(huff, root), len - root)
    requires Pre(huff, len) + count[len] == Used(lens, len)
    requires forall l :: len < l <= MAXBITS ==> count[l] == Count(lens, l)
    requires count[len] <= Count(lens, len) && Used(lens, max) == Pow2(max)
    ensures len <= root + curr <= max
    ensures Covers(lens, root, huff, curr, max)
    ensures curr == Depth(lens, root, Pre(huff, root), |lens|)
  {
    AheadFirst(lens, root, len, huff, count[len]);
    hide Shl, Used, Pre, Count, Pow2, Depth, First, Covers, Ahead;
    curr := len - root;
    var left: int := Pow2(curr);
    while curr + root < max
      invariant len <= curr + root <= max
      invariant Ahead(lens, root, len, Pre(huff, root) + 1, curr, left - count[curr + root])
      decreases max - curr
    {
      left := left - count[curr + root];
      if left <= 0 {
        LookedAhead(lens, root, len, max, huff, curr, left);
        return;
      }
      AheadStep(lens, root, len, Pre(huff, root) + 1, curr, left);
      curr := curr + 1;
      left := left * 2;
    }
    LookedAhead(lens, root, len, max, huff, curr, left - count[curr + root]);
  }

  /** Of the codes below the prefix before p1 that have up to root + curr bits, `left` are
      not in use; some were left at every length before. */
  ghost predicate Ahead(lens: seq<nat>, root: nat, len: nat, p1: nat, curr: nat, left: int) {
    && root < len <= root + curr && left == Shl(p1, curr) - Used(lens, root + curr)
    && (curr + root == len || Used(lens, root + curr - 1) < Shl(p1, curr - 1))
  }

  lemma AheadFirst(lens: seq<nat>, root: nat, len: nat, huff: nat, c: nat)
    requires root < len && Pre(huff, len) == Shl(Pre(huff, root), len - root)
    requires Pre(huff, len) + c == Used(lens, len) && c <= Count(lens, len)
    ensures Ahead(lens, root, len, Pre(huff, root) + 1, len - root, Pow2(len - root) - c)
    ensures Pre(huff, len) >= First(lens, len)
  {
    assert Pow2(0) == 1 && First(lens, len) + Count(lens, len) == Used(lens, len);
    hide Shl, Used, Pre, Count, Pow2, First;
    ShlPow2(0, len - root);
    ShlAdd(Pre(huff, root), 1, len - root);
  }

  lemma AheadStep(lens: seq<nat>, root: nat, len: nat, p1: nat, curr: nat, left: int)
    requires Ahead(lens, root, len, p1, curr, left) && left > 0
    ensures Ahead(lens, root, len, p1, curr + 1, left * 2 - Count(lens, curr + 1 + root))
  {
    hide Count;
    assert Shl(p1, curr + 1) == 2 * Shl(p1, curr);
    assert Used(lens, root + (curr + 1)) == 2 * Used(lens, root + curr) + Count(lens, root + (curr + 1));
  }

  lemma LookedAhead(lens: seq<nat>, root: nat, len: nat, max: nat, huff: nat, curr: nat, left: int)
    requires root + curr <= max && Used(lens, max) == Pow2(max) && (root + curr == max || left <= 0)
    requires Ahead(lens, root, len, Pre(huff, root) + 1, curr, left)
    requires Pre(huff, len) == Shl(Pre(huff, root), len - root) >= First(lens, len)
    ensures Covers(lens, root, huff, curr, max) && curr == Depth(lens, root, Pre(huff, root), |lens|)
  {
    hide Used, Shl, Depth, Pre, First;
    var p := Pre(huff, root);
    PreBound(huff, root);
    ShlMono(p + 1, Pow2(root), curr);
    ShlPow2(root, curr);
    if curr + root == len {
      FirstDepth(lens, root, p, curr);
    } else {
      FilledDepth(lens, root, p, curr);
    }
  }

  // ---- The main loop ----

  /** The next code to enter is huff of length len, symbol number k in sorted order;
      count holds the codes still to come. */
  ghost predicate AtCode(lens: seq<nat>, count: seq<nat>, len: nat, max: nat, huff: nat, k: nat) {
    && 0 < len <= max <= MAXBITS && |count| == MAXBITS + 1
    && 0 < count[len] <= Count(lens, len) && Count(lens, max) > 0
    && (forall l :: len < l <= MAXBITS ==> count[l] == Count(lens, l))
    && huff < Pow2(len) && Pre(huff, len) + count[len] == Used(lens, len)
    && k + count[len] == Offset(lens, len) + Count(lens, len)
  }

  /** The table being filled. */
  ghost predicate Shape(t: seq<Code>, at: nat, root: nat, lens: seq<nat>, len: nat, max: nat, huff: nat,
                        low: int, curr: nat, drop: nat, next: nat, used: nat) {
    && at + used <= |t|
    && if len <= root then
         drop == 0 && curr == root && next == at && low == -1 && used == Pow2(root)
       else
         && drop == root && low == Low(huff, root) && 0 < curr < 16
         && at + Pow2(root) <= next && next + Pow2(curr) == at + used
         && at + low < |t| && t[at + low] == Code(curr, root, next - at)
         && len <= root + curr && Covers(lens, root, huff, curr, max)
  }

  /** Zero bits after the first len only scale the value. */
  lemma {:induction false} PreExtend(huff: nat, len: nat, m: nat)
    requires len <= m && huff < Pow2(len)
    ensures Pre(huff, m) == Shl(Pre(huff, len), m - len)
    decreases m
  {
    if len < m {
      PreExtend(huff, len, m - 1);
      Pow2Mono(len, m - 1);
      LowSmall(huff, m - 1);
    }
  }

  /** The symbol at k is the one whose code is huff. */
  lemma SymbolAt(lens: seq<nat>, work: seq<nat>, l: nat, r: nat)
    requires Placed(lens, |lens|, work) && 0 < l && r < Count(lens, l)
    ensures Offset(lens, l) + r < |work|
    ensures var s := work[Offset(lens, l) + r]; s == Nth(lens, l, r)
  {
    var s := Nth(lens, l, r);
    assert lens[s] == l;
  }

  lemma LengthSteps(lens: seq<nat>, len: nat, m: nat)
    requires 0 < len < m
    ensures First(lens, m) == 2 * Used(lens, m - 1) && Used(lens, m) == First(lens, m) + Count(lens, m)
    ensures Offset(lens, m + 1) == Offset(lens, m) + Count(lens, m)
    ensures Shl(Used(lens, len), m - len) == 2 * Shl(Used(lens, len), m - 1 - len)
  {
    hide Count;
  }

  /** The length after the last code of length len. */
  lemma {:induction false} NextLength(lens: seq<nat>, work: seq<nat>, len: nat, m: nat, max: nat) returns (l: nat)
    requires Placed(lens, |lens|, work) && 0 < len < m <= max && Count(lens, max) > 0
    requires Offset(lens, m) == Offset(lens, len + 1)
    requires Used(lens, m - 1) == Shl(Used(lens, len), m - 1 - len)
    ensures len < l <= max && Count(lens, l) > 0
    ensures Offset(lens, len + 1) == Offset(lens, l) < |work|
    ensures work[Offset(lens, l)] < |lens| && lens[work[Offset(lens, l)]] == l
    ensures First(lens, l) == Shl(Used(lens, len), l - len)
    decreases max - m
  {
    hide Count, Placed, Used, Offset, Shl, First;
    LengthSteps(lens, len, m);
    if Count(lens, m) > 0 {
      l := m;
      SymbolAt(lens, work, m, 0);
    } else {
      l := NextLength(lens, work, len, m + 1, max);
    }
  }

  /** Before the longest codes are entered there is room for another code. */
  lemma RoomLeft(lens: seq<nat>, len: nat, max: nat)
    requires 0 < len < max && Count(lens, max) > 0 && Used(lens, max) <= Pow2(max)
    ensures Used(lens, len) < Pow2(len)
  {
    UsedGrows(lens, len, max - 1);
    ShlMono(Pow2(len), Used(lens, len), max - 1 - len);
    ShlPow2(len, max - 1 - len);
  }

  /** A new prefix starts exactly at its first code. */
  lemma NewPrefixExact(huff: nat, huff2: nat, root: nat, len: nat, len2: nat)
    requires len <= len2 && root < len2 && huff2 < Pow2(len) && Pre(huff2, len) == Pre(huff, len) + 1
    requires len <= root || Low(huff, root) != Low(huff2, root)
    ensures Pre(huff2, len2) == Shl(Pre(huff2, root), len2 - root)
  {
    if len <= root {
      PreExtendTwice(huff2, len, root, len2);
    } else {
      PrefixBoundary(huff, huff2, root, len);
      PrefixExtend(huff2, root, len, len2);
    }
  }

  lemma PrefixExtend(huff: nat, root: nat, len: nat, len2: nat)
    requires root <= len <= len2 && huff < Pow2(len) && Pre(huff, len) == Shl(Pre(huff, root), len - root)
    ensures Pre(huff, len2) == Shl(Pre(huff, root), len2 - root)
  {
    PreExtend(huff, len, len2);
    ShlShl(Pre(huff, root), len - root, len2 - len);
  }

  lemma PreExtendTwice(huff: nat, len: nat, root: nat, len2: nat)
    requires len <= root <= len2 && huff < Pow2(len)
    ensures Pre(huff, len2) == Shl(Pre(huff, root), len2 - root)
  {
    Pow2Mono(len, root);
    PreExtend(huff, root, len2);
  }

  lemma PrefixBoundary(huff: nat, huff2: nat, root: nat, len: nat)
    requires root < len && Pre(huff2, len) == Pre(huff, len) + 1
    requires Low(huff, root) != Low(huff2, root)
    ensures Pre(huff2, len) == Shl(Pre(huff2, root), len - root)
  {
    hide Shl, Pre, Low;
    PreInjective(huff, huff2, root);
    PrePrefix(huff, root, len);
    PrePrefix(huff2, root, len);
    Boundary(Pre(huff, len), Pre(huff, root), Pre(huff2, root), len - root);
  }

  lemma Boundary(c: nat, p: nat, p2: nat, d: nat)
    requires p != p2 && Shl(p, d) <= c < Shl(p + 1, d) && Shl(p2, d) <= c + 1 < Shl(p2 + 1, d)
    ensures c + 1 == Shl(p2, d)
  {
    ShlMono(p2 + 1, p, d);
    ShlMono(p + 1, p2, d);
  }

  /** Enter the symbol with code huff: replicate its entry over the indices whose
      low bits are the code. */
  method EnterSymbol(typ: CodeType, lens: seq<nat>, table: array<Code>, at: nat, root: nat,
                     sym: nat, len: nat, huff: nat, curr: nat, drop: nat, next: nat,
                     ghost max: nat, ghost low: int, ghost used: nat)
    requires |lens| <= MaxSymbols(typ) && sym < |lens| && lens[sym] == len && 0 < len
    requires huff < Pow2(len) && Pre(huff, len) == CodeOf(lens, sym)
    requires Shape(table[..], at, root, lens, len, max, huff, low, curr, drop, next, used)
    requires Stage(table[..], at, root, typ, lens, len, Pre(huff, len), low, curr, next)
    modifies table
    ensures Shape(table[..], at, root, lens, len, max, huff, low, curr, drop, next, used)
    ensures Stage(table[..], at, root, typ, lens, len, Pre(huff, len) + 1, low, curr, next)
  {
    var here := Entry(typ, sym, len - drop);
    ghost var t1 := table[..];
    HuffParts(huff, drop, len);
    Fill(table, next, Shr(huff, drop), len - drop, curr, here);
    if len <= root {
      FillRoot(t1, table[..], at, root, typ, lens, len, huff, sym);
    } else {
      LowShr(huff, root);
      FillSub(t1, table[..], at, root, typ, lens, len, huff, sym, low, curr, next);
    }
  }

  // ---- The whole table ----

  function TableLimit(typ: CodeType, bits: nat): nat {
    match typ
    case CODES => Pow2(bits)
    case LENS => ENOUGH_LENS
    case DISTS => ENOUGH_DISTS
  }

  ghost predicate RootEntry(t: seq<Code>, at: nat, root: nat, x: nat, c: Code) {
    at + Low(x, root) < |t| && t[at + Low(x, root)] == c
  }

  /** Every symbol is entered in the root table itself. */
  ghost predicate Direct(t: seq<Code>, at: nat, root: nat, typ: CodeType, lens: seq<nat>)
    requires |lens| <= MaxSymbols(typ)
  {
    forall s: nat, x: nat :: Matches(lens, s, x) ==> RootEntry(t, at, root, x, Entry(typ, s, lens[s]))
  }

  /** All codes are entered: the table decodes. */
  lemma StageDecodes(t: seq<Code>, at: nat, root: nat, typ: CodeType, lens: seq<nat>,
                     max: nat, low: int, curr: nat, next: nat)
    requires |lens| <= MaxSymbols(typ)
    requires forall s :: 0 <= s < |lens| ==> lens[s] <= max
    requires Stage(t, at, root, typ, lens, max, Used(lens, max), low, curr, next)
    ensures Decodes(t, at, root, typ, lens)
    ensures max <= root ==> Direct(t, at, root, typ, lens)
  {
    forall s: nat, x: nat | Matches(lens, s, x)
      ensures Gives(t, at, root, x, Entry(typ, s, lens[s]))
      ensures Entered(t, at, root, typ, lens, s, x, low, curr, next)
    {
      CodeBounds(lens, s);
      if lens[s] < max {
        BelowStays(lens, x, lens[s], max);
      }
      EnteredLookup(t, at, root, typ, lens, s, x, low, curr, next);
    }
  }

  lemma EnteredLookup(t: seq<Code>, at: nat, root: nat, typ: CodeType, lens: seq<nat>,
                      s: nat, x: nat, low: int, curr: nat, next: nat)
    requires |lens| <= MaxSymbols(typ) && s < |lens|
    requires Entered(t, at, root, typ, lens, s, x, low, curr, next)
    ensures Gives(t, at, root, x, Entry(typ, s, lens[s]))
  {
    hide Low, Shr, Meaning;
    var h := t[at + Low(x, root)];
    if lens[s] > root {
      ShrLow(x, root, h.op);
    }
  }

  /** Step to the next code in canonical order. */
  method NextCode(lens: seq<nat>, count: seq<nat>, work: seq<nat>, len: nat, max: nat, huff: nat, sym: nat)
      returns (huff2: nat, len2: nat, count2: seq<nat>, done: bool)
    requires AtCode(lens, count, len, max, huff, sym) && Placed(lens, |lens|, work)
    requires Used(lens, max) <= Pow2(max)
    ensures huff2 < Pow2(len)
    ensures done <==> len == max && count[len] == 1
    ensures done ==> if Used(lens, max) < Pow2(max) then Pre(huff2, max) == Used(lens, max) else huff2 == 0
    ensures !done ==>
      && AtCode(lens, count2, len2, max, huff2, sym + 1) && len <= len2
      && Pre(huff2, len) == Pre(huff, len) + 1
      && (len < len2 || count2[len2] < count[len])
  {
    assert Offset(lens, len + 1) == Offset(lens, len) + Count(lens, len);
    hide Count, Pow2, Used, Pre, Offset, First, Placed;
    huff2 := BackIncrement(huff, len);
    count2 := count[len := count[len] - 1];
    len2 := len;
    done := false;
    NotOver(lens, len, max);
    if count2[len] == 0 {
      if len == max {
        done := true;
        return;
      }
      RoomLeft(lens, len, max);
      ghost var l := NextLength(lens, work, len, len + 1, max);
      len2 := lens[work[sym + 1]];
      FirstOfLength(lens, count2, len, l, max, huff2, sym + 1);
    }
  }

  /** After the last code of one length comes the first code of the next length. */
  lemma FirstOfLength(lens: seq<nat>, count: seq<nat>, len: nat, len2: nat, max: nat, huff: nat, k: nat)
    requires 0 < len < len2 <= max <= MAXBITS && |count| == MAXBITS + 1
    requires forall l :: len < l <= MAXBITS ==> count[l] == Count(lens, l)
    requires Count(lens, max) > 0 && Count(lens, len2) > 0
    requires huff < Pow2(len) && Pre(huff, len) == Used(lens, len)
    requires k == Offset(lens, len + 1) == Offset(lens, len2)
    requires First(lens, len2) == Shl(Used(lens, len), len2 - len)
    ensures AtCode(lens, count, len2, max, huff, k)
  {
    PreExtend(huff, len, len2);
    Pow2Mono(len, len2);
  }

  /** Start a sub-table for the prefix of huff, after the current table. */
  method NewSubTable(typ: CodeType, lens: seq<nat>, count: seq<nat>, table: array<Code>, at: nat, root: nat,
                     len: nat, max: nat, huff: nat, curr: nat, next: nat, used: nat, ghost low: int, ghost k: nat)
      returns (ret: int, curr2: nat, next2: nat, used2: nat)
    requires |lens| <= MaxSymbols(typ) && typ != CODES
    requires AtCode(lens, count, len, max, huff, k) && root < len
    requires Pre(huff, len) == Shl(Pre(huff, root), len - root)
    requires at <= next && next + Pow2(curr) == at + used && Pow2(root) <= used
    requires at + TableLimit(typ, root) <= table.Length && used <= TableLimit(typ, root)
    requires Stage(table[..], at, root, typ, lens, len, Pre(huff, len), low, curr, next)
    requires Used(lens, max) == Pow2(max)
    modifies table
    ensures ret == 0 || ret == 1
    ensures ret == 1 <==> used2 > TableLimit(typ, root)
    ensures used2 == used + SubEntries(lens, root, Pre(huff, root))
    ensures ret == 0 ==>
      && Shape(table[..], at, root, lens, len, max, huff, Low(huff, root), curr2, root, next2, used2)
      && Stage(table[..], at, root, typ, lens, len, Pre(huff, len), Low(huff, root), curr2, next2)
  {
    next2 := next + Pow2(curr);
    curr2 := SubTableBits(count, root, len, max, huff, lens);
    used2 := used + Pow2(curr2);
    if (typ == LENS && used2 > ENOUGH_LENS) || (typ == DISTS && used2 > ENOUGH_DISTS) {
      ret := 1;
      return;
    }
    ret := 0;
    ghost var t1 := table[..];
    LowShr(huff, root);
    table[at + Low(huff, root)] := Code(curr2, root, next2 - at);
    NewSub(t1, table[..], at, root, typ, lens, len, huff, low, curr, next, Low(huff, root), curr2, next2);
  }

  /** Fill the tables for a set of lengths that passed the checks. */
  method BuildTable(typ: CodeType, lens: seq<nat>, count0: seq<nat>, work: array<nat>,
                    table: array<Code>, at: nat, root: nat, min: nat, max: nat)
      returns (ret: int, used: nat, huff: nat, len: nat, drop: nat, next: nat)
    requires |lens| <= MaxSymbols(typ)
    requires |count0| == MAXBITS + 1 && forall l :: 0 <= l <= MAXBITS ==> count0[l] == Count(lens, l)
    requires work.Length >= |lens| && Placed(lens, |lens|, work[..])
    requires 0 < min <= max <= MAXBITS && min <= root <= max
    requires Count(lens, min) > 0 && Count(lens, max) > 0
    requires forall l :: 0 < l < min ==> Count(lens, l) == 0
    requires forall s :: 0 <= s < |lens| ==> lens[s] <= max
    requires Used(lens, max) <= Pow2(max)
    requires root < max ==> Used(lens, max) == Pow2(max)
    requires typ == CODES ==> root == max
    requires at + TableLimit(typ, root) <= table.Length
    modifies table
    ensures ret == 0 || ret == 1
    ensures ret == 1 <==> Need(lens, root) > TableLimit(typ, root)
    ensures ret == 0 ==> used == Need(lens, root)
    ensures ret == 0 ==>
      && Decodes(table[..], at, root, typ, lens)
      && Pow2(root) <= used && at + used <= table.Length
      && len == max && huff < Pow2(max)
      && (if Used(lens, max) < Pow2(max) then Pre(huff, max) == Used(lens, max) else huff == 0)
      && (max <= root ==> drop == 0 && next == at && Direct(table[..], at, root, typ, lens))
  {
    hide Count, Used, Pre, Low, Shl, Stage, Spent, SubTables, Placed, Decodes, Direct, Shape;
    var count := count0;
    huff := 0;
    var sym := 0;
    len := min;
    next := at;
    var curr := root;
    drop := 0;
    var low: int := -1;
    used := Pow2(root);
    ret := 0;
    if (typ == LENS && used > ENOUGH_LENS) || (typ == DISTS && used > ENOUGH_DISTS) {
      ret := 1;
      return;
    }
    Begins(typ, lens, count, table[..], at, root, min, max);
    while true
      invariant AtCode(lens, count, len, max, huff, sym) && Spent(lens, root, len, huff, used)
      invariant Pow2(root) <= used <= TableLimit(typ, root)
      invariant Shape(table[..], at, root, lens, len, max, huff, low, curr, drop, next, used)
      invariant Stage(table[..], at, root, typ, lens, len, Pre(huff, len), low, curr, next)
      decreases max - len, count[len]
    {
      CurrentSymbol(lens, work[..], count, len, max, huff, sym);
      EnterSymbol(typ, lens, table, at, root, work[sym], len, huff, curr, drop, next, max, low, used);
      var huff2, len2, count2, done := NextCode(lens, count, work[..], len, max, huff, sym);
      if done {
        StageDecodes(table[..], at, root, typ, lens, max, low, curr, next);
        SpentAll(lens, root, max, huff, used);
        huff := huff2;
        break;
      }
      AdvanceStage(table[..], at, root, typ, lens, len, len2, huff2, low, curr, next);
      ret, low, curr, drop, next, used := GoOn(typ, lens, count2, table, at, root, len, len2, max, huff, huff2, low,
                                               curr, drop, next, used, sym + 1);
      if ret != 0 {
        return;
      }
      huff, len, count, sym := huff2, len2, count2, sym + 1;
    }
  }

  /** On to the next code: within the current table, or in a new sub-table if its prefix is
      new and there is space for one. */
  method GoOn(typ: CodeType, lens: seq<nat>, count: seq<nat>, table: array<Code>, at: nat, root: nat,
              ghost len: nat, len2: nat, max: nat, ghost huff: nat, huff2: nat, low: int, curr: nat, drop: nat,
              next: nat, used: nat, ghost k: nat)
      returns (ret: int, low': int, curr': nat, drop': nat, next': nat, used': nat)
    requires |lens| <= MaxSymbols(typ) && (typ == CODES ==> root == max)
    requires at + TableLimit(typ, root) <= table.Length && Pow2(root) <= used <= TableLimit(typ, root)
    requires root < max ==> Used(lens, max) == Pow2(max)
    requires AtCode(lens, count, len2, max, huff2, k) && 0 < len <= len2 && huff < Pow2(len) && huff2 < Pow2(len)
    requires Pre(huff2, len) == Pre(huff, len) + 1 <= Used(lens, len)
    requires Shape(table[..], at, root, lens, len, max, huff, low, curr, drop, next, used)
    requires Stage(table[..], at, root, typ, lens, len2, Pre(huff2, len2), low, curr, next)
    requires Spent(lens, root, len, huff, used)
    modifies table
    ensures ret == 0 || ret == 1
    ensures ret == 1 ==> Need(lens, root) > TableLimit(typ, root)
    ensures ret == 0 ==> Spent(lens, root, len2, huff2, used') && Pow2(root) <= used' <= TableLimit(typ, root)
    ensures ret == 0 ==> Shape(table[..], at, root, lens, len2, max, huff2, low', curr', drop', next', used')
    ensures ret == 0 ==> Stage(table[..], at, root, typ, lens, len2, Pre(huff2, len2), low', curr', next')
  {
    ShapeFacts(table[..], at, root, lens, len, max, huff, low, curr, drop, next, used);
    hide Used, Pre, Low, Shl, Stage, Spent, SubTables, Shape, Pow2, Need, Count;
    ret, low', curr', drop', next', used' := 0, low, curr, drop, next, used;
    if len2 > root && Low(huff2, root) != low {
      NewPrefixExact(huff, huff2, root, len, len2);
      SpentNew(lens, root, len, len2, huff, huff2, used);
      ret, curr', next', used' := NewSubTable(typ, lens, count, table, at, root, len2, max, huff2, curr, next, used,
                                              low, k);
      if ret != 0 {
        SpentOver(lens, root, len2, huff2, used');
        return;
      }
      drop' := root;
      low' := Low(huff2, root);
    } else {
      SpentKept(lens, root, len, len2, huff, huff2, used);
      SamePrefix(table[..], at, root, lens, count, len, len2, max, huff, huff2, k, low, curr, drop, next, used);
    }
  }

  lemma ShapeFacts(t: seq<Code>, at: nat, root: nat, lens: seq<nat>, len: nat, max: nat, huff: nat,
                   low: int, curr: nat, drop: nat, next: nat, used: nat)
    requires Shape(t, at, root, lens, len, max, huff, low, curr, drop, next, used)
    ensures at <= next && next + Pow2(curr) == at + used
    ensures low == if len <= root then -1 else Low(huff, root)
  {
    hide Low, Pow2, Used, Pre;
  }

  /** What is used so far: the root table and the sub-tables of all prefixes up to the
      current one. */
  ghost predicate Spent(lens: seq<nat>, root: nat, len: nat, huff: nat, used: nat) {
    used == Pow2(root) + SubTables(lens, root, if len <= root then Pre(huff, root) else Pre(huff, root) + 1)
  }

  /** While codes fit the root table there are no sub-tables. */
  lemma SpentShort(lens: seq<nat>, root: nat, len: nat, huff: nat)
    requires 0 < len <= root && huff < Pow2(len) && Pre(huff, len) <= Used(lens, len)
    ensures Pre(huff, root) <= Used(lens, root) && SubTables(lens, root, Pre(huff, root)) == 0
  {
    hide Used, Shl, Pre, SubTables, Pow2;
    PreExtend(huff, len, root);
    UsedGrows(lens, len, root);
    ShlMono(Pre(huff, len), Used(lens, len), root - len);
    NoSubTables(lens, root, Pre(huff, root));
  }

  /** Before a new prefix, all sub-tables of earlier prefixes are there. */
  lemma SpentNew(lens: seq<nat>, root: nat, len: nat, len2: nat, huff: nat, huff2: nat, used: nat)
    requires Spent(lens, root, len, huff, used) && 0 < len && root < len2 && huff < Pow2(len) && huff2 < Pow2(len)
    requires Pre(huff2, len) == Pre(huff, len) + 1 <= Used(lens, len)
    requires len <= root || Low(huff, root) != Low(huff2, root)
    ensures Spent(lens, root, len2, huff2, used + SubEntries(lens, root, Pre(huff2, root)))
  {
    SubTablesStep(lens, root, Pre(huff2, root));
    hide Used, Shl, Pre, SubTables, Pow2, Low;
    if len <= root {
      SpentShort(lens, root, len, huff);
      SpentShort(lens, root, len, huff2);
    } else {
      PrefixNext(huff, huff2, root, len);
    }
  }

  lemma SubTablesStep(lens: seq<nat>, root: nat, p: nat)
    ensures SubTables(lens, root, p + 1) == SubTables(lens, root, p) + SubEntries(lens, root, p)
  {
  }

  lemma PrefixNext(huff: nat, huff2: nat, root: nat, len: nat)
    requires root < len && Pre(huff2, len) == Pre(huff, len) + 1 && Low(huff, root) != Low(huff2, root)
    ensures Pre(huff2, root) == Pre(huff, root) + 1
  {
    hide Shl, Pre, Low;
    PreInjective(huff, huff2, root);
    PrePrefix(huff, root, len);
    PrePrefix(huff2, root, len);
    var p, p2, d := Pre(huff, root), Pre(huff2, root), len - root;
    Boundary(Pre(huff, len), p, p2, d);
    ShlMono(p + 2, p2, d);
    ShlMono(p + 1, p + 2, d);
    ShlMono(p2, p, d);
  }

  lemma SpentKept(lens: seq<nat>, root: nat, len: nat, len2: nat, huff: nat, huff2: nat, used: nat)
    requires Spent(lens, root, len, huff, used) && 0 < len <= len2 && huff < Pow2(len) && huff2 < Pow2(len)
    requires Pre(huff, len) <= Used(lens, len) && Pre(huff2, len) <= Used(lens, len)
    requires len2 <= root || (root < len && Low(huff, root) == Low(huff2, root))
    ensures Spent(lens, root, len2, huff2, used)
  {
    hide Used, Pre, SubTables, Pow2, Low;
    if len2 <= root {
      SpentShort(lens, root, len, huff);
      SpentShort(lens, root, len, huff2);
    } else {
      PreInjective(huff, huff2, root);
    }
  }

  lemma SpentOver(lens: seq<nat>, root: nat, len: nat, huff: nat, used: nat)
    requires root < len && Spent(lens, root, len, huff, used)
    ensures used <= Need(lens, root)
  {
    hide SubTables, Pre;
    PreBound(huff, root);
    SubTablesMono(lens, root, Pre(huff, root) + 1, Pow2(root));
  }

  /** After the last code nothing is missing. */
  lemma SpentAll(lens: seq<nat>, root: nat, max: nat, huff: nat, used: nat)
    requires Spent(lens, root, max, huff, used) && 0 < max && huff < Pow2(max)
    requires forall s :: 0 <= s < |lens| ==> lens[s] <= max
    requires Pre(huff, max) + 1 == Used(lens, max) && (root < max ==> Used(lens, max) == Pow2(max))
    ensures used == Need(lens, root)
  {
    hide Used, Pre, SubTables, Pow2, Shl;
    if max <= root {
      SpentShort(lens, root, max, huff);
      ShortNeed(lens, root, Pow2(root));
    } else {
      var p, d := Pre(huff, root), max - root;
      PrePrefix(huff, root, max);
      PreBound(huff, root);
      ShlPow2(root, d);
      ShlMono(p + 1, Pow2(root), d);
    }
  }

  lemma CurrentSymbol(lens: seq<nat>, work: seq<nat>, count: seq<nat>, len: nat, max: nat, huff: nat, k: nat)
    requires AtCode(lens, count, len, max, huff, k) && Placed(lens, |lens|, work)
    ensures k < |work| && work[k] < |lens| && lens[work[k]] == len
    ensures CodeOf(lens, work[k]) == Pre(huff, len)
  {
    assert First(lens, len) + Count(lens, len) == Used(lens, len);
    hide Count, Used, Pre, Placed, Offset, First;
    SymbolAt(lens, work, len, Count(lens, len) - count[len]);
  }

  lemma AdvanceStage(t: seq<Code>, at: nat, root: nat, typ: CodeType, lens: seq<nat>,
                     len: nat, len2: nat, huff: nat, low: int, curr: nat, next: nat)
    requires |lens| <= MaxSymbols(typ) && len <= len2 && huff < Pow2(len)
    requires Stage(t, at, root, typ, lens, len, Pre(huff, len), low, curr, next)
    ensures Stage(t, at, root, typ, lens, len2, Pre(huff, len2), low, curr, next)
  {
    forall s: nat, x: nat | Matches(lens, s, x) && Pre(x, len2) < Pre(huff, len2)
      ensures Entered(t, at, root, typ, lens, s, x, low, curr, next)
    {
      LowerStays(x, huff, len, len2);
    }
  }

  lemma LowerStays(x: nat, huff: nat, len: nat, len2: nat)
    requires len <= len2 && huff < Pow2(len) && Pre(x, len2) < Pre(huff, len2)
    ensures Pre(x, len) < Pre(huff, len)
  {
    PreExtend(huff, len, len2);
    PrePrefix(x, len, len2);
    ShlCancel(Pre(x, len), Pre(huff, len), len2 - len);
  }

  /** The next code stays in the table at hand. */
  lemma SamePrefix(t: seq<Code>, at: nat, root: nat, lens: seq<nat>, count2: seq<nat>, len: nat, len2: nat, max: nat,
                   huff: nat, huff2: nat, k: nat, low: int, curr: nat, drop: nat, next: nat, used: nat)
    requires Shape(t, at, root, lens, len, max, huff, low, curr, drop, next, used)
    requires AtCode(lens, count2, len2, max, huff2, k) && len <= len2
    requires len2 <= root || Low(huff2, root) == low
    ensures Shape(t, at, root, lens, len2, max, huff2, low, curr, drop, next, used)
  {
    if len2 > root {
      PreInjective(huff, huff2, root);
      FitsInSub(lens, root, huff, curr, max, len2, huff2);
    }
  }

  lemma Begins(typ: CodeType, lens: seq<nat>, count: seq<nat>, t: seq<Code>, at: nat, root: nat, min: nat, max: nat)
    requires |lens| <= MaxSymbols(typ)
    requires |count| == MAXBITS + 1 && forall l :: 0 <= l <= MAXBITS ==> count[l] == Count(lens, l)
    requires 0 < min <= max <= MAXBITS && min <= root <= max
    requires Count(lens, min) > 0 && Count(lens, max) > 0 && forall l :: 0 < l < min ==> Count(lens, l) == 0
    requires at + Pow2(root) <= |t|
    ensures AtCode(lens, count, min, max, 0, 0) && Spent(lens, root, min, 0, Pow2(root))
    ensures Shape(t, at, root, lens, min, max, 0, -1, root, 0, at, Pow2(root))
    ensures Stage(t, at, root, typ, lens, min, Pre(0, min), -1, root, at)
  {
    StartState(lens, min);
    Pow2Mono(0, min);
    SpentShort(lens, root, min, 0);
    hide Used, SubTables, Count, Low;
  }

  lemma StartState(lens: seq<nat>, min: nat)
    requires 0 < min && forall l :: 0 < l < min ==> Count(lens, l) == 0
    ensures Used(lens, min) == Count(lens, min) && Offset(lens, min) == 0
    ensures Pre(0, min) == 0
  {
  }

  /** Lengths that inflate_table refuses: over-subscribed, or incomplete unless a
      single one-bit code is all there is in a length or distance code. */
  ghost predicate Refused(typ: CodeType, lens: seq<nat>) {
    || Used(lens, MAXBITS) > Pow2(MAXBITS)
    || (Used(lens, MAXBITS) < Pow2(MAXBITS) && (typ == CODES || exists s :: 0 <= s < |lens| && lens[s] > 1))
  }

  ghost predicate NoCodes(lens: seq<nat>) {
    forall s :: 0 <= s < |lens| ==> lens[s] == 0
  }

  /** What the tables promise once inflate_table has returned zero. */
  ghost predicate Built(t: seq<Code>, at: nat, root: nat, typ: CodeType, lens: seq<nat>)
    requires |lens| <= MaxSymbols(typ)
  {
    && Decodes(t, at, root, typ, lens)
    && (!Complete(lens) ==> forall x: nat :: (forall s: nat :: !Matches(lens, s, x)) ==>
         Gives(t, at, root, x, INVALID))
  }

  lemma {:induction false} CountZero(lens: seq<nat>, l: nat)
    ensures Count(lens, l) == 0 <==> forall s :: 0 <= s < |lens| ==> lens[s] != l
  {
    if lens != [] {
      CountZero(lens[..|lens| - 1], l);
    }
  }

  /** Whether the lengths over-subscribe, and whether they leave codes unused. */
  method CheckLengths(count: seq<nat>, ghost lens: seq<nat>) returns (over: bool, left: int)
    requires |count| == MAXBITS + 1 && forall l :: 0 <= l <= MAXBITS ==> count[l] == Count(lens, l)
    ensures over <==> Used(lens, MAXBITS) > Pow2(MAXBITS)
    ensures !over ==> left == Pow2(MAXBITS) - Used(lens, MAXBITS)
  {
    left := 1;
    over := false;
    var len := 1;
    while len <= MAXBITS
      invariant 1 <= len <= MAXBITS + 1
      invariant left == Pow2(len - 1) - Used(lens, len - 1) && left >= 0
    {
      left := left * 2;
      left := left - count[len];
      if left < 0 {
        over := true;
        if Used(lens, MAXBITS) <= Pow2(MAXBITS) {
          NotOver(lens, len, MAXBITS);
        }
        return;
      }
      len := len + 1;
    }
  }

  /** The shortest and the longest length in use; max is zero if there is none. */
  method LengthBounds(count: seq<nat>, ghost lens: seq<nat>) returns (min: nat, max: nat)
    requires Lengths(lens)
    requires |count| == MAXBITS + 1 && forall l :: 0 <= l <= MAXBITS ==> count[l] == Count(lens, l)
    ensures max <= MAXBITS && forall s :: 0 <= s < |lens| ==> lens[s] <= max
    ensures max > 0 ==> 0 < min <= max && count[min] > 0 && count[max] > 0
    ensures max > 0 ==> forall l :: 0 < l < min ==> Count(lens, l) == 0
    ensures max == Longest(lens) && (max > 0 ==> min == Shortest(lens))
  {
    max := MAXBITS;
    while max >= 1 && count[max] == 0
      invariant max <= MAXBITS
      invariant forall s :: 0 <= s < |lens| ==> lens[s] <= max
    {
      CountZero(lens, max);
      max := max - 1;
    }
    min := 1;
    while min < max && count[min] == 0
      invariant 1 <= min && (max > 0 ==> min <= max)
      invariant forall l :: 0 < l < min ==> Count(lens, l) == 0
    {
      min := min + 1;
    }
    BoundsAre(lens, min, max);
  }

  lemma BoundsAre(lens: seq<nat>, min: nat, max: nat)
    requires forall s :: 0 <= s < |lens| ==> lens[s] <= max
    requires max > 0 ==> 0 < min && Count(lens, min) > 0 && Count(lens, max) > 0
    requires max > 0 ==> forall l :: 0 < l < min ==> Count(lens, l) == 0
    ensures max == Longest(lens) && (max > 0 ==> min == Shortest(lens))
  {
    hide Count, Longest, Shortest;
    if max > 0 {
      assert lens[Nth(lens, max, 0)] == max && lens[Nth(lens, min, 0)] == min;
      CountZero(lens, Shortest(lens));
    }
  }

  lemma EmptyBuilt(t: seq<Code>, at: nat, typ: CodeType, lens: seq<nat>)
    requires |lens| <= MaxSymbols(typ) && NoCodes(lens) && at + 1 < |t|
    requires t[at] == t[at + 1] == INVALID
    ensures Built(t, at, 1, typ, lens)
  {
    forall x: nat
      ensures Gives(t, at, 1, x, INVALID)
    {
      LowShr(x, 1);
    }
  }

  lemma FullAtMax(lens: seq<nat>, max: nat)
    requires max <= MAXBITS && forall s :: 0 <= s < |lens| ==> lens[s] <= max
    ensures Complete(lens) <==> Used(lens, max) == Pow2(max)
  {
    forall l | max < l <= MAXBITS
      ensures Count(lens, l) == 0
    {
      CountZero(lens, l);
    }
    UsedBeyond(lens, max, MAXBITS);
    ShlPow2(max, MAXBITS - max);
    ShlMono(Used(lens, max), Pow2(max), MAXBITS - max);
    ShlMono(Pow2(max), Used(lens, max), MAXBITS - max);
  }

  /** The single one-bit code: its other half is marked invalid. */
  lemma OneCodeBuilt(t1: seq<Code>, t2: seq<Code>, at: nat, typ: CodeType, lens: seq<nat>, root: nat)
    requires |lens| <= MaxSymbols(typ) && root == 1 && at + 1 < |t1| && Direct(t1, at, root, typ, lens)
    requires forall s :: 0 <= s < |lens| ==> lens[s] <= 1
    requires Used(lens, 1) == 1
    requires t2 == t1[at + 1 := INVALID]
    ensures Built(t2, at, root, typ, lens)
  {
    OneCodeDecodes(t1, t2, at, typ, lens, root);
    OneCodeOther(t2, at, lens, root);
  }

  lemma OneCodeDecodes(t1: seq<Code>, t2: seq<Code>, at: nat, typ: CodeType, lens: seq<nat>, root: nat)
    requires |lens| <= MaxSymbols(typ) && root == 1 && at + 1 < |t1| && Direct(t1, at, root, typ, lens)
    requires forall s :: 0 <= s < |lens| ==> lens[s] <= 1
    requires Used(lens, 1) == 1
    requires t2 == t1[at + 1 := INVALID]
    ensures Decodes(t2, at, root, typ, lens)
  {
    forall s: nat, x: nat | Matches(lens, s, x)
      ensures Gives(t2, at, root, x, Entry(typ, s, lens[s]))
    {
      OneCodeLookup(t1, t2, at, typ, lens, root, s, x);
    }
  }

  lemma OneCodeLookup(t1: seq<Code>, t2: seq<Code>, at: nat, typ: CodeType, lens: seq<nat>, root: nat, s: nat, x: nat)
    requires |lens| <= MaxSymbols(typ) && Matches(lens, s, x) && lens[s] == 1 == root && Used(lens, 1) == 1
    requires at + 1 < |t1| && t2 == t1[at + 1 := INVALID]
    requires RootEntry(t1, at, root, x, Entry(typ, s, lens[s]))
    ensures Gives(t2, at, root, x, Entry(typ, s, lens[s]))
  {
    OneCodeIsZero(lens, s, x, root);
    var i := Low(x, root);
    DirectLookup(t2, at, root, x, i, t1[at + i]);
  }

  lemma OneCodeIsZero(lens: seq<nat>, s: nat, x: nat, root: nat)
    requires Used(lens, 1) == 1 && Matches(lens, s, x) && lens[s] == 1 == root
    ensures Low(x, root) == 0
  {
    CodeBounds(lens, s);
    OneBit(x);
  }

  lemma DirectLookup(t: seq<Code>, at: nat, root: nat, x: nat, i: nat, h: Code)
    requires i == Low(x, root) && at + i < |t| && t[at + i] == h && (h.op == 0 || h.op >= 16)
    ensures Gives(t, at, root, x, h)
  {
  }

  lemma OneCodeOther(t: seq<Code>, at: nat, lens: seq<nat>, root: nat)
    requires root == 1 && at + 1 < |t| && Used(lens, 1) == 1 && t[at + 1] == INVALID
    ensures forall x: nat :: (forall s: nat :: !Matches(lens, s, x)) ==>
      Gives(t, at, root, x, INVALID)
  {
    forall x: nat | forall s: nat :: !Matches(lens, s, x)
      ensures Gives(t, at, root, x, INVALID)
    {
      OneBit(x);
      if Pre(x, 1) < 1 {
        var s := MatchBelow(lens, x, 1);
      }
    }
  }

  lemma OneBit(x: nat)
    ensures Low(x, 1) == Pre(x, 1) < 2
  {
    assert Low(x / 2, 0) == 0 && Shr(x, 0) == x && Pre(x, 0) == 0;
  }

  /** Count, bound and check the lengths. `max` is zero when there is no code; else
      `ok` says whether the set is accepted and `root` is the index bits to use. */
  method CheckCode(typ: CodeType, lens: seq<nat>, bits: nat)
      returns (ok: bool, count: seq<nat>, min: nat, max: nat, root: nat)
    requires Lengths(lens) && |lens| <= MaxSymbols(typ) && 0 < bits
    requires typ == CODES ==> forall s :: 0 <= s < |lens| ==> lens[s] <= bits
    ensures |count| == MAXBITS + 1 && forall l :: 0 <= l <= MAXBITS ==> count[l] == Count(lens, l)
    ensures max <= MAXBITS && forall s :: 0 <= s < |lens| ==> lens[s] <= max
    ensures max == 0 <==> NoCodes(lens)
    ensures max > 0 ==> (ok <==> !Refused(typ, lens))
    ensures max > 0 ==>
      && 0 < min <= root <= max && Count(lens, min) > 0 && Count(lens, max) > 0
      && (forall l :: 0 < l < min ==> Count(lens, l) == 0)
      && (typ == CODES ==> root == max <= bits) && root == RootBits(lens, bits)
  {
    hide Count, Pow2, Used;
    ok, root := true, bits;
    count := CountLengths(lens);
    min, max := LengthBounds(count, lens);
    if root > max {
      root := max;
    }
    if max == 0 {
      return;
    }
    ghost var longest := Nth(lens, max, 0);
    assert lens[longest] == max;
    if root < min {
      root := min;
    }
    var over, left := CheckLengths(count, lens);
    ok := !over && !(left > 0 && (typ == CODES || max != 1));
  }

  /** inflate_table: build the decoding tables at `table[at..]`. Returns zero, the
      next free entry and the root bits; -1 for a refused set of lengths; or 1 when
      the table space is used up. */
  method InflateTable(typ: CodeType, lens: seq<nat>, table: array<Code>, at: nat, bits: nat, work: array<nat>)
      returns (ret: int, end: nat, root: nat)
    requires Lengths(lens) && |lens| <= MaxSymbols(typ) && work.Length >= |lens|
    requires 0 < bits && at + TableLimit(typ, bits) <= table.Length
    requires typ == CODES ==> forall s :: 0 <= s < |lens| ==> lens[s] <= bits
    modifies table, work
    ensures ret == -1 || ret == 0 || ret == 1
    ensures ret == -1 <==> !NoCodes(lens) && Refused(typ, lens)
    ensures ret == 1 <==>
      !NoCodes(lens) && !Refused(typ, lens) && Need(lens, RootBits(lens, bits)) > TableLimit(typ, bits)
    ensures ret == 1 ==> typ != CODES
    ensures ret == 0 ==> Built(table[..], at, root, typ, lens)
    ensures ret == 0 ==> root == RootBits(lens, bits) && end == at + Need(lens, root) <= table.Length
    ensures ret != 0 ==> end == at && root == bits
  {
    hide Count, Used, SubTables, Built, Placed, Longest, Shortest, Refused;
    var ok, count, min, max, r := CheckCode(typ, lens, bits);
    end, root := at, bits;
    if max == 0 {
      var here := INVALID;
      Pow2Mono(1, bits);
      table[at], table[at + 1] := here, here;
      end, root := at + 2, 1;
      ret := 0;
      ShortNeed(lens, 1, 2);
      EmptyBuilt(table[..], at, typ, lens);
      return;
    }
    if !ok {
      ret := -1;
      return;
    }
    SortSymbols(lens, count, work);
    AcceptedLengths(typ, lens, max);
    if typ == CODES {
      Pow2Mono(r, bits);
      ShortNeed(lens, r, Pow2(r));
    }
    ret, end := BuildChecked(typ, lens, count, work, table, at, r, min, max);
    if ret == 0 {
      root := r;
    }
  }

  lemma AcceptedLengths(typ: CodeType, lens: seq<nat>, max: nat)
    requires !Refused(typ, lens) && 0 < max <= MAXBITS && Count(lens, max) > 0
    ensures Used(lens, max) <= Pow2(max) && (max != 1 ==> Complete(lens))
  {
    NotOver(lens, max, MAXBITS);
    assert lens[Nth(lens, max, 0)] == max;
  }

  method BuildChecked(typ: CodeType, lens: seq<nat>, count: seq<nat>, work: array<nat>,
                      table: array<Code>, at: nat, root: nat, min: nat, max: nat)
      returns (ret: int, end: nat)
    requires |lens| <= MaxSymbols(typ)
    requires |count| == MAXBITS + 1 && forall l :: 0 <= l <= MAXBITS ==> count[l] == Count(lens, l)
    requires work.Length >= |lens| && Placed(lens, |lens|, work[..])
    requires 0 < min <= max <= MAXBITS && min <= root <= max
    requires Count(lens, min) > 0 && Count(lens, max) > 0
    requires forall l :: 0 < l < min ==> Count(lens, l) == 0
    requires forall s :: 0 <= s < |lens| ==> lens[s] <= max
    requires Used(lens, max) <= Pow2(max) && (max != 1 ==> Complete(lens))
    requires typ == CODES ==> root == max
    requires at + TableLimit(typ, root) <= table.Length
    modifies table
    ensures ret == 0 || ret == 1
    ensures ret == 1 <==> Need(lens, root) > TableLimit(typ, root)
    ensures ret == 1 ==> end == at
    ensures ret == 0 ==> Built(table[..], at, root, typ, lens)
    ensures ret == 0 ==> end == at + Need(lens, root) <= table.Length
  {
    var used, huff, len, drop, next;
    FullAtMax(lens, max);
    ret, used, huff, len, drop, next := BuildTable(typ, lens, count, work, table, at, root, min, max);
    end := at;
    if ret != 0 {
      return;
    }
    if huff != 0 {
      ghost var t1 := table[..];
      OneBit(huff);
      assert max == 1 && huff < 2;
      table[next + huff] := Code(INVALID_OP, len - drop, 0);
      assert Used(lens, 1) == Count(lens, 1);
      OneCodeBuilt(t1, table[..], at, typ, lens, root);
    }
    end := at + used;
  }
}
