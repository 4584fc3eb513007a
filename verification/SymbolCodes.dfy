/** trees.c: which length code and distance code a match gets, and how its extra bits
    and base relate to the decoder's tables (section 3.2.5 of RFC 1951). */
module SymbolCodes {
  import opened Bits
  import opened InflateTable

  const LENGTH_CODES := 29
  const D_CODES := 30

  /** Extra bits for each length code and each distance code. */
  const EXTRA_LBITS: seq<nat> := [0, 0, 0, 0, 0, 0, 0, 0, 1, 1, 1, 1, 2, 2, 2, 2, 3, 3, 3, 3, 4, 4, 4, 4, 5, 5, 5, 5, 0]

  const EXTRA_DBITS: seq<nat> := [0, 0, 0, 0, 1, 1, 2, 2, 3, 3, 4, 4, 5, 5, 6, 6, 7, 7, 8, 8, 9, 9, 10, 10, 11, 11, 12,
    12, 13, 13]

  lemma Powers13()
    ensures Pow2(0) == 1 && Pow2(1) == 2 && Pow2(2) == 4 && Pow2(3) == 8 && Pow2(4) == 16 && Pow2(5) == 32
    ensures Pow2(6) == 64 && Pow2(7) == 128 && Pow2(8) == 256 && Pow2(9) == 512 && Pow2(10) == 1024
    ensures Pow2(11) == 2048 && Pow2(12) == 4096 && Pow2(13) == 8192
  {
    assert Pow2(6) == 64;
    Pow2Add(6, 6);
  }

  /** The codes of one table follow each other without a gap. */
  lemma LengthNext(code: nat)
    requires code < 28
    ensures LEXT[code] == 16 + EXTRA_LBITS[code] && LEXT[28] == 16 && LBASE[28] == 258 && LBASE[0] == 3
    ensures LBASE[code] >= 3
    ensures LBASE[code] + Pow2(EXTRA_LBITS[code]) == if code == 27 then 259 else LBASE[code + 1]
  {
    Powers13();
    hide Pow2;
    if code < 8 {} else if code < 16 {} else if code < 24 {} else {}
  }

  lemma DistNext(code: nat)
    requires code < 30
    ensures DEXT[code] == 16 + EXTRA_DBITS[code] && DBASE[0] == 1 && DBASE[16] == 257 && DBASE[code] >= 1
    ensures DBASE[code] + Pow2(EXTRA_DBITS[code]) == if code == 29 then 32769 else DBASE[code + 1]
    ensures code >= 16 ==> EXTRA_DBITS[code] >= 7 && DBASE[code] % 128 == 1
    ensures code < 16 ==> DBASE[code] + Pow2(EXTRA_DBITS[code]) <= 257
  {
    hide Pow2;
    DistFirst();
    if code < 16 {
      DistNextLow(code);
    } else {
      DistNextHigh(code);
    }
    DistFits();
    hide DBASE, DEXT, EXTRA_DBITS;
  }

  lemma DistFirst()
    ensures DBASE[0] == 1 && DBASE[16] == 257
  {
  }

  lemma DistNextLow(code: nat)
    requires code < 16
    ensures DEXT[code] == 16 + EXTRA_DBITS[code] && DBASE[code] >= 1
    ensures DBASE[code] + Pow2(EXTRA_DBITS[code]) == DBASE[code + 1] <= 257
  {
    Powers13();
    hide Pow2;
    if code < 8 {} else {}
  }

  lemma DistNextHigh(code: nat)
    requires 16 <= code < 30
    ensures DEXT[code] == 16 + EXTRA_DBITS[code] && DBASE[code] >= 1
    ensures DBASE[code] + Pow2(EXTRA_DBITS[code]) == if code == 29 then 32769 else DBASE[code + 1]
    ensures EXTRA_DBITS[code] >= 7 && DBASE[code] % 128 == 1
  {
    Powers13();
    hide Pow2;
    if code < 24 {} else {}
  }

  /** Code c, with the base sent relative to, stands for the length k + 3. */
  ghost predicate LengthEntry(k: nat, c: nat, base: seq<nat>) {
    && c < LENGTH_CODES <= |base| && LEXT[c] == 16 + EXTRA_LBITS[c]
    && (if EXTRA_LBITS[c] == 0 then LBASE[c] == k + 3
        else base[c] <= k < base[c] + Pow2(EXTRA_LBITS[c]) && LBASE[c] == base[c] + 3)
  }

  /** Code c stands for the distance d + 1. */
  ghost predicate DistEntry(d: nat, c: nat, base: seq<nat>) {
    && c < D_CODES <= |base| && DEXT[c] == 16 + EXTRA_DBITS[c]
    && base[c] <= d < base[c] + Pow2(EXTRA_DBITS[c]) && DBASE[c] == base[c] + 1
  }

  ghost predicate LengthTable(lc: seq<nat>, base: seq<nat>) {
    |lc| == 256 && forall k :: 0 <= k < 256 ==> LengthEntry(k, lc[k], base)
  }

  ghost predicate LengthsTo(lc: seq<nat>, base: seq<nat>, n: nat) {
    n <= |lc| && forall k :: 0 <= k < n ==> LengthEntry(k, lc[k], base)
  }

  /** Where the distance d + 1 is looked up. */
  function DistIndex(d: nat): nat {
    if d < 256 then d else 256 + d / 128
  }

  function DCode(dc: seq<nat>, d: nat): nat
    requires |dc| == 512 && d < 32768
  {
    dc[DistIndex(d)]
  }

  ghost predicate DistTable(dc: seq<nat>, base: seq<nat>) {
    |dc| == 512 && forall d :: 0 <= d < 32768 ==> DistEntry(d, DCode(dc, d), base)
  }

  ghost predicate DistsTo(dc: seq<nat>, base: seq<nat>, n: nat) {
    |dc| == 512 && n <= 32768 && forall d :: 0 <= d < n ==> DistEntry(d, DCode(dc, d), base)
  }

  lemma LengthGrows(lc: seq<nat>, base: seq<nat>, n: nat, lc': seq<nat>, code: nat)
    requires n < |lc| && LengthsTo(lc, base, n) && lc' == lc[n := code]
    requires LengthEntry(n, code, base)
    ensures LengthsTo(lc', base, n + 1)
  {
  }

  /** A new base leaves the entries of other codes alone. */
  lemma LengthRebase(lc: seq<nat>, base: seq<nat>, n: nat, code: nat, b: nat)
    requires LengthsTo(lc, base, n) && code < |base| && forall k :: 0 <= k < n ==> lc[k] < code
    ensures LengthsTo(lc, base[code := b], n)
  {
    forall k | 0 <= k < n
      ensures LengthEntry(k, lc[k], base[code := b])
    {
      assert LengthEntry(k, lc[k], base);
    }
  }

  /** Fill the entries of one length code. */
  method FillLength(lengthCode: array<nat>, base: array<nat>, code: nat, length: nat) returns (next: nat)
    requires lengthCode != base && lengthCode.Length == 256 && base.Length == LENGTH_CODES && code < 28
    requires length + 3 == LBASE[code] && base[code] == length
    requires LengthsTo(lengthCode[..], base[..], length) && forall k :: 0 <= k < length ==> lengthCode[k] < code
    modifies lengthCode
    ensures next + 3 == LBASE[code] + Pow2(EXTRA_LBITS[code])
    ensures next <= 256 && LengthsTo(lengthCode[..], base[..], next)
    ensures forall k :: 0 <= k < next ==> lengthCode[k] <= code
  {
    LengthNext(code);
    NextIsHigher(code);
    var n, m := 0, Pow2(EXTRA_LBITS[code]);
    next := length;
    hide Pow2, LBASE, LEXT;
    while n < m
      invariant 0 <= n <= m && next == length + n
      invariant LengthsTo(lengthCode[..], base[..], next)
      invariant forall k :: 0 <= k < next ==> lengthCode[k] <= code
    {
      ghost var was := lengthCode[..];
      lengthCode[next] := code;
      LengthGrows(was, base[..], next, lengthCode[..], code);
      next := next + 1;
      n := n + 1;
    }
  }

  lemma NextIsHigher(code: nat)
    requires code < 28
    ensures LBASE[code] + Pow2(EXTRA_LBITS[code]) <= 259
    ensures EXTRA_LBITS[code] == 0 ==> Pow2(EXTRA_LBITS[code]) == 1
  {
    LengthNext(code);
    if code < 8 {} else if code < 16 {} else if code < 24 {} else {}
  }

  /** The mapping from normalised lengths to length codes. The last length has a code
      of its own. */
  method InitLengths() returns (lengthCode: array<nat>, base: array<nat>)
    ensures fresh(lengthCode) && fresh(base) && lengthCode != base
    ensures base.Length == LENGTH_CODES && LengthTable(lengthCode[..], base[..])
  {
    lengthCode, base := new nat[256], new nat[LENGTH_CODES](_ => 0);
    var length, code := 0, 0;
    LengthNext(0);
    while code < LENGTH_CODES - 1
      invariant 0 <= code <= 28 && length <= 256
      invariant length + 3 == if code == 28 then 259 else LBASE[code]
      invariant LengthsTo(lengthCode[..], base[..], length) && forall k :: 0 <= k < length ==> lengthCode[k] < code
    {
      LengthRebase(lengthCode[..], base[..], length, code, length);
      base[code] := length;
      LengthNext(code);
      length := FillLength(lengthCode, base, code, length);
      code := code + 1;
    }
    LengthNext(0);
    lengthCode[length - 1] := code;
  }

  /** Below n, the table holds codes of distances only, all below `code`. */
  ghost predicate DistsBelow(dc: seq<nat>, base: seq<nat>, n: nat, code: nat) {
    DistsTo(dc, base, n) && forall d :: 0 <= d < n ==> DCode(dc, d) < code
  }

  lemma DistRebase(dc: seq<nat>, base: seq<nat>, n: nat, code: nat, b: nat)
    requires DistsBelow(dc, base, n, code) && code < |base|
    ensures DistsBelow(dc, base[code := b], n, code)
  {
    forall d | 0 <= d < n
      ensures DistEntry(d, DCode(dc, d), base[code := b])
    {
      assert DistEntry(d, DCode(dc, d), base);
    }
  }

  /** Entering a code at one index: `step` distances from n on are looked up there. */
  lemma DistGrows(dc: seq<nat>, base: seq<nat>, n: nat, step: nat, code: nat, end: nat)
    requires DistsBelow(dc, base, n, code + 1) && n + step <= end <= 32768 && step > 0
    requires if n < 256 then step == 1 else n % 128 == 0 && step == 128
    requires code < D_CODES <= |base| && DistSpan(code, base[code], end) && base[code] <= n
    ensures DistsBelow(dc[DistIndex(n) := code], base, n + step, code + 1)
  {
    hide Pow2, DBASE, DEXT, EXTRA_DBITS;
    var dc' := dc[DistIndex(n) := code];
    forall d | 0 <= d < n + step
      ensures DistEntry(d, DCode(dc', d), base) && DCode(dc', d) < code + 1
    {
      if d < n {
        assert DistIndex(d) != DistIndex(n);
        assert DCode(dc', d) == DCode(dc, d);
      } else {
        assert DistIndex(d) == DistIndex(n);
      }
    }
  }

  /** Fill the m entries of one distance code: one index a distance, or one index for
      128 distances. The source runs this as two loops. */
  method FillDist(distCode: array<nat>, base: array<nat>, code: nat, start: nat, step: nat, m: nat, ghost end: nat)
    requires distCode != base && distCode.Length == 512 && base.Length == D_CODES && code < D_CODES
    requires base[code] == start
    requires DistSpan(code, start, end) && DistSteps(code, start, step, m, end)
    requires DistsBelow(distCode[..], base[..], start, code)
    modifies distCode
    ensures DistsBelow(distCode[..], base[..], end, code + 1)
  {
    hide DistSpan, DistsBelow, DistIndex;
    var n: nat, pos: nat := 0, start;
    Weaken(distCode[..], base[..], start, code);
    while n < m
      invariant 0 <= n <= m && pos == if code < 16 then start + n else start + 128 * n
      invariant DistsBelow(distCode[..], base[..], pos, code + 1)
    {
      DistAt(code, start, pos, n, m);
      DistGrows(distCode[..], base[..], pos, step, code, end);
      var at: nat := if code < 16 then start + n else 256 + (start / 128 + n);
      ghost var was := distCode[..];
      distCode[at] := code;
      assert distCode[..] == was[DistIndex(pos) := code];
      n := n + 1;
      pos := pos + step;
    }
  }

  /** The distances of a code, less one. */
  ghost predicate DistSpan(code: nat, start: nat, end: nat)
    requires code < D_CODES
  {
    DEXT[code] == 16 + EXTRA_DBITS[code] && DBASE[code] == start + 1 && end == start + Pow2(EXTRA_DBITS[code])
  }

  ghost predicate DistSteps(code: nat, start: nat, step: nat, m: nat, end: nat) {
    if code < 16 then step == 1 && start + m == end <= 256
    else step == 128 && start % 128 == 0 && start >= 256 && start + 128 * m == end <= 32768
  }

  /** How many entries a code has. */
  function Entries(code: nat): nat
    requires code < D_CODES
  {
    Pow2(if code < 16 then EXTRA_DBITS[code] else EXTRA_DBITS[code] - 7)
  }

  lemma SpanOf(code: nat, start: nat, end: nat)
    requires code < D_CODES && start + 1 == DBASE[code] && end == start + Pow2(EXTRA_DBITS[code])
    ensures DistSpan(code, start, end) && end + 1 == if code == 29 then 32769 else DBASE[code + 1]
  {
    DistNext(code);
    DistFits();
    hide Pow2, DBASE, DEXT, EXTRA_DBITS;
  }

  lemma StepsOf(code: nat, start: nat, end: nat)
    requires code < D_CODES && DistSpan(code, start, end)
    ensures DistSteps(code, start, if code < 16 then 1 else 128, Entries(code), end)
  {
    DistFits();
    hide Pow2, DBASE, DEXT, EXTRA_DBITS;
    DistNext(code);
    DistRange(code);
    var b, p := EXTRA_DBITS[code], Pow2(EXTRA_DBITS[code]);
    if code >= 16 {
      assert p == 128 * Pow2(b - 7);
    }
  }

  lemma DistFits()
    ensures |DBASE| >= 30 && |DEXT| >= 30 && |EXTRA_DBITS| == 30
  {
  }

  lemma Weaken(dc: seq<nat>, base: seq<nat>, n: nat, code: nat)
    requires DistsBelow(dc, base, n, code)
    ensures DistsBelow(dc, base, n, code + 1)
  {
  }

  lemma DistRange(code: nat)
    requires code < D_CODES
    ensures DBASE[code] + Pow2(EXTRA_DBITS[code]) <= if code < 16 then 257 else 32769
    ensures code >= 16 ==> EXTRA_DBITS[code] >= 7 && Pow2(EXTRA_DBITS[code]) == 128 * Pow2(EXTRA_DBITS[code] - 7)
    ensures code >= 16 ==> DBASE[code] >= 257
  {
    DistNext(code);
    Powers13();
    hide Pow2;
    if code < 8 {} else if code < 16 {} else if code < 24 {} else {}
  }

  lemma DistAt(code: nat, start: nat, pos: nat, n: nat, m: nat)
    requires n < m
    requires if code < 16 then pos == start + n && start + m <= 256
      else pos == start + 128 * n && start % 128 == 0 && start >= 256 && start + 128 * m <= 32768
    ensures DistIndex(pos) == if code < 16 then start + n else 256 + (start / 128 + n)
    ensures DistIndex(pos) < 512 && (if code < 16 then pos < 256 else 256 <= pos && pos % 128 == 0)
  {
  }

  /** The mapping from distances to distance codes. */
  method InitDists() returns (distCode: array<nat>, base: array<nat>)
    ensures fresh(distCode) && fresh(base) && distCode != base
    ensures base.Length == D_CODES && DistTable(distCode[..], base[..])
  {
    distCode, base := new nat[512], new nat[D_CODES](_ => 0);
    var dist, code := 0, 0;
    DistNext(0);
    while code < D_CODES
      invariant 0 <= code <= 30 && dist <= 32768
      invariant dist + 1 == if code == 30 then 32769 else DBASE[code]
      invariant DistsBelow(distCode[..], base[..], dist, code)
    {
      DistRebase(distCode[..], base[..], dist, code, dist);
      base[code] := dist;
      var end := dist + Pow2(EXTRA_DBITS[code]);
      SpanOf(code, dist, end);
      StepsOf(code, dist, end);
      FillDist(distCode, base, code, dist, if code < 16 then 1 else 128, Entries(code), end);
      dist := end;
      code := code + 1;
    }
  }
}
