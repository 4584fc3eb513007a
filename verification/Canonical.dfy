/** Canonical Huffman codes given by their lengths: section 3.2.2 of RFC 1951. */
module Canonical {
  import opened Bits

  const MAXBITS := 15

  ghost predicate Lengths(lens: seq<nat>) {
    forall i :: 0 <= i < |lens| ==> lens[i] <= MAXBITS
  }

  /** One length, several times. */
  function Copies(len: nat, count: nat): (r: seq<nat>)
    ensures |r| == count
  {
    seq(count, i => len)
  }

  /** How many symbols have length l. */
  function Count(lens: seq<nat>, l: nat): (n: nat)
    ensures n <= |lens|
  {
    if lens == [] then 0
    else Count(lens[..|lens| - 1], l) + if lens[|lens| - 1] == l then 1 else 0
  }

  lemma {:induction false} CountPrefix(lens: seq<nat>, n: nat, l: nat)
    requires n <= |lens|
    ensures Count(lens[..n], l) <= Count(lens, l)
    ensures n < |lens| && lens[n] == l ==> Count(lens[..n], l) < Count(lens, l)
    decreases |lens|
  {
    if n < |lens| {
      var m := |lens| - 1;
      assert lens[..m][..n] == lens[..n];
      CountPrefix(lens[..m], n, l);
    } else {
      assert lens[..n] == lens;
    }
  }

  /** How many nodes of depth l the codes of length at most l take up: the Kraft
      sum of those codes in units of 2^-l. */
  function Used(lens: seq<nat>, l: nat): nat {
    if l == 0 then 0 else 2 * Used(lens, l - 1) + Count(lens, l)
  }

  /** The smallest code of length l. */
  function First(lens: seq<nat>, l: nat): nat
    requires l > 0
  {
    2 * Used(lens, l - 1)
  }

  /** The code of symbol s: consecutive values within one length, in symbol order. */
  function CodeOf(lens: seq<nat>, s: nat): nat
    requires s < |lens| && lens[s] > 0
  {
    First(lens, lens[s]) + Count(lens[..s], lens[s])
  }

  /** Symbol s is in use and its code starts the stream x. */
  ghost predicate Matches(lens: seq<nat>, s: nat, x: nat) {
    s < |lens| && lens[s] > 0 && Pre(x, lens[s]) == CodeOf(lens, s)
  }

  ghost predicate Complete(lens: seq<nat>) {
    Used(lens, MAXBITS) == Pow2(MAXBITS)
  }

  /** Nothing that short is in use. */
  lemma {:induction false} NoneUsed(lens: seq<nat>, l: nat)
    requires forall k :: 0 < k <= l ==> Count(lens, k) == 0
    ensures Used(lens, l) == 0
  {
    if l != 0 {
      NoneUsed(lens, l - 1);
    }
  }

  lemma {:induction false} UsedGrows(lens: seq<nat>, l: nat, m: nat)
    requires l <= m
    ensures Used(lens, m) >= Shl(Used(lens, l), m - l)
    decreases m - l
  {
    if l < m {
      UsedGrows(lens, l, m - 1);
    }
  }

  /** Once below the codes in use at some depth, a stream stays strictly below the
      smallest code of every greater length. */
  lemma {:induction false} BelowStays(lens: seq<nat>, x: nat, l: nat, m: nat)
    requires l < m
    requires Pre(x, l) < Used(lens, l)
    ensures Pre(x, m) < First(lens, m)
    decreases m
  {
    if l < m - 1 {
      BelowStays(lens, x, l, m - 1);
    }
  }

  lemma CodeBounds(lens: seq<nat>, s: nat)
    requires s < |lens| && lens[s] > 0
    ensures First(lens, lens[s]) <= CodeOf(lens, s) < Used(lens, lens[s])
  {
    CountPrefix(lens, s, lens[s]);
  }

  lemma RankInjective(lens: seq<nat>, s: nat, t: nat)
    requires s < t < |lens| && lens[s] == lens[t]
    ensures Count(lens[..s], lens[s]) < Count(lens[..t], lens[t])
  {
    assert lens[..t][..s] == lens[..s];
    CountPrefix(lens[..t], s, lens[s]);
  }

  /** The code is prefix free: at most one symbol's code starts a stream. */
  lemma UniqueMatch(lens: seq<nat>, s: nat, t: nat, x: nat)
    requires Matches(lens, s, x) && Matches(lens, t, x)
    ensures s == t
  {
    CodeBounds(lens, s);
    CodeBounds(lens, t);
    if lens[s] < lens[t] {
      BelowStays(lens, x, lens[s], lens[t]);
    } else if lens[t] < lens[s] {
      BelowStays(lens, x, lens[t], lens[s]);
    } else if s < t {
      RankInjective(lens, s, t);
    } else if t < s {
      RankInjective(lens, t, s);
    }
  }

  /** The symbol of length l that has r symbols of that length before it. */
  function Nth(lens: seq<nat>, l: nat, r: nat): (s: nat)
    requires r < Count(lens, l)
    ensures s < |lens| && lens[s] == l && Count(lens[..s], l) == r
  {
    var m := |lens| - 1;
    if r < Count(lens[..m], l) then
      var s := Nth(lens[..m], l, r);
      assert lens[..m][..s] == lens[..s];
      s
    else
      m
  }

  /** The shortest depth at which the stream falls below the codes in use. */
  lemma {:induction false} FindDepth(lens: seq<nat>, x: nat, m: nat) returns (l: nat)
    requires Pre(x, m) < Used(lens, m)
    ensures 0 < l <= m
    ensures First(lens, l) <= Pre(x, l) < Used(lens, l)
  {
    if m == 1 || Pre(x, m - 1) >= Used(lens, m - 1) {
      l := m;
    } else {
      l := FindDepth(lens, x, m - 1);
    }
  }

  /** Every stream that falls below the codes in use starts with a code. */
  lemma MatchBelow(lens: seq<nat>, x: nat, m: nat) returns (s: nat)
    requires Pre(x, m) < Used(lens, m)
    ensures Matches(lens, s, x) && lens[s] <= m
  {
    var l := FindDepth(lens, x, m);
    s := Nth(lens, l, Pre(x, l) - First(lens, l));
  }

  /** A complete code decodes every stream: some symbol's code starts it. */
  lemma CompleteMatch(lens: seq<nat>, x: nat) returns (s: nat)
    requires Complete(lens)
    ensures Matches(lens, s, x)
    ensures forall t :: Matches(lens, t, x) ==> t == s
  {
    PreBound(x, MAXBITS);
    s := MatchBelow(lens, x, MAXBITS);
    forall t | Matches(lens, t, x)
      ensures t == s
    {
      UniqueMatch(lens, s, t, x);
    }
  }

  /** No code is oversubscribed at any depth once it is not at the deepest. */
  lemma NotOver(lens: seq<nat>, l: nat, m: nat)
    requires l <= m && Used(lens, m) <= Pow2(m)
    ensures Used(lens, l) <= Pow2(l)
  {
    UsedGrows(lens, l, m);
    ShlPow2(l, m - l);
    ShlMono(Pow2(l), Used(lens, l), m - l);
  }

  /** Depths beyond the longest code only scale the sum. */
  lemma {:induction false} UsedBeyond(lens: seq<nat>, l: nat, m: nat)
    requires l <= m
    requires forall k :: l < k <= m ==> Count(lens, k) == 0
    ensures Used(lens, m) == Shl(Used(lens, l), m - l)
    decreases m - l
  {
    if l < m {
      UsedBeyond(lens, l, m - 1);
    }
  }

  /** A stream's first b bits extend its first a bits. */
  lemma {:induction false} PrePrefix(x: nat, a: nat, b: nat)
    requires a <= b
    ensures Shl(Pre(x, a), b - a) <= Pre(x, b) < Shl(Pre(x, a) + 1, b - a)
    decreases b - a
  {
    if a < b {
      PrePrefix(x, a, b - 1);
    }
  }

  /** Where the symbols of length l start when symbols are sorted by length: how many
      symbols in use are shorter. */
  function Offset(lens: seq<nat>, l: nat): nat {
    if l <= 1 then 0 else Offset(lens, l - 1) + Count(lens, l - 1)
  }

  lemma {:induction false} OffsetMono(lens: seq<nat>, l: nat, m: nat)
    requires 0 < l < m
    ensures Offset(lens, l) + Count(lens, l) <= Offset(lens, m)
    decreases m - l
  {
    if l < m - 1 {
      OffsetMono(lens, l, m - 1);
    }
  }

  lemma {:induction false} OffsetPrefix(lens: seq<nat>, l: nat)
    requires lens != []
    ensures var m := |lens| - 1;
      Offset(lens, l) == Offset(lens[..m], l) + if 0 < lens[m] < l then 1 else 0
  {
    if l > 1 {
      OffsetPrefix(lens, l - 1);
    }
  }

  lemma {:induction false} OffsetBound(lens: seq<nat>, l: nat)
    ensures Offset(lens, l) <= |lens|
  {
    if lens != [] {
      OffsetPrefix(lens, l);
      OffsetBound(lens[..|lens| - 1], l);
    } else if l > 1 {
      OffsetBound(lens, l - 1);
    }
  }

  /** fc[s] holds the code of s, first bit lowest. */
  ghost predicate Coded(fc: seq<nat>, lens: seq<nat>, s: nat) {
    && s < |fc| && s < |lens| && 0 < lens[s] <= MAXBITS
    && fc[s] < Pow2(lens[s]) && Pre(fc[s], lens[s]) == CodeOf(lens, s)
  }
}
