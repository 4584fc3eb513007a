/** How many entries the two levels of a decoding table take up, told from the code alone. */
module TableNeed {
  import opened Bits
  import opened Canonical

  /** The code of symbol s is longer than root bits and starts with the root bits p. */
  predicate Under(lens: seq<nat>, root: nat, p: nat, s: nat) {
    && s < |lens| && lens[s] > root
    && Shl(p, lens[s] - root) <= CodeOf(lens, s) < Shl(p + 1, lens[s] - root)
  }

  /** By how many bits the longest code of the first n symbols that starts with p exceeds
      root. */
  function Depth(lens: seq<nat>, root: nat, p: nat, n: nat): nat
    requires n <= |lens|
  {
    if n == 0 then 0
    else
      var d := Depth(lens, root, p, n - 1);
      if Under(lens, root, p, n - 1) && lens[n - 1] - root > d then lens[n - 1] - root else d
  }

  /** The sub-table of a prefix is indexed by all bits of its longest code. */
  function SubEntries(lens: seq<nat>, root: nat, p: nat): nat {
    var d := Depth(lens, root, p, |lens|);
    if d == 0 then 0 else Pow2(d)
  }

  function SubTables(lens: seq<nat>, root: nat, n: nat): nat {
    if n == 0 then 0 else SubTables(lens, root, n - 1) + SubEntries(lens, root, n - 1)
  }

  /** The root table and a sub-table for every prefix that longer codes start with. */
  function Need(lens: seq<nat>, root: nat): nat {
    Pow2(root) + SubTables(lens, root, Pow2(root))
  }

  // ---- The index bits of the root table ----

  function Longest(lens: seq<nat>): (l: nat)
    ensures forall s :: 0 <= s < |lens| ==> lens[s] <= l
    ensures l > 0 ==> l in lens
  {
    if lens == [] then 0
    else
      var m, l := |lens| - 1, Longest(lens[..|lens| - 1]);
      assert forall s :: 0 <= s < m ==> lens[s] == lens[..m][s];
      if lens[m] > l then lens[m] else l
  }

  /** The least length in use; zero if there is none. */
  function Shortest(lens: seq<nat>): (l: nat)
    ensures forall s :: 0 <= s < |lens| && lens[s] > 0 ==> 0 < l <= lens[s]
    ensures l > 0 ==> l in lens
  {
    if lens == [] then 0
    else
      var m, l := |lens| - 1, Shortest(lens[..|lens| - 1]);
      assert forall s :: 0 <= s < m ==> lens[s] == lens[..m][s];
      if lens[m] > 0 && (l == 0 || lens[m] < l) then lens[m] else l
  }

  /** The bits asked for, forced to be within the code lengths. */
  function RootBits(lens: seq<nat>, bits: nat): nat {
    if Longest(lens) == 0 then 1
    else if Longest(lens) < bits then Longest(lens)
    else if bits < Shortest(lens) then Shortest(lens)
    else bits
  }

  // ---- The depth below a prefix ----

  lemma {:induction false} DepthAtLeast(lens: seq<nat>, root: nat, p: nat, n: nat, s: nat)
    requires s < n <= |lens| && Under(lens, root, p, s)
    ensures Depth(lens, root, p, n) >= lens[s] - root
  {
    if s < n - 1 {
      DepthAtLeast(lens, root, p, n - 1, s);
    }
  }

  lemma {:induction false} DepthTaken(lens: seq<nat>, root: nat, p: nat, n: nat)
    requires n <= |lens|
    ensures var d := Depth(lens, root, p, n);
      d == 0 || exists s: nat :: s < n && Under(lens, root, p, s) && lens[s] == root + d
  {
    if n > 0 {
      DepthTaken(lens, root, p, n - 1);
      hide Under;
    }
  }

  lemma DepthIs(lens: seq<nat>, root: nat, p: nat, s: nat)
    requires Under(lens, root, p, s) && forall t: nat :: Under(lens, root, p, t) ==> lens[t] <= lens[s]
    ensures Depth(lens, root, p, |lens|) == lens[s] - root
  {
    DepthAtLeast(lens, root, p, |lens|, s);
    DepthTaken(lens, root, p, |lens|);
    hide Depth;
  }

  /** No code is under a prefix that shorter codes use up. */
  lemma UnderBound(lens: seq<nat>, root: nat, p: nat, l: nat, s: nat)
    requires Under(lens, root, p, s) && root <= l && Used(lens, l) >= Shl(p + 1, l - root)
    ensures lens[s] <= l
  {
    if lens[s] > l {
      hide Used, Shl;
      var d := lens[s] - l;
      CodeBounds(lens, s);
      UsedGrows(lens, l, lens[s] - 1);
      FirstGrows(lens, l, lens[s]);
      ShlMono(Shl(p + 1, l - root), Used(lens, l), d);
      ShlShl(p + 1, l - root, d);
    }
  }

  lemma FirstGrows(lens: seq<nat>, l: nat, m: nat)
    requires l < m && Used(lens, m - 1) >= Shl(Used(lens, l), m - 1 - l)
    ensures First(lens, m) >= Shl(Used(lens, l), m - l)
  {
  }

  lemma NoneUnder(lens: seq<nat>, root: nat, p: nat)
    requires p < Used(lens, root)
    ensures SubEntries(lens, root, p) == 0
  {
    hide Used;
    DepthTaken(lens, root, p, |lens|);
    forall s: nat | Under(lens, root, p, s)
      ensures false
    {
      UnderBound(lens, root, p, root, s);
    }
    hide Under;
  }

  lemma {:induction false} NoSubTables(lens: seq<nat>, root: nat, n: nat)
    requires n <= Used(lens, root)
    ensures SubTables(lens, root, n) == 0
  {
    hide Used;
    if n > 0 {
      NoSubTables(lens, root, n - 1);
      NoneUnder(lens, root, n - 1);
    }
  }

  lemma {:induction false} SubTablesMono(lens: seq<nat>, root: nat, m: nat, n: nat)
    requires m <= n
    ensures SubTables(lens, root, m) <= SubTables(lens, root, n)
    decreases n - m
  {
    if m < n {
      SubTablesMono(lens, root, m, n - 1);
    }
  }

  /** No code is longer than the root. */
  lemma {:induction false} ShortNeed(lens: seq<nat>, root: nat, n: nat)
    requires forall s :: 0 <= s < |lens| ==> lens[s] <= root
    ensures SubTables(lens, root, n) == 0
  {
    if n > 0 {
      ShortNeed(lens, root, n - 1);
      DepthTaken(lens, root, n - 1, |lens|);
    }
  }

  /** The symbol of a code value. */
  lemma SymbolOf(lens: seq<nat>, l: nat, c: nat) returns (s: nat)
    requires 0 < l && First(lens, l) <= c < Used(lens, l)
    ensures s < |lens| && lens[s] == l && CodeOf(lens, s) == c
  {
    s := Nth(lens, l, c - First(lens, l));
  }

  /** The codes of length l or less use up p, those that are shorter do not: then the
      longest code under p has length l. */
  lemma FilledDepth(lens: seq<nat>, root: nat, p: nat, d: nat)
    requires d > 0 && Used(lens, root + d) >= Shl(p + 1, d) && Used(lens, root + d - 1) < Shl(p + 1, d - 1)
    ensures Depth(lens, root, p, |lens|) == d
  {
    var l, c := root + d, Shl(p + 1, d) - 1;
    ShlMono(p, p + 1, d);
    Pow2Mono(0, d);
    var s := SymbolOf(lens, l, c);
    assert Under(lens, root, p, s);
    hide Used, Shl, Depth;
    forall t: nat | Under(lens, root, p, t)
      ensures lens[t] <= l
    {
      UnderBound(lens, root, p, l, t);
    }
    hide Under;
    DepthIs(lens, root, p, s);
  }

  /** As the first code under p has length l, and the codes of that length use up p. */
  lemma FirstDepth(lens: seq<nat>, root: nat, p: nat, d: nat)
    requires d > 0 && Used(lens, root + d) >= Shl(p + 1, d) && First(lens, root + d) <= Shl(p, d)
    ensures Depth(lens, root, p, |lens|) == d
  {
    var l, c := root + d, Shl(p, d);
    ShlMono(p, p + 1, d);
    Pow2Mono(0, d);
    var s := SymbolOf(lens, l, c);
    assert Under(lens, root, p, s);
    hide Used, Shl, Depth, First;
    forall t: nat | Under(lens, root, p, t)
      ensures lens[t] <= l
    {
      UnderBound(lens, root, p, l, t);
    }
    hide Under;
    DepthIs(lens, root, p, s);
  }
}
