/** trees.c: opt_len and static_len, the lengths in bits of a block with its own codes and with
    the fixed codes. */
module TreeSizes {
  import opened Wrappers
  import opened Sums

  /** static_tree_desc: the lengths of the fixed code, if there is one, and the extra bits that
      follow the symbols from base on. */
  datatype Desc = Desc(tree: Option<seq<nat>>, extra: seq<nat>, base: nat) {
    function Extra(n: nat): nat {
      if base <= n < base + |extra| then extra[n - base] else 0
    }

    function Extras(elems: nat): (r: seq<nat>)
      ensures |r| == elems
    {
      seq(elems, n requires 0 <= n => Extra(n))
    }

    ghost predicate For(elems: nat) {
      && elems <= base + |extra| && (tree.Some? ==> |tree.value| == elems)
      && forall n :: 0 <= n < 3 ==> Extra(n) == 0
    }
  }

  /** opt_len and static_len. */
  datatype Sizes = Sizes(opt: int, fixed: int)

  function Plus(a: seq<nat>, b: seq<nat>): (r: seq<nat>)
    requires |a| == |b|
    ensures |r| == |a|
  {
    seq(|a|, i requires 0 <= i < |a| => a[i] + b[i])
  }

  /** The bits of symbols that occur as often as freq says, each a code and extra bits. */
  function SymbolBits(desc: Desc, freq: seq<nat>, lens: seq<nat>): int
    requires |freq| == |lens|
  {
    Weighted(freq, Plus(lens, desc.Extras(|lens|)))
  }

  /** The sizes grow by the bits of the symbols, in a code with these lengths and in the fixed
      code. */
  ghost predicate Added(desc: Desc, s0: Sizes, s1: Sizes, freq: seq<nat>, lens: seq<nat>)
    requires |freq| == |lens|
  {
    && s1.opt == s0.opt + SymbolBits(desc, freq, lens)
    && match desc.tree
       case None => s1.fixed == s0.fixed
       case Some(tree) => |tree| == |freq| && s1.fixed == s0.fixed + SymbolBits(desc, freq, tree)
  }

  // ---- Forcing two symbols ----

  /** The sizes were lowered by one bit, and by one fixed code, for each forced symbol. */
  ghost predicate Lowered(desc: Desc, s0: Sizes, s1: Sizes, f0: seq<nat>, f1: seq<nat>) {
    && |f0| == |f1|
    && s1.opt + Weighted(f1, Ones(|f1|)) == s0.opt + Weighted(f0, Ones(|f0|))
    && match desc.tree
       case None => s1.fixed == s0.fixed
       case Some(tree) => |tree| == |f0| && s1.fixed + Weighted(f1, tree) == s0.fixed + Weighted(f0, tree)
  }

  lemma NotLowered(desc: Desc, s: Sizes, f: seq<nat>)
    requires desc.For(|f|)
    ensures Lowered(desc, s, s, f, f)
  {
  }

  /** One symbol is forced. */
  method Lower(desc: Desc, s: Sizes, node: nat, ghost s0: Sizes, ghost f0: seq<nat>, ghost f: seq<nat>)
      returns (s1: Sizes)
    requires Lowered(desc, s0, s, f0, f) && node < |f| && f[node] == 0 && desc.For(|f|)
    ensures Lowered(desc, s0, s1, f0, f[node := 1])
  {
    WeightUpdate(f, Ones(|f|), node, 1);
    s1 := s.(opt := s.opt - 1);
    if desc.tree.Some? {
      WeightUpdate(f, desc.tree.value, node, 1);
      s1 := s1.(fixed := s.fixed - desc.tree.value[node]);
    }
  }

  /** Only some weights changed, and there the lengths agree. */
  lemma {:induction false} ChangedSame(f0: seq<nat>, f1: seq<nat>, u: seq<nat>, v: seq<nat>)
    requires |f0| == |f1| == |u| == |v| && forall i :: 0 <= i < |f0| && f0[i] != f1[i] ==> u[i] == v[i]
    ensures Weighted(f1, u) - Weighted(f0, u) == Weighted(f1, v) - Weighted(f0, v)
  {
    if f0 != [] {
      var m := |f0| - 1;
      ChangedSame(f0[..m], f1[..m], u[..m], v[..m]);
      WeightedLast(f0, u);
      WeightedLast(f1, u);
      WeightedLast(f0, v);
      WeightedLast(f1, v);
    }
  }

  /** Forced symbols, of length one and without extra bits, cost nothing in the end. */
  lemma ForcedFree(desc: Desc, s0: Sizes, s1: Sizes, s2: Sizes, f0: seq<nat>, f1: seq<nat>, lens: seq<nat>)
    requires Lowered(desc, s0, s1, f0, f1) && |lens| == |f1| && Added(desc, s1, s2, f1, lens)
    requires forall i :: 0 <= i < |f0| && f0[i] != f1[i] ==> lens[i] == 1 && desc.Extra(i) == 0
    ensures Added(desc, s0, s2, f0, lens)
  {
    var xs := desc.Extras(|lens|);
    ChangedSame(f0, f1, Ones(|f1|), Plus(lens, xs));
    match desc.tree
    case None =>
    case Some(tree) => ChangedSame(f0, f1, tree, Plus(tree, xs));
  }

  // ---- Adding up, symbol by symbol ----

  /** v where there is a length, nothing elsewhere. */
  function Masked(lens: seq<nat>, v: seq<nat>): (r: seq<nat>)
    requires |lens| == |v|
    ensures |r| == |v|
  {
    seq(|v|, i requires 0 <= i < |v| => if lens[i] == 0 then 0 else v[i])
  }

  /** The sizes have grown by the symbols that have a length so far. */
  ghost predicate SoFar(desc: Desc, s0: Sizes, s1: Sizes, freq: seq<nat>, lens: seq<nat>) {
    && |freq| == |lens|
    && var xs := desc.Extras(|lens|);
    && s1.opt == s0.opt + Weighted(freq, Masked(lens, Plus(lens, xs)))
    && match desc.tree
       case None => s1.fixed == s0.fixed
       case Some(tree) =>
         |tree| == |freq| && s1.fixed == s0.fixed + Weighted(freq, Masked(lens, Plus(tree, xs)))
  }

  lemma NoneSoFar(desc: Desc, s: Sizes, freq: seq<nat>, lens: seq<nat>)
    requires |freq| == |lens| && desc.For(|lens|) && forall i :: 0 <= i < |lens| ==> lens[i] == 0
    ensures SoFar(desc, s, s, freq, lens)
  {
    var xs := desc.Extras(|lens|);
    WeightedNone(freq, Masked(lens, Plus(lens, xs)));
    match desc.tree
    case None =>
    case Some(tree) => WeightedNone(freq, Masked(lens, Plus(tree, xs)));
  }

  lemma AllSoFar(desc: Desc, s0: Sizes, s1: Sizes, freq: seq<nat>, lens: seq<nat>)
    requires SoFar(desc, s0, s1, freq, lens) && forall i :: 0 <= i < |lens| && lens[i] == 0 ==> freq[i] == 0
    ensures Added(desc, s0, s1, freq, lens)
  {
    var xs := desc.Extras(|lens|);
    WeightedSame(freq, Masked(lens, Plus(lens, xs)), Plus(lens, xs));
    match desc.tree
    case None =>
    case Some(tree) => WeightedSame(freq, Masked(lens, Plus(tree, xs)), Plus(tree, xs));
  }

  /** gen_bitlen: one more symbol n, of f occurrences, has a length. */
  method AddSymbol(desc: Desc, s: Sizes, f: nat, n: nat, bits: nat,
                   ghost s0: Sizes, ghost freq: seq<nat>, ghost lens: seq<nat>)
      returns (s1: Sizes)
    requires SoFar(desc, s0, s, freq, lens) && n < |lens| && lens[n] == 0 && f == freq[n] && bits > 0
    requires desc.For(|lens|)
    ensures SoFar(desc, s0, s1, freq, lens[n := bits])
  {
    var xbits := 0;
    if n >= desc.base {
      xbits := desc.extra[n - desc.base];
    }
    s1 := s.(opt := s.opt + f * (bits + xbits));
    ghost var xs, lens2 := desc.Extras(|lens|), lens[n := bits];
    MaskedNext(freq, lens, Plus(lens, xs), n, bits, Plus(lens2, xs));
    if desc.tree.Some? {
      s1 := s1.(fixed := s.fixed + f * (desc.tree.value[n] + xbits));
      MaskedNext(freq, lens, Plus(desc.tree.value, xs), n, bits, Plus(desc.tree.value, xs));
    }
  }

  lemma MaskedNext(freq: seq<nat>, lens: seq<nat>, v: seq<nat>, n: nat, bits: nat, v2: seq<nat>)
    requires |freq| == |lens| == |v| == |v2| && n < |lens| && lens[n] == 0 && bits > 0
    requires v2 == v[n := v2[n]]
    ensures Weighted(freq, Masked(lens[n := bits], v2)) == Weighted(freq, Masked(lens, v)) + freq[n] * v2[n]
  {
    assert Masked(lens[n := bits], v2) == Masked(lens, v)[n := v2[n]];
    WeightedUpdate(freq, Masked(lens, v), n, v2[n]);
  }

  /** Symbol m gets another length. */
  lemma Relengthened(desc: Desc, s0: Sizes, s: Sizes, freq: seq<nat>, lens: seq<nat>, m: nat, bits: nat)
    requires |freq| == |lens| && Added(desc, s0, s, freq, lens) && m < |lens|
    ensures Added(desc, s0, s.(opt := s.opt + (bits - lens[m]) * freq[m]), freq, lens[m := bits])
  {
    var xs := desc.Extras(|lens|);
    var v := Plus(lens, xs);
    assert Plus(lens[m := bits], xs) == v[m := bits + xs[m]];
    WeightedUpdate(freq, v, m, bits + xs[m]);
  }
}
