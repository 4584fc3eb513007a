/** trees.c: tallying symbols and flushing a block. */
module TreeState {
  import opened Bits
  import opened Canonical
  import opened CodeLengths
  import opened SymbolCodes
  import opened HeaderDecode
  import opened BlockDecode
  import opened BlockWriter
  import opened TreeSizes
  import TreeCodes
  import TreeHeap

  const L_CODES := 286
  const END_BLOCK := 256

  // ---- Leaving out the unused codes at the end ----

  ghost predicate UnusedFrom(lens: seq<nat>, m: nat) {
    m <= |lens| && forall s :: m <= s < |lens| ==> lens[s] == 0
  }

  lemma {:induction false} CutCount(lens: seq<nat>, m: nat, l: nat)
    requires UnusedFrom(lens, m) && l > 0
    ensures Count(lens[..m], l) == Count(lens, l)
  {
    if m < |lens| {
      var k := |lens| - 1;
      assert lens[..k][..m] == lens[..m];
      CutCount(lens[..k], m, l);
    } else {
      assert lens[..m] == lens;
    }
  }

  lemma {:induction false} CutUsed(lens: seq<nat>, m: nat, l: nat)
    requires UnusedFrom(lens, m)
    ensures Used(lens[..m], l) == Used(lens, l)
  {
    if l > 0 {
      CutUsed(lens, m, l - 1);
      CutCount(lens, m, l);
    }
  }

  /** A code without its unused last symbols is the same code. */
  lemma CutCoded(fc: seq<nat>, lens: seq<nat>, m: nat, s: nat)
    requires UnusedFrom(lens, m) && s < m && Coded(fc, lens, s)
    ensures Coded(fc, lens[..m], s)
  {
    CutUsed(lens, m, lens[s] - 1);
    assert lens[..m][..s] == lens[..s];
    hide Used, Count, Pow2, Pre;
  }

  // ---- The code length code ----

  lemma {:induction false} PlainNeeded(lens: seq<nat>, ts: seq<Token>)
    requires Legal(lens, ts) && forall i :: 0 <= i < |lens| ==> lens[i] == 0
    requires forall i :: 0 <= i < |ts| ==> ts[i].sym >= REP_3_6
    ensures forall i :: 0 <= i < |ApplyAll(lens, ts)| ==> ApplyAll(lens, ts)[i] == 0
    decreases |ts|
  {
    if ts != [] {
      var next := Apply(lens, ts[0]);
      assert forall i :: 0 <= i < |next| ==> next[i] == 0;
      PlainNeeded(next, ts[1..]);
    }
  }

  /** Lengths that are not all zero need at least one symbol below 16. */
  lemma SomePlain(lens: seq<nat>, k: nat) returns (i: nat)
    requires k < |lens| && lens[k] != 0 && forall j :: 0 <= j < |lens| ==> lens[j] < REP_3_6
    ensures i < |TreeTokens(lens)| && TreeTokens(lens)[i].sym < REP_3_6
  {
    var ts := TreeTokens(lens);
    TreeTokensMean(lens, []);
    assert [] + lens == lens;
    if forall j :: 0 <= j < |ts| ==> ts[j].sym >= REP_3_6 {
      PlainNeeded([], ts);
      assert false;
    }
    i :| 0 <= i < |ts| && ts[i].sym < REP_3_6;
  }

  /** build_bl_tree: how many lengths of the code length code to send. */
  method CountCodes(blens: seq<nat>, ghost plain: nat) returns (ncode: nat)
    requires |blens| == BL_CODES && plain < REP_3_6 && blens[plain] > 0
    ensures 4 <= ncode <= BL_CODES
    ensures forall i :: 0 <= i < BL_CODES && PLACE[i] >= ncode ==> blens[i] == 0
  {
    var max := BL_CODES - 1;
    while max >= 3 && blens[BL_ORDER[max]] == 0
      invariant 2 <= max < BL_CODES
      invariant forall r :: max < r < BL_CODES ==> blens[BL_ORDER[r]] == 0
    {
      max := max - 1;
    }
    PlainPlaced(plain);
    forall i | 0 <= i < BL_CODES && PLACE[i] >= max + 1
      ensures blens[i] == 0
    {
      Placed(i);
      assert blens[BL_ORDER[PLACE[i]]] == 0;
    }
    ncode := max + 1;
  }

  lemma PlainPlaced(i: nat)
    requires i < REP_3_6
    ensures PLACE[i] >= 3 && BL_ORDER[PLACE[i]] == i && PLACE[i] < BL_CODES
  {
  }

  /** All symbols that were counted can be sent. */
  lemma CountedSendable(ts: seq<Token>, freq: seq<nat>, lens: seq<nat>, fc: seq<nat>, sent: seq<nat>)
    requires Legal(sent, ts) && |freq| >= BL_CODES == |lens|
    requires forall k :: 0 <= k < BL_CODES && freq[k] != 0 ==> lens[k] > 0
    requires forall k :: 0 <= k < BL_CODES ==> freq[k] >= Occurs(ts, k)
    requires Codes(fc, lens)
    ensures Sendable(ts, fc, lens)
  {
    AllValid(sent, ts);
    hide Codes, Legal, Occurs;
    forall i | 0 <= i < |ts|
      ensures ts[i].sym < |lens| && lens[ts[i].sym] > 0
    {
      OccursIn(ts, i);
    }
  }

  lemma {:induction false} AllValid(sent: seq<nat>, ts: seq<Token>)
    requires Legal(sent, ts)
    ensures forall i :: 0 <= i < |ts| ==> ValidToken(ts[i])
    decreases |ts|
  {
    if ts != [] {
      AllValid(Apply(sent, ts[0]), ts[1..]);
      forall i | 0 <= i < |ts|
        ensures ValidToken(ts[i])
      {
        assert i == 0 || ts[i] == ts[1..][i - 1];
      }
    }
  }

  // ---- Tallied symbols ----

  /** The literal/length symbol of an item. */
  function LitSym(lengthCode: seq<nat>, it: Item): nat
    requires ValidItem(it) && |lengthCode| == 256
  {
    match it
    case Literal(b) => b
    case Reference(length, _) => lengthCode[length - 3] + 257
  }

  /** Every item's symbols have been counted. */
  ghost predicate HasCounts(t: Coder, lfreq: seq<nat>, dfreq: seq<nat>, it: Item) {
    && ValidItem(it) && |t.lengthCode| == 256 && |t.distCode| == 512
    && LitSym(t.lengthCode, it) < L_CODES <= |lfreq| && lfreq[LitSym(t.lengthCode, it)] > 0
    && (it.Reference? ==>
          DCode(t.distCode, it.dist - 1) < D_CODES <= |dfreq| && dfreq[DCode(t.distCode, it.dist - 1)] > 0)
  }

  ghost predicate AllCounted(t: Coder, lfreq: seq<nat>, dfreq: seq<nat>, items: seq<Item>) {
    && L_CODES <= |lfreq| && lfreq[END_BLOCK] > 0
    && forall i :: 0 <= i < |items| ==> HasCounts(t, lfreq, dfreq, items[i])
  }

  /** The coder for a code that covers every counted symbol. */
  function WithCodes(t: Coder, lfc: seq<nat>, llens: seq<nat>, dfc: seq<nat>, dlens: seq<nat>): Coder {
    t.(lfc := lfc, llens := llens, dfc := dfc, dlens := dlens)
  }

  ghost predicate Covers(fc: seq<nat>, lens: seq<nat>, freq: seq<nat>, n: nat) {
    n <= |freq| && forall s :: 0 <= s < n && freq[s] > 0 ==> Coded(fc, lens, s)
  }

  lemma CoversSends(t: Coder, lfreq: seq<nat>, dfreq: seq<nat>, items: seq<Item>,
                    lfc: seq<nat>, llens: seq<nat>, dfc: seq<nat>, dlens: seq<nat>)
    requires AllCounted(t, lfreq, dfreq, items)
    requires LengthTable(t.lengthCode, t.baseLength) && DistTable(t.distCode, t.baseDist)
    requires Covers(lfc, llens, lfreq, L_CODES) && Covers(dfc, dlens, dfreq, D_CODES)
    ensures SendsAll(WithCodes(t, lfc, llens, dfc, dlens), items)
  {
    hide Coded, LengthTable, DistTable;
    var c := WithCodes(t, lfc, llens, dfc, dlens);
    forall i | 0 <= i < |items|
      ensures Sends(c, items[i])
    {
      assert HasCounts(t, lfreq, dfreq, items[i]);
    }
  }

  lemma ItemsSnoc(buf: seq<byte>, lo: byte, hi: byte, lc: byte)
    requires |buf| % 3 == 0
    ensures |buf + [lo, hi, lc]| % 3 == 0 && Items(buf + [lo, hi, lc]) == Items(buf) + [ItemOf(lo, hi, lc)]
  {
    assert (buf + [lo, hi, lc])[..|buf|] == buf;
  }

  // ---- The trees of one stream ----

  /** One dynamic tree: `fc` holds frequencies, then codes; `dl` parents, then lengths. */
  class Tree {
    const fc: array<nat>
    const dl: array<nat>
    const elems: nat

    constructor (elems: nat)
      ensures this.elems == elems && fresh(fc) && fresh(dl) && fc != dl
      ensures fc.Length == dl.Length == 2 * elems + 1
    {
      this.elems := elems;
      fc := new nat[2 * elems + 1](_ => 0);
      dl := new nat[2 * elems + 1](_ => 0);
    }

    ghost predicate Shape(n: nat) {
      elems == n && fc.Length == dl.Length == 2 * n + 1 && fc != dl
    }
  }

  ghost predicate CodeFor(fc: seq<nat>, dl: seq<nat>, freq: seq<nat>, lens: seq<nat>, elems: nat, max: nat,
                          maxCode: nat) {
    && |lens| == elems <= |dl| && elems <= |freq| && max <= MAXBITS && maxCode < elems && elems <= |fc|
    && (forall s :: 0 <= s < elems ==> dl[s] == lens[s] <= max)
    && Complete(lens) && lens[maxCode] > 0 && UnusedFrom(lens, maxCode + 1)
    && (forall s :: 0 <= s < elems && lens[s] > 0 ==> Coded(fc, lens, s))
    && (forall s :: 0 <= s < elems && freq[s] != 0 ==> lens[s] > 0)
  }

  /** Work space shared by the trees. */
  class Work {
    const heap: array<nat>
    const depth: array<nat>
    const blCount: array<nat>

    constructor ()
      ensures fresh(heap) && fresh(depth) && fresh(blCount) && Shape()
    {
      heap, depth, blCount := new nat[TreeHeap.HEAP_SIZE], new nat[TreeHeap.HEAP_SIZE], new nat[MAXBITS + 1];
    }

    ghost predicate Shape() {
      && heap.Length == depth.Length == TreeHeap.HEAP_SIZE && blCount.Length == MAXBITS + 1
      && heap != depth && heap != blCount && depth != blCount
    }
  }

  ghost predicate Apart(t: Tree, k: Work) {
    && t.fc != k.heap && t.fc != k.depth && t.fc != k.blCount && t.dl != k.heap && t.dl != k.depth && t.dl != k.blCount
  }

  method Build(t: Tree, k: Work, max: nat, desc: Desc, sizes0: Sizes)
      returns (maxCode: nat, sizes: Sizes, ghost lens: seq<nat>)
    requires t.Shape(t.elems) && k.Shape() && Apart(t, k)
    requires 3 <= t.elems <= 286 && 1 < max <= MAXBITS && t.elems <= Pow2(max) && desc.For(t.elems)
    modifies t.fc, t.dl, k.heap, k.depth, k.blCount
    ensures CodeFor(t.fc[..], t.dl[..], old(t.fc[..]), lens, t.elems, max, maxCode)
    ensures |lens| == t.elems && Added(desc, sizes0, sizes, old(t.fc[..])[..t.elems], lens)
  {
    hide Complete, TreeCodes.CodesUpTo, Added, Desc.For;
    ghost var freq := t.fc[..];
    ghost var leaves, limited;
    maxCode, sizes, limited, leaves, lens := TreeCodes.BuildTree(k.heap, t.fc, t.dl, k.depth, k.blCount, t.elems, max,
      desc, sizes0);
    assert freq[..t.elems] == old(t.fc[..t.elems]);
    BuiltCode(t.fc[..], t.dl[..], freq, leaves, lens, k.blCount[..], t.elems, max, maxCode);
  }

  lemma BuiltCode(fc: seq<nat>, dl: seq<nat>, freq: seq<nat>, leaves: seq<nat>, lens: seq<nat>, bl: seq<nat>,
                  elems: nat, max: nat, maxCode: nat)
    requires TreeCodes.FullCode(leaves, dl, elems, max, bl, lens) && Complete(lens)
    requires TreeCodes.CodesUpTo(fc, lens, elems)
    requires elems <= |freq| && forall s :: 0 <= s < elems && freq[s] != 0 ==> lens[s] > 0
    requires maxCode < elems && lens[maxCode] > 0 && forall s :: maxCode < s < elems ==> lens[s] == 0
    ensures CodeFor(fc, dl, freq, lens, elems, max, maxCode)
  {
    hide Complete, Pow2, Pre, CodeOf;
  }
}
