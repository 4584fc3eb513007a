/** What a match is, and what tallied items stand for. */
module Lz77 {
  import opened Bits
  import opened BlockDecode
  import opened BlockReads

  /** The len bytes at pos are those at m. */
  ghost predicate MatchAt(data: seq<byte>, pos: nat, m: int, len: nat) {
    0 <= m < pos && pos + len <= |data| && data[m..m + len] == data[pos..pos + len]
  }

  /** Copying back along a match rebuilds the input, also where the two overlap. */
  lemma {:induction false} CopyIsData(data: seq<byte>, pos: nat, m: nat, len: nat)
    requires MatchAt(data, pos, m, len)
    ensures CopyBack(data[..pos], len, pos - m) == data[..pos + len]
    decreases len
  {
    if len > 0 {
      var a, b := data[m..m + len], data[pos..pos + len];
      assert data[m] == a[0] && data[pos] == b[0];
      assert data[..pos] + [data[pos]] == data[..pos + 1];
      assert data[m + 1..m + len] == a[1..] && data[pos + 1..pos + len] == b[1..];
      CopyIsData(data, pos + 1, m + 1, len - 1);
    }
  }

  /** The items rebuild the first pos bytes. */
  ghost predicate Tallied(items: seq<Item>, data: seq<byte>, pos: nat) {
    && pos <= |data| && (forall i :: 0 <= i < |items| ==> ValidItem(items[i]))
    && Fits([], items) && Expand([], items) == data[..pos]
  }

  lemma ExpandSnoc(items: seq<Item>, it: Item)
    requires Fits([], items) && FitsOne(Expand([], items), it)
    ensures Fits([], items + [it]) && Expand([], items + [it]) == ExpandOne(Expand([], items), it)
  {
    ExpandCat([], items, [it]);
    var out := Expand([], items);
    assert Fits(ExpandOne(out, it), []);
    assert [it][1..] == [];
  }

  lemma TallyLiteral(items: seq<Item>, data: seq<byte>, pos: nat)
    requires Tallied(items, data, pos) && pos < |data|
    ensures Tallied(items + [Literal(data[pos])], data, pos + 1)
  {
    ExpandSnoc(items, Literal(data[pos]));
    assert data[..pos] + [data[pos]] == data[..pos + 1];
    hide Fits, Expand;
  }

  lemma TallyMatch(items: seq<Item>, data: seq<byte>, pos: nat, m: nat, len: nat)
    requires Tallied(items, data, pos) && MatchAt(data, pos, m, len) && 3 <= len <= 258 && pos - m <= 32768
    ensures Tallied(items + [Reference(len, pos - m)], data, pos + len)
  {
    CopyIsData(data, pos, m, len);
    ExpandSnoc(items, Reference(len, pos - m));
    hide Fits, Expand, CopyBack;
  }

  lemma TallyGrows(items: seq<Item>, data: seq<byte>, pos: nat, data': seq<byte>)
    requires Tallied(items, data, pos) && data <= data'
    ensures Tallied(items, data', pos)
  {
    assert data'[..pos] == data[..pos];
    hide Fits, Expand;
  }
}
