/** inflate.c: the circular window of the last output bytes, and the search for a
    synchronisation point. */
module Window {
  import opened Bits
  import opened Buffers

  /** The last n bytes, or all if there are fewer. */
  function Last(data: seq<byte>, n: nat): (r: seq<byte>)
    ensures |r| == if |data| <= n then |data| else n
  {
    if |data| <= n then data else data[|data| - n..]
  }

  lemma LastCat(a: seq<byte>, b: seq<byte>, n: nat)
    ensures Last(Last(a, n) + b, n) == Last(a + b, n)
  {
    var l := Last(a, n);
    if |a| > n {
      assert a == a[..|a| - n] + l;
      assert a + b == a[..|a| - n] + (l + b);
    }
  }

  /** What a circular buffer holds, oldest byte first. */
  function Unrolled(w: seq<byte>, next: nat, have: nat): seq<byte>
    requires next <= have <= |w|
  {
    w[next..have] + w[..next]
  }

  /** All bytes ever supplied to the window, in pieces. */
  function Joined(pieces: seq<seq<byte>>): seq<byte> {
    if pieces == [] then [] else Joined(pieces[..|pieces| - 1]) + pieces[|pieces| - 1]
  }

  class Sliding {
    const window: array<byte>
    var wsize: nat
    var wnext: nat
    var whave: nat

    ghost predicate Valid()
      reads this
    {
      && window.Length > 0 && (wsize == 0 || wsize == window.Length)
      && wnext <= whave <= wsize && (wsize > 0 ==> wnext < wsize) && (whave == wsize || whave == wnext)
    }

    ghost function Contents(): seq<byte>
      requires Valid()
      reads this, window
    {
      Unrolled(window[..], wnext, whave)
    }

    constructor (wbits: nat)
      ensures Valid() && Contents() == [] && window.Length == Pow2(wbits) && fresh(window)
    {
      window := new byte[Pow2(wbits)];
      wsize, wnext, whave := 0, 0, 0;
    }

    /** updatewindow: `out` ends with the bytes just written, the last `copy` of which are
        new. Afterwards the window holds the last wsize bytes of all it was given. */
    method Update(out: seq<byte>, copy: nat)
      requires Valid() && copy <= |out|
      modifies this`wsize, this`wnext, this`whave, window
      ensures Valid() && wsize == window.Length
      ensures Contents() == Last(old(Contents()) + out[|out| - copy..], window.Length)
    {
      if wsize == 0 {
        wsize, wnext, whave := window.Length, 0, 0;
      }
      ghost var c0 := Contents();
      if copy >= wsize {
        CopyIn(window, 0, out[|out| - wsize..]);
        wnext, whave := 0, wsize;
        Replaced(c0, out, copy, wsize);
        assert window[..] == out[|out| - wsize..];
      } else {
        var dist := wsize - wnext;
        if dist > copy {
          dist := copy;
        }
        if copy - dist != 0 {
          RunOver(out[|out| - copy..], dist);
          assert out[|out| - copy..][dist..] == out[|out| - (copy - dist)..];
        } else {
          Append(out[|out| - copy..]);
        }
      }
    }

    /** New bytes that run over the end of the window. */
    method RunOver(data: seq<byte>, dist: nat)
      requires Valid() && 0 < wsize && dist == wsize - wnext < |data| < wsize
      modifies this`wnext, this`whave, window
      ensures Valid() && Contents() == Last(old(Contents()) + data, wsize)
    {
      ghost var w0 := window[..];
      CopyIn(window, wnext, data[..dist]);
      ghost var w1 := window[..];
      assert w1 == w0[..wnext] + data[..dist];
      CopyIn(window, 0, data[dist..]);
      assert window[..] == data[dist..] + w1[|data| - dist..];
      Wrapped(w0, wnext, whave, data, dist, window[..]);
      wnext, whave := |data| - dist, wsize;
    }

    /** New bytes that fit before the end of the window. */
    method Append(data: seq<byte>)
      requires Valid() && 0 < wsize && |data| <= wsize - wnext && |data| < wsize
      modifies this`wnext, this`whave, window
      ensures Valid() && Contents() == Last(old(Contents()) + data, wsize)
    {
      ghost var w0 := window[..];
      CopyIn(window, wnext, data);
      Appended(w0, wnext, whave, data, window[..]);
      hide Last, Unrolled;
      wnext := wnext + |data|;
      if wnext == wsize {
        wnext := 0;
      }
      if whave < wsize {
        whave := whave + |data|;
      }
    }

    /** inflateGetDictionary: the bytes of the window in order. */
    method GetDictionary() returns (dictionary: seq<byte>, length: nat)
      requires Valid()
      ensures dictionary == Contents() && length == whave == |dictionary|
    {
      dictionary := [];
      if whave != 0 {
        dictionary := window[wnext..whave];
        dictionary := dictionary + window[..wnext];
      }
      length := whave;
    }
  }

  lemma Replaced(c: seq<byte>, out: seq<byte>, copy: nat, n: nat)
    requires n <= copy <= |out| && 0 < n
    ensures Last(c + out[|out| - copy..], n) == out[|out| - n..]
    ensures Unrolled(out[|out| - n..], 0, n) == out[|out| - n..]
  {
    var all, last := c + out[|out| - copy..], out[|out| - n..];
    assert |all| == |c| + copy;
    assert all[|all| - n..] == last;
    assert last[..n] + last[..0] == last;
  }

  /** The new bytes run over the end of the window. */
  lemma Wrapped(w: seq<byte>, next: nat, have: nat, data: seq<byte>, dist: nat, w': seq<byte>)
    requires next < |w| && next <= have <= |w| && (have == |w| || have == next)
    requires dist == |w| - next < |data| < |w|
    requires w' == data[dist..] + (w[..next] + data[..dist])[|data| - dist..]
    ensures Unrolled(w', |data| - dist, |w|) == Last(Unrolled(w, next, have) + data, |w|)
  {
    var k := |data| - dist;
    WrappedWindow(w, next, data, dist, w', k);
    var a, b := w[next..have] + w[..k], w[k..next] + data;
    assert w[next..have] + w[..next] == a + w[k..next];
    assert (a + w[k..next]) + data == a + b;
    hide Unrolled;
    assert |b| == |w| && (a + b)[|a|..] == b;
  }

  lemma WrappedWindow(w: seq<byte>, next: nat, data: seq<byte>, dist: nat, w': seq<byte>, k: nat)
    requires next < |w| && dist == |w| - next && k == |data| - dist && dist < |data| < |w|
    requires w' == data[dist..] + (w[..next] + data[..dist])[k..]
    ensures |w'| == |w| && Unrolled(w', k, |w|) == w[k..next] + data
  {
    assert (w[..next] + data[..dist])[k..] == w[k..next] + data[..dist];
    assert w'[k..] == w[k..next] + data[..dist] && w'[..k] == data[dist..];
    assert w'[k..|w|] == w'[k..];
    assert data == data[..dist] + data[dist..];
  }

  lemma AppendedFull(w: seq<byte>, next: nat, data: seq<byte>, w': seq<byte>, n: nat)
    requires next < |w| && n == next + |data| <= |w| && |w'| == |w| && w' == w[..next] + data + w[n..]
    ensures w'[n..] + w'[..n] == Last(w[next..] + w[..next] + data, |w|)
    ensures n == |w| ==> w'[..] + w'[..0] == w'[n..] + w'[..n]
  {
    assert w'[..n] == w[..next] + data;
    assert w'[n..] == w[n..];
    var all := w[next..] + w[..next] + data;
    assert all == w[next..] + (w[..next] + data);
    assert all[|data|..] == w[next..][|data|..] + (w[..next] + data);
    assert w[next..][|data|..] == w[n..];
  }

  /** The new bytes fit before the end of the window. */
  lemma Appended(w: seq<byte>, next: nat, have: nat, data: seq<byte>, w': seq<byte>)
    requires next < |w| && next <= have <= |w| && (have == |w| || have == next)
    requires |data| <= |w| - next && |data| < |w| && w' == w[..next] + data + w[next + |data|..]
    ensures var next' := if next + |data| == |w| then 0 else next + |data|;
      var have' := if have < |w| then have + |data| else have;
      && next' <= have' <= |w| && Unrolled(w', next', have') == Last(Unrolled(w, next, have) + data, |w|)
  {
    var n := next + |data|;
    assert w'[..n] == w[..next] + data;
    if have == |w| {
      AppendedFull(w, next, data, w', n);
      assert w'[n..|w|] == w'[n..] && w[next..have] == w[next..];
      assert w'[0..|w|] == w'[..];
    } else {
      assert w[next..next] == [] && w'[n..n] == [];
      if n == |w| {
        assert w'[0..|w|] == w'[..n];
      }
    }
  }

  // ---- Any sequence of updates ----

  /** What the window holds after given pieces, one update after the other. */
  function Held(pieces: seq<seq<byte>>, n: nat): seq<byte> {
    if pieces == [] then [] else Last(Held(pieces[..|pieces| - 1], n) + pieces[|pieces| - 1], n)
  }

  /** However the output comes in pieces, the window holds the last n bytes of it. */
  lemma {:induction false} HeldIsLast(pieces: seq<seq<byte>>, n: nat)
    ensures Held(pieces, n) == Last(Joined(pieces), n)
  {
    if pieces != [] {
      HeldIsLast(pieces[..|pieces| - 1], n);
      LastCat(Joined(pieces[..|pieces| - 1]), pieces[|pieces| - 1], n);
    }
  }

  /** A window over any pieces, each supplied by one call: it holds the last bytes of them
      all, and gives them out in order. */
  method Supply(wbits: nat, pieces: seq<seq<byte>>) returns (w: Sliding, dictionary: seq<byte>)
    ensures fresh(w) && w.Valid() && w.Contents() == dictionary == Last(Joined(pieces), Pow2(wbits))
  {
    hide Held, Joined, Last;
    w := new Sliding(wbits);
    HeldNone(Pow2(wbits));
    assert pieces[..0] == [];
    for i := 0 to |pieces|
      invariant fresh(w) && fresh(w.window) && w.Valid() && w.window.Length == Pow2(wbits)
      invariant w.Contents() == Held(pieces[..i], Pow2(wbits))
    {
      HeldNext(pieces[..i], pieces[i], Pow2(wbits));
      assert pieces[..i + 1] == pieces[..i] + [pieces[i]] && pieces[i][0..] == pieces[i];
      w.Update(pieces[i], |pieces[i]|);
    }
    assert pieces[..|pieces|] == pieces;
    HeldIsLast(pieces, Pow2(wbits));
    var n;
    dictionary, n := w.GetDictionary();
  }

  lemma HeldNone(n: nat)
    ensures Held([], n) == []
  {
  }

  lemma HeldNext(pieces: seq<seq<byte>>, piece: seq<byte>, n: nat)
    ensures Held(pieces + [piece], n) == Last(Held(pieces, n) + piece, n)
  {
    assert (pieces + [piece])[..|pieces|] == pieces;
  }

  // ---- syncsearch ----

  const PATTERN: seq<byte> := [0, 0, 0xff, 0xff]

  ghost predicate EndsWith(data: seq<byte>, k: nat) {
    k <= |data| && k <= 4 && data[|data| - k..] == PATTERN[..k]
  }

  /** k is the length of the longest start of the pattern that the data ends with. */
  ghost predicate Longest(data: seq<byte>, k: nat) {
    EndsWith(data, k) && forall j :: k < j <= 4 ==> !EndsWith(data, j)
  }

  /** The byte of the pattern at k. */
  function Expected(k: nat): byte {
    if k < 2 then 0 else 0xff
  }

  lemma EndsSnoc(data: seq<byte>, b: byte, k: nat)
    requires 0 < k <= 4
    ensures EndsWith(data + [b], k) <==> EndsWith(data, k - 1) && b == Expected(k - 1)
  {
    var d := data + [b];
    assert PATTERN[..k] == PATTERN[..k - 1] + [PATTERN[k - 1]] && PATTERN[k - 1] == Expected(k - 1);
    if k <= |d| {
      assert d[|d| - k..] == data[|data| - (k - 1)..] + [b];
    }
  }

  /** Which starts of the pattern the data ends with follows from the longest one. */
  lemma Borders(data: seq<byte>, g: nat)
    requires Longest(data, g) && g < 4
    ensures EndsWith(data, 1) <==> g == 1 || g == 2
    ensures EndsWith(data, 2) <==> g == 2
    ensures EndsWith(data, 3) <==> g == 3
    ensures EndsWith(data, 0)
  {
    var n := |data|;
    if g >= 1 {
      assert data[n - 1] == data[n - g..][g - 1] == PATTERN[..g][g - 1];
      assert data[n - 1..] == [data[n - 1]];
      assert PATTERN[..1] == [0];
    }
    if g >= 2 {
      assert data[n - 2] == data[n - g..][g - 2] == PATTERN[..g][g - 2];
      assert data[n - 2..] == [data[n - 2], data[n - 1]];
      assert PATTERN[..2] == [0, 0];
    }
  }

  function Advance(got: nat, b: byte): nat
    requires got < 4
  {
    if b == Expected(got) then got + 1 else if b != 0 then 0 else 4 - got
  }

  lemma AdvanceIsLongest(data: seq<byte>, got: nat, b: byte)
    requires Longest(data, got) && got < 4
    ensures Longest(data + [b], Advance(got, b))
  {
    hide EndsWith, Longest;
    Borders(data, got);
    NotYet(data, got);
    EndsNothing(data + [b]);
    EndsSnoc(data, b, 1);
    EndsSnoc(data, b, 2);
    EndsSnoc(data, b, 3);
    EndsSnoc(data, b, 4);
    LongestIs(data + [b], Advance(got, b));
  }

  lemma EndsNothing(data: seq<byte>)
    ensures EndsWith(data, 0)
  {
  }

  lemma LongestIs(data: seq<byte>, k: nat)
    requires k <= 4 && EndsWith(data, k)
    requires (k < 1 ==> !EndsWith(data, 1)) && (k < 2 ==> !EndsWith(data, 2)) && (k < 3 ==> !EndsWith(data, 3))
    requires (k < 4 ==> !EndsWith(data, 4))
    ensures Longest(data, k)
  {
    hide EndsWith;
    forall j | k < j <= 4
      ensures !EndsWith(data, j)
    {
      assert j == 1 || j == 2 || j == 3 || j == 4;
    }
  }

  /** syncsearch: `before` are the bytes read by earlier calls. It reads up to the end of
      the first occurrence of the pattern or of the input. */
  method SyncSearch(have: nat, buf: seq<byte>, ghost before: seq<byte>) returns (got: nat, next: nat)
    requires Longest(before, have)
    requires forall m :: 0 <= m < |before| ==> !EndsWith(before[..m], 4)
    ensures next <= |buf| && Longest(before + buf[..next], got)
    ensures got < 4 ==> next == |buf|
    ensures forall m :: 0 <= m < |before| + next ==> !EndsWith((before + buf)[..m], 4)
  {
    got, next := have, 0;
    assert before + buf[..0] == before;
    assert forall m :: 0 <= m < |before| ==> (before + buf)[..m] == before[..m];
    hide EndsWith, Longest;
    while next < |buf| && got < 4
      invariant next <= |buf| && got <= 4 && Longest(before + buf[..next], got)
      invariant forall m :: 0 <= m < |before| + next ==> !EndsWith((before + buf)[..m], 4)
    {
      SearchStep(before, buf, next, got);
      if buf[next] == (if got < 2 then 0 else 0xff) {
        got := got + 1;
      } else if buf[next] != 0 {
        got := 0;
      } else {
        got := 4 - got;
      }
      next := next + 1;
    }
  }

  lemma SearchStep(before: seq<byte>, buf: seq<byte>, next: nat, got: nat)
    requires next < |buf| && got < 4 && Longest(before + buf[..next], got)
    ensures Longest(before + buf[..next + 1], Advance(got, buf[next]))
    ensures !EndsWith((before + buf)[..|before| + next], 4)
  {
    hide EndsWith, Longest;
    AdvanceIsLongest(before + buf[..next], got, buf[next]);
    NotYet(before + buf[..next], got);
    assert (before + buf)[..|before| + next] == before + buf[..next];
    assert before + buf[..next] + [buf[next]] == before + buf[..next + 1];
  }

  lemma NotYet(data: seq<byte>, got: nat)
    requires Longest(data, got) && got < 4
    ensures !EndsWith(data, 4)
  {
  }
}
