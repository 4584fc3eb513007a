/** inflate.c and inffast.c: the output buffer of a call, the window of earlier output, and
    copying matches out of both. */
module InflateOutput {
  import opened Bits
  import opened BlockDecode
  import opened Window

  const WSIZE := 32768

  // ---- Copying back, in parts ----

  lemma {:induction false} CopyAdd(h: seq<byte>, a: nat, b: nat, d: nat)
    requires 1 <= d <= |h|
    ensures CopyBack(h, a + b, d) == CopyBack(CopyBack(h, a, d), b, d)
    decreases a
  {
    if a > 0 {
      CopyAdd(h + [h[|h| - d]], a - 1, b, d);
    }
  }

  /** As long as source and target do not overlap, a slice is copied. */
  lemma {:induction false} CopySlice(h: seq<byte>, n: nat, d: nat)
    requires 1 <= d <= |h| && n <= d
    ensures CopyBack(h, n, d) == h + h[|h| - d..|h| - d + n]
  {
    hide CopyBack;
    if n == 0 {
      CopyNone(h, d);
      assert h[|h| - d..|h| - d] == [];
    } else {
      CopyAdd(h, n - 1, 1, d);
      CopySlice(h, n - 1, d);
      var g := h + h[|h| - d..|h| - d + n - 1];
      CopyOne(g, d);
      assert g[|g| - d] == h[|h| - d + n - 1];
      assert h[|h| - d..|h| - d + n] == h[|h| - d..|h| - d + n - 1] + [h[|h| - d + n - 1]];
    }
  }

  // ---- Where the window holds earlier output ----

  /** The window index of the byte `op` before the end of the window's contents. */
  function Start(wsize: nat, wnext: nat, op: nat): nat
    requires op <= wsize + wnext
  {
    if op > wnext then wsize + wnext - op else wnext - op
  }

  /** How many bytes follow there without a break. */
  function Stretch(wnext: nat, op: nat): nat {
    if op > wnext then op - wnext else op
  }

  lemma Stretches(w: seq<byte>, next: nat, have: nat, op: nat, n: nat)
    requires next <= have <= |w| && (have == |w| || have == next) && 1 <= op <= have && n <= Stretch(next, op)
    ensures op <= |w| + next && Start(|w|, next, op) + n <= |w|
    ensures w[Start(|w|, next, op)..Start(|w|, next, op) + n] == Unrolled(w, next, have)[have - op..have - op + n]
  {
    var u := Unrolled(w, next, have);
    if op > next {
      var a := have - op;
      assert u[..have - next] == w[next..have];
      assert u[a..a + n] == u[..have - next][a..a + n];
      SliceOf(w, next, have, a, n);
    } else {
      var a := next - op;
      assert u[have - next..] == w[..next];
      assert u[have - op..have - op + n] == u[have - next..][a..a + n];
      assert w[..next][a..a + n] == w[a..a + n];
    }
  }

  class Output {
    const w: Sliding
    var out: array<byte>
    var put: nat
    /** All output of earlier calls. */
    ghost var before: seq<byte>

    ghost predicate Valid()
      reads this, w, w.window
    {
      && w.Valid() && put <= out.Length && w.window != out && w.window.Length == WSIZE
      && w.Contents() == Last(before, WSIZE) && (w.wsize == 0 ==> before == [])
    }

    /** All output so far. */
    ghost function Hist(): seq<byte>
      requires put <= out.Length
      reads this, out
    {
      before + out[..put]
    }

    constructor ()
      ensures Valid() && Hist() == [] && before == [] && put == out.Length == 0
      ensures fresh(w) && fresh(w.window) && fresh(out)
    {
      WindowSize();
      w := new Sliding(15);
      out := new byte[0];
      put := 0;
      before := [];
    }

    /** A call gives a new buffer. */
    method StartCall(buffer: array<byte>)
      requires Valid() && put == 0 && buffer != w.window
      modifies this`out
      ensures Valid() && out == buffer && put == 0
    {
      out := buffer;
    }

    /** inf_leave: the window takes in what the call has written. */
    method EndCall()
      requires Valid()
      modifies this`put, this`before, w`wsize, w`wnext, w`whave, w.window
      ensures Valid() && put == 0 && Hist() == old(Hist())
    {
      hide Unrolled;
      if put != 0 || w.wsize != 0 {
        Grown(before, out[..put]);
        assert out[..put][put - put..] == out[..put];
        w.Update(out[..put], put);
      }
      before := before + out[..put];
      put := 0;
      assert before + out[..0] == before;
    }

    method Put(b: byte)
      requires Valid() && put < out.Length
      modifies this`put, out
      ensures Valid() && put == old(put) + 1 && Hist() == old(Hist()) + [b]
    {
      ghost var o := out[..put];
      out[put] := b;
      put := put + 1;
      assert out[..put] == o + [b];
      assert before + (o + [b]) == before + o + [b];
    }

    /** n bytes from the window. */
    method FromWindow(pos: nat, n: nat)
      requires Valid() && pos + n <= WSIZE && put + n <= out.Length
      modifies this`put, out
      ensures Valid() && put == old(put) + n && Hist() == old(Hist()) + w.window[pos..pos + n]
    {
      hide Unrolled;
      var i := 0;
      ghost var h := Hist();
      assert h + w.window[pos..pos] == h;
      while i < n
        invariant 0 <= i <= n && Valid() && put == old(put) + i && Hist() == h + w.window[pos..pos + i]
        invariant out == old(out)
      {
        Put(w.window[pos + i]);
        assert w.window[pos..pos + i] + [w.window[pos + i]] == w.window[pos..pos + i + 1];
        i := i + 1;
      }
    }

    /** n bytes from dist back in the buffer, which may run into the bytes just written. */
    method FromOutput(dist: nat, n: nat)
      requires Valid() && 1 <= dist <= put && put + n <= out.Length
      modifies this`put, out
      ensures Valid() && put == old(put) + n && Hist() == CopyBack(old(Hist()), n, dist)
    {
      hide Unrolled;
      var i := 0;
      ghost var h := Hist();
      while i < n
        invariant 0 <= i <= n && Valid() && put == old(put) + i && out == old(out) && |h| >= dist
        invariant Hist() == CopyBack(h, i, dist)
      {
        ghost var g := Hist();
        assert g[|g| - dist] == out[put - dist];
        CopyAdd(h, i, 1, dist);
        CopyOne(g, dist);
        Put(out[put - dist]);
        i := i + 1;
      }
    }

    /** A part of a match that lies in the window, without a break. */
    method MatchFromWindow(dist: nat, n: nat)
      requires Valid() && put < dist && dist - put <= w.whave && n <= Stretch(w.wnext, dist - put)
      requires put + n <= out.Length
      modifies this`put, out
      ensures Valid() && put == old(put) + n && dist <= |old(Hist())| && Hist() == CopyBack(old(Hist()), n, dist)
    {
      hide Unrolled, CopyBack, Stretch, Start, Last;
      StretchIs(dist, n);
      CopySlice(Hist(), n, dist);
      FromWindow(Start(w.wsize, w.wnext, dist - put), n);
    }

    lemma StretchIs(dist: nat, n: nat)
      requires Valid() && put < dist && dist - put <= w.whave && n <= Stretch(w.wnext, dist - put)
      ensures dist <= |Hist()| && n <= dist && dist - put <= w.wsize + w.wnext
      ensures var at := Start(w.wsize, w.wnext, dist - put);
        at + n <= WSIZE && w.window[at..at + n] == Hist()[|Hist()| - dist..|Hist()| - dist + n]
    {
      hide Unrolled, Last;
      var op := dist - put;
      Stretches(w.window[..], w.wnext, w.whave, op, n);
      HistLong();
      InWindow(before, out[..put], w.Contents(), op, n);
      var at := Start(w.wsize, w.wnext, op);
      assert w.window[at..at + n] == w.window[..][at..at + n];
    }

    /** A whole match, as inflate_fast copies it: from the window in one or two stretches
        where it reaches back before this call, the rest from the buffer. */
    method CopyMatch(len: nat, dist: nat)
      requires Valid() && 1 <= dist && dist <= put + w.whave && put + len <= out.Length
      modifies this`put, out
      ensures Valid() && put == old(put) + len && dist <= |old(Hist())| && Hist() == CopyBack(old(Hist()), len, dist)
    {
      hide Unrolled, CopyBack, Last;
      HistLong();
      ghost var h := Hist();
      CopyNone(h, dist);
      var left := len;
      if dist > put {
        left := FromStretches(h, len, dist);
      }
      if left > 0 {
        CopyParts(h, len - left, left, dist);
        FromOutput(dist, left);
      }
    }

    /** What of a match lies in the window: one stretch or, around its end, two. */
    method FromStretches(ghost h: seq<byte>, len: nat, dist: nat) returns (left: nat)
      requires Valid() && put < dist && dist - put <= w.whave && put + len <= out.Length && h == Hist() && dist <= |h|
      modifies this`put, out
      ensures Valid() && left <= len && put == old(put) + len - left && Hist() == CopyBack(h, len - left, dist)
      ensures left == 0 || dist <= put
    {
      hide Unrolled, CopyBack, Last, Stretch;
      CopyNone(h, dist);
      StretchFacts(w.wnext, dist - put);
      left := OneStretch(h, len, len, dist);
      if left > 0 && dist > put {
        StretchFacts(w.wnext, dist - put);
        left := OneStretch(h, len, left, dist);
      }
    }

    /** One stretch of the window; len - left bytes of the match were copied before. */
    method OneStretch(ghost h: seq<byte>, ghost len: nat, left: nat, dist: nat) returns (rest: nat)
      requires Valid() && left <= len && put < dist && dist - put <= w.whave && put + left <= out.Length
      requires dist <= |h| && Hist() == CopyBack(h, len - left, dist)
      modifies this`put, out
      ensures Valid() && rest <= left && put == old(put) + left - rest && Hist() == CopyBack(h, len - rest, dist)
      ensures rest > 0 ==> put == old(put) + Stretch(w.wnext, dist - old(put))
    {
      hide Unrolled, CopyBack, Last;
      var op := Stretch(w.wnext, dist - put);
      var n := if op < left then op else left;
      CopyParts(h, len - left, n, dist);
      MatchFromWindow(dist, n);
      rest := left - n;
    }

    /** One stretch of a match, as inflate copies it: at most len bytes, at least one. */
    method CopySome(len: nat, dist: nat) returns (n: nat)
      requires Valid() && 1 <= dist <= put + w.whave && put < out.Length && len > 0
      modifies this`put, out
      ensures Valid() && 1 <= n <= len && put == old(put) + n && dist <= |old(Hist())|
      ensures Hist() == CopyBack(old(Hist()), n, dist)
    {
      hide Unrolled, CopyBack, Last;
      HistLong();
      var left := out.Length - put;
      if dist > put {
        n := Stretch(w.wnext, dist - put);
        n := if n > len then len else n;
        n := if n > left then left else n;
        MatchFromWindow(dist, n);
      } else {
        n := if len > left then left else len;
        FromOutput(dist, n);
      }
    }

    /** The history is at least what buffer and window hold. */
    lemma HistLong()
      requires Valid()
      ensures |Hist()| >= put + w.whave && (|Hist()| < WSIZE ==> |Hist()| == put + w.whave)
      ensures |w.Contents()| == w.whave && |w.Contents()| == if |before| <= WSIZE then |before| else WSIZE
    {
      assert |w.Contents()| == w.whave;
    }
  }

  lemma StretchFacts(wnext: nat, op: nat)
    ensures Stretch(wnext, op) == if op > wnext then op - wnext else op
  {
  }

  lemma WindowSize()
    ensures Pow2(15) == WSIZE
  {
    assert Pow2(15) == 32768;
  }

  lemma Grown(before: seq<byte>, more: seq<byte>)
    ensures Last(Last(before, WSIZE) + more, WSIZE) == Last(before + more, WSIZE)
  {
    LastCat(before, more, WSIZE);
  }

  lemma CopyOne(g: seq<byte>, d: nat)
    requires 1 <= d <= |g|
    ensures CopyBack(g, 1, d) == g + [g[|g| - d]]
  {
    assert CopyBack(g, 1, d) == CopyBack(g + [g[|g| - d]], 0, d);
  }

  lemma CopyNone(g: seq<byte>, d: nat)
    requires 1 <= d <= |g|
    ensures CopyBack(g, 0, d) == g
  {
  }

  lemma CopyParts(h: seq<byte>, n: nat, m: nat, d: nat)
    requires 1 <= d <= |h|
    ensures CopyBack(CopyBack(h, n, d), m, d) == CopyBack(h, n + m, d)
  {
    CopyAdd(h, n, m, d);
  }

  /** The bytes of a match that lie in the window are those of the history. */
  lemma InWindow(before: seq<byte>, out: seq<byte>, c: seq<byte>, op: nat, n: nat)
    requires c == Last(before, WSIZE) && 1 <= op <= |c| <= |before| && n <= op
    ensures var h, dist := before + out, op + |out|;
      dist <= |h| && h[|h| - dist..|h| - dist + n] == c[|c| - op..|c| - op + n]
  {
    var h, dist := before + out, op + |out|;
    var b := |before|;
    SliceOf(h, 0, b, b - op, n);
    assert h[0..b] == before && |h| - dist == b - op;
    if b > WSIZE {
      SliceOf(before, b - WSIZE, b, WSIZE - op, n);
      assert before[b - WSIZE..b] == c;
    }
  }
}
