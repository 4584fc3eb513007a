/** deflate.c: hash chains over a sliding window. Positions are counted in the whole input:
    window index i is position base + i, and base grows by the window size at every
    slide. */
module Chains {
  import opened Bits
  import opened Hash

  const MIN_MATCH := 3
  const MAX_MATCH := 258
  const MIN_LOOKAHEAD := 262
  const NIL := 0

  /** Sizes: the window holds 2 * wsize bytes, the table 2^bits heads. */
  datatype Config = Config(wsize: nat, bits: nat, shift: nat) {
    ghost predicate Ok() { MIN_LOOKAHEAD < wsize <= 32768 && Sized(bits, shift) }

    function MaxDist(): nat
      requires Ok()
    {
      wsize - MIN_LOOKAHEAD
    }
  }

  /** The hash of the three bytes at position a. */
  function HashAt(g: Config, data: seq<byte>, a: nat): nat
    requires a + 2 < |data|
  {
    H3(g.bits, g.shift, data[a], data[a + 1], data[a + 2])
  }

  /** An entry of a chain: none, or a position that was inserted and has the hash h. */
  ghost predicate Entry(g: Config, data: seq<byte>, base: nat, ins: set<nat>, v: nat, h: nat) {
    v == NIL || (base + v in ins && base + v + 2 < |data| && HashAt(g, data, base + v) == h)
  }

  /** No position of the window that was inserted, is below a and has the hash h comes after
      the entry. */
  ghost predicate Newest(g: Config, data: seq<byte>, base: nat, ins: set<nat>, v: nat, h: nat, a: nat) {
    forall p :: p in ins && base < p < a && p + 2 < |data| && HashAt(g, data, p) == h ==> p <= base + v
  }

  /** The chain goes on from position a: to the last position before it of the same hash. */
  ghost predicate Linked(g: Config, prev: seq<nat>, data: seq<byte>, base: nat, ins: set<nat>, a: nat) {
    && |prev| == g.wsize > 0 && a + 2 < |data|
    && var v, h := prev[a % g.wsize], HashAt(g, data, a);
       Entry(g, data, base, ins, v, h) && (v != NIL ==> base + v < a) && Newest(g, data, base, ins, v, h, a)
  }

  /** ins: the positions inserted so far, all below lim. A position's link is overwritten
      only once the position is out of reach. */
  ghost predicate ChainsOk(g: Config, head: seq<nat>, prev: seq<nat>, data: seq<byte>, base: nat, ins: set<nat>,
                           lim: nat) {
    && g.wsize > 0 && |head| == Pow2(g.bits) && |prev| == g.wsize && base % g.wsize == 0
    && (lim == 0 || lim + 2 <= |data|)
    && (forall h :: 0 <= h < |head| ==> Entry(g, data, base, ins, head[h], h))
    && (forall h :: 0 <= h < |head| ==> Newest(g, data, base, ins, head[h], h, lim))
    && (forall a :: a in ins ==> a < lim)
    && (forall a :: a in ins && a > base && a + g.wsize >= lim ==> Linked(g, prev, data, base, ins, a))
  }

  lemma EntryGrows(g: Config, data: seq<byte>, base: nat, ins: set<nat>, v: nat, h: nat, data': seq<byte>,
                   ins': set<nat>)
    requires Entry(g, data, base, ins, v, h) && data <= data' && ins <= ins'
    ensures Entry(g, data', base, ins', v, h)
  {
  }

  /** Later positions do not matter. */
  lemma NewestGrows(g: Config, data: seq<byte>, base: nat, ins: set<nat>, v: nat, h: nat, a: nat, data': seq<byte>,
                    ins': set<nat>)
    requires Newest(g, data, base, ins, v, h, a) && data <= data' && ins <= ins' && a + 2 <= |data|
    requires forall p :: p in ins' && p !in ins ==> p >= a
    ensures Newest(g, data', base, ins', v, h, a)
  {
    forall p | p in ins' && base < p < a && p + 2 < |data'| && HashAt(g, data', p) == h
      ensures p <= base + v
    {
      assert p in ins && HashAt(g, data, p) == HashAt(g, data', p);
    }
  }

  lemma LinkedGrows(g: Config, prev: seq<nat>, data: seq<byte>, base: nat, ins: set<nat>, a: nat, data': seq<byte>,
                    ins': set<nat>)
    requires Linked(g, prev, data, base, ins, a) && data <= data' && ins <= ins'
    requires forall p :: p in ins' && p !in ins ==> p >= a
    ensures Linked(g, prev, data', base, ins', a)
  {
    var v, h := prev[a % g.wsize], HashAt(g, data, a);
    EntryGrows(g, data, base, ins, v, h, data', ins');
    NewestGrows(g, data, base, ins, v, h, a, data', ins');
    assert HashAt(g, data', a) == h;
    hide HashAt, Newest;
  }

  /** More input leaves the chains in order. */
  lemma ReadKeeps(g: Config, head: seq<nat>, prev: seq<nat>, data: seq<byte>, base: nat, ins: set<nat>, lim: nat,
                  data': seq<byte>)
    requires ChainsOk(g, head, prev, data, base, ins, lim) && data <= data'
    ensures ChainsOk(g, head, prev, data', base, ins, lim)
  {
    forall h | 0 <= h < |head|
      ensures Entry(g, data', base, ins, head[h], h)
    {
      EntryGrows(g, data, base, ins, head[h], h, data', ins);
    }
    forall h | 0 <= h < |head|
      ensures Newest(g, data', base, ins, head[h], h, lim)
    {
      assert Newest(g, data, base, ins, head[h], h, lim);
      if lim > 0 {
        NewestGrows(g, data, base, ins, head[h], h, lim, data', ins);
      }
    }
    hide Newest, Entry, HashAt;
    forall a | a in ins && a > base && a + g.wsize >= lim
      ensures Linked(g, prev, data', base, ins, a)
    {
      LinkedGrows(g, prev, data, base, ins, a, data', ins);
    }
  }

  lemma NegMul(w: nat, d: int)
    ensures w * (-d) == -(w * d)
  {
  }

  /** The only multiple of w that is less than w away from zero is zero. */
  lemma SmallMultiple(w: nat, d: int, e: int)
    requires w * d == e && e < w && -e < w
    ensures d == 0 && e == 0
  {
    if d >= 1 {
      MulMono(w, 1, d);
    } else if d <= -1 {
      NegMul(w, d);
      MulMono(w, 1, -d);
    }
  }

  /** Positions with the same remainder are a multiple of w apart. */
  lemma SameSlot(a: nat, b: nat, w: nat)
    requires w > 0
    ensures b - a == w * (b / w - a / w) + (b % w - a % w)
  {
  }

  /** Different positions less than a window apart have different links. */
  lemma SlotApart(a: nat, b: nat, w: nat)
    requires w > 0 && a < b < a + w
    ensures a % w != b % w
  {
    SameSlot(a, b, w);
    if a % w == b % w {
      SmallMultiple(w, b / w - a / w, b - a);
    }
  }

  /** The positions inserted once str has been. Window index 0 is never matched. */
  function Inserted(ins: set<nat>, base: nat, str: nat): set<nat> {
    if str == 0 then ins else ins + {base + str}
  }

  lemma InsertedMore(ins: set<nat>, base: nat, str: nat)
    ensures ins <= Inserted(ins, base, str) && (str > 0 ==> base + str in Inserted(ins, base, str))
  {
  }

  /** INSERT_STRING. */
  lemma InsertKeeps(g: Config, head: seq<nat>, prev: seq<nat>, data: seq<byte>, base: nat, ins: set<nat>, lim: nat,
                    str: nat, h: nat)
    requires ChainsOk(g, head, prev, data, base, ins, lim) && lim <= base + str && base + str + 2 < |data|
    requires h < |head| && h == HashAt(g, data, base + str)
    ensures ChainsOk(g, head[h := str], prev[str % g.wsize := head[h]], data, base, Inserted(ins, base, str),
      base + str + 1)
  {
    var p, ins', lim' := base + str, Inserted(ins, base, str), base + str + 1;
    var head', prev' := head[h := str], prev[str % g.wsize := head[h]];
    ModBase(base, str, g.wsize);
    forall k | 0 <= k < |head'|
      ensures Entry(g, data, base, ins', head'[k], k)
    {
      assert Entry(g, data, base, ins, head[k], k);
      EntryGrows(g, data, base, ins, head[k], k, data, ins');
    }
    assert Entry(g, data, base, ins, head[h], h);
    EntryGrows(g, data, base, ins, head[h], h, data, ins');
    hide HashAt;
    forall k | 0 <= k < |head'|
      ensures Newest(g, data, base, ins', head'[k], k, lim')
    {
      assert Newest(g, data, base, ins, head[k], k, lim);
    }
    assert Newest(g, data, base, ins, head[h], h, lim);
    NewestMore(g, data, base, ins, head[h], h, lim, str);
    hide Newest, Entry;
    forall a | a in ins' && a > base && a + g.wsize >= lim'
      ensures Linked(g, prev', data, base, ins', a)
    {
      if a in ins {
        LinkedGrows(g, prev, data, base, ins, a, data, ins');
        SlotApart(a, p, g.wsize);
      }
    }
  }

  /** The entry found is the newest below the string inserted now. */
  lemma NewestMore(g: Config, data: seq<byte>, base: nat, ins: set<nat>, v: nat, h: nat, lim: nat, str: nat)
    requires Newest(g, data, base, ins, v, h, lim) && (forall a :: a in ins ==> a < lim) && lim <= base + str
    ensures Newest(g, data, base, Inserted(ins, base, str), v, h, base + str)
  {
    hide HashAt;
  }

  lemma ModBase(base: nat, str: nat, w: nat)
    requires w > 0 && base % w == 0
    ensures (base + str) % w == str % w
  {
    var q := base / w;
    assert base == w * q;
    ModMul(q, str, w);
  }

  lemma {:induction false} ModMul(q: nat, str: nat, w: nat)
    requires w > 0
    ensures (w * q + str) % w == str % w
    decreases q
  {
    if q > 0 {
      ModMul(q - 1, str, w);
      assert w * q + str == (w * (q - 1) + str) + w;
      ModStep(w * (q - 1) + str, w);
    }
  }

  lemma ModStep(x: nat, w: nat)
    requires w > 0
    ensures (x + w) % w == x % w
  {
    SameSlot(x, x + w, w);
    var d := (x + w) / w - x / w - 1;
    assert w * (d + 1) == w * d + w;
    SmallMultiple(w, d, x % w - (x + w) % w);
  }

  /** An entry after the window has slid. */
  function Slid(m: nat, w: nat): nat {
    if m >= w then m - w else NIL
  }

  ghost predicate AllSlid(a: seq<nat>, b: seq<nat>, w: nat) {
    |a| == |b| && forall i :: 0 <= i < |a| ==> b[i] == Slid(a[i], w)
  }

  lemma EntrySlides(g: Config, data: seq<byte>, base: nat, ins: set<nat>, v: nat, h: nat)
    requires Entry(g, data, base, ins, v, h)
    ensures Entry(g, data, base + g.wsize, ins, Slid(v, g.wsize), h)
  {
  }

  /** slide_hash: every entry still in the window keeps its position in the input. */
  lemma SlideKeeps(g: Config, head: seq<nat>, prev: seq<nat>, data: seq<byte>, base: nat, ins: set<nat>, lim: nat,
                   head': seq<nat>, prev': seq<nat>)
    requires ChainsOk(g, head, prev, data, base, ins, lim) && AllSlid(head, head', g.wsize)
    requires AllSlid(prev, prev', g.wsize)
    ensures ChainsOk(g, head', prev', data, base + g.wsize, ins, lim)
  {
    ModStep(base, g.wsize);
    forall h | 0 <= h < |head'|
      ensures Entry(g, data, base + g.wsize, ins, head'[h], h)
    {
      EntrySlides(g, data, base, ins, head[h], h);
    }
    forall h | 0 <= h < |head'|
      ensures Newest(g, data, base + g.wsize, ins, head'[h], h, lim)
    {
      assert Newest(g, data, base, ins, head[h], h, lim);
      NewestSlides(g, data, base, ins, head[h], h, lim);
    }
    hide HashAt, Newest, Entry;
    forall a | a in ins && a > base + g.wsize && a + g.wsize >= lim
      ensures Linked(g, prev', data, base + g.wsize, ins, a)
    {
      assert Linked(g, prev, data, base, ins, a);
      EntrySlides(g, data, base, ins, prev[a % g.wsize], HashAt(g, data, a));
      NewestSlides(g, data, base, ins, prev[a % g.wsize], HashAt(g, data, a), a);
    }
  }

  lemma NewestSlides(g: Config, data: seq<byte>, base: nat, ins: set<nat>, v: nat, h: nat, a: nat)
    requires Newest(g, data, base, ins, v, h, a)
    ensures Newest(g, data, base + g.wsize, ins, Slid(v, g.wsize), h, a)
  {
    hide HashAt;
  }
}
