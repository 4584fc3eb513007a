/** deflate.c: reading input into the window, keeping the hash chains, and finding matches. */
module Matcher {
  import opened Bits
  import opened Buffers
  import opened Hash
  import opened Chains
  import opened Lz77
  import opened Choices

  /** The window holds the input from position base on. */
  ghost predicate Shows(w: seq<byte>, data: seq<byte>, base: nat, end: nat) {
    base <= |data| && base + end == |data| && end <= |w| && w[..end] == data[base..]
  }

  lemma ShownAt(w: seq<byte>, data: seq<byte>, base: nat, end: nat, i: nat)
    requires Shows(w, data, base, end) && i < end
    ensures w[i] == data[base + i]
  {
    assert w[..end][i] == data[base..][i];
  }

  /** slide_hash, for one of the two tables. */
  method SlideTable(a: array<nat>, wsize: nat)
    modifies a
    ensures AllSlid(old(a[..]), a[..], wsize)
  {
    var n := a.Length;
    while n != 0
      invariant 0 <= n <= a.Length
      invariant forall i :: 0 <= i < n ==> a[i] == old(a[i])
      invariant forall i :: n <= i < a.Length ==> a[i] == Slid(old(a[i]), wsize)
    {
      n := n - 1;
      var m := a[n];
      a[n] := if m >= wsize then m - wsize else NIL;
    }
  }

  /** zmemcpy of the upper part of the window to its start. */
  method MoveDown(a: array<byte>, far: nat, n: nat)
    requires far + n <= a.Length
    modifies a
    ensures a[..] == old(a[far..far + n]) + old(a[n..])
  {
    for i := 0 to n
      invariant forall k :: 0 <= k < i ==> a[k] == old(a[far..])[k]
      invariant forall k :: i <= k < a.Length ==> a[k] == old(a[k])
    {
      a[i] := a[far + i];
    }
    assert old(a[far..far + n]) == old(a[far..])[..n];
    assert forall k :: n <= k < a.Length ==> old(a[n..])[k - n] == old(a[k]);
  }

  class Finder {
    const g: Config
    const window: array<byte>
    const head: array<nat>
    const prev: array<nat>
    var strstart: nat
    var lookahead: nat
    var insert: nat
    var insH: nat
    var matchStart: int
    var input: seq<byte>
    /** All input read, the position of the window's first byte, and the positions in the
        chains. */
    ghost var data: seq<byte>
    ghost var base: nat
    ghost var ins: set<nat>
    ghost var lim: nat

    ghost predicate Sizes() {
      && g.Ok() && window.Length == 2 * g.wsize && head.Length == Pow2(g.bits) && prev.Length == g.wsize
      && head != prev
    }

    ghost predicate Valid()
      reads this, window, head, prev
    {
      && Sizes() && Shows(window[..], data, base, strstart + lookahead)
      && ChainsOk(g, head[..], prev[..], data, base, ins, lim)
    }

    /** Where the next byte to be coded stands in the input. */
    ghost function Pos(): nat
      reads this
    {
      base + strstart
    }

    /** The running hash is ready for the string at window index str. */
    ghost predicate PrimedAt(str: nat)
      reads this
    {
      base + str + 1 < |data| && Primed(g.bits, g.shift, insH, data[base + str], data[base + str + 1])
    }

    /** The strings before the current one that are still to be inserted are not in yet. */
    ghost predicate Pending()
      reads this
    {
      insert <= strstart && lim + insert <= base + strstart
    }

    constructor (g: Config, input: seq<byte>)
      requires g.Ok()
      ensures this.g == g && this.input == input && Valid() && Pending() && data == [] && Pos() == 0 && lookahead == 0
      ensures strstart == 0 && fresh(window) && fresh(head) && fresh(prev)
    {
      this.g := g;
      this.input := input;
      window, head, prev := new byte[2 * g.wsize], new nat[Pow2(g.bits)](_ => 0), new nat[g.wsize](_ => 0);
      strstart, lookahead, insert, insH, matchStart := 0, 0, 0, 0, 0;
      data, base, ins, lim := [], 0, {}, 0;
    }

    /** With three bytes ahead, nothing is left to insert before the current string. */
    ghost predicate Ready()
      reads this
    {
      lookahead >= MIN_MATCH ==> insert == 0 && PrimedAt(strstart)
    }

    /** INSERT_STRING: enter the string at str, and find the last one of the same hash. */
    method Insert(str: nat) returns (hashHead: nat)
      requires Valid() && PrimedAt(str) && base + str + 2 < |data| && lim <= base + str
      modifies this`insH, this`ins, this`lim, head, prev
      ensures Valid() && lim == base + str + 1 && ins == Inserted(old(ins), base, str)
      ensures PrimedAt(str + 1)
      ensures Entry(g, data, base, old(ins), hashHead, HashAt(g, data, base + str))
      ensures Newest(g, data, base, ins, hashHead, HashAt(g, data, base + str), base + str)
      ensures (hashHead != NIL ==> hashHead < str)
    {
      hide Upd, H3, Shows, ChainsOk, Entry, Newest;
      EndFits(window[..], data, base, strstart + lookahead);
      ShownAt(window[..], data, base, strstart + lookahead, str + 2);
      PrimeStep(g.bits, g.shift, insH, data[base + str], data[base + str + 1], data[base + str + 2]);
      HashBound(g.bits, g.shift, insH, window[str + 2]);
      insH := Upd(g.bits, g.shift, insH, window[str + 2]);
      assert insH == HashAt(g, data, base + str);
      InsertKeeps(g, head[..], prev[..], data, base, ins, lim, str, insH);
      HeadEntry(g, head[..], prev[..], data, base, ins, lim, insH);
      NewestMore(g, data, base, ins, head[insH], insH, lim, str);
      hashHead := head[insH];
      prev[str % g.wsize] := head[insH];
      head[insH] := str;
      ins, lim := Inserted(ins, base, str), base + str + 1;
    }

    /** Start the running hash with two bytes of the window. */
    method Prime(str: nat)
      requires Sizes() && str + 1 < window.Length
      modifies this`insH
      ensures Shows(window[..], data, base, strstart + lookahead) && str + 1 < strstart + lookahead ==> PrimedAt(str)
    {
      PrimeStart(g.bits, g.shift, window[str], window[str + 1]);
      insH := Upd(g.bits, g.shift, window[str], window[str + 1]);
      if Shows(window[..], data, base, strstart + lookahead) && str + 1 < strstart + lookahead {
        ShownAt(window[..], data, base, strstart + lookahead, str);
        ShownAt(window[..], data, base, strstart + lookahead, str + 1);
      }
    }

    /** fill_window, first part: move the upper half of the window down. Nothing moves in
        the input. */
    method Slide()
      requires Valid() && Pending() && strstart >= g.wsize
      modifies this`strstart, this`insert, this`matchStart, this`base, window, head, prev
      ensures Valid() && Pending() && base == old(base) + g.wsize && strstart == old(strstart) - g.wsize
      ensures matchStart == old(matchStart) - g.wsize && (old(insert) == 0 ==> insert == 0)
    {
      hide Shows, ChainsOk;
      ghost var w, h, p := window[..], head[..], prev[..];
      EndFits(w, data, base, strstart + lookahead);
      MoveDown(window, g.wsize, strstart + lookahead - g.wsize);
      ShowsSlid(w, window[..], data, base, g.wsize, strstart + lookahead);
      matchStart := matchStart - g.wsize;
      strstart := strstart - g.wsize;
      if insert > strstart {
        insert := strstart;
      }
      SlideTable(head, g.wsize);
      SlideTable(prev, g.wsize);
      SlideKeeps(g, h, p, data, base, ins, lim, head[..], prev[..]);
      base := base + g.wsize;
    }

    /** read_buf: append to the window what input there is and space for. */
    method Read(more: nat)
      requires Valid() && strstart + lookahead + more == 2 * g.wsize
      modifies this`lookahead, this`input, this`data, window
      ensures Valid() && data + input == old(data) + old(input)
      ensures lookahead == old(lookahead) + (if more <= |old(input)| then more else |old(input)|)
      ensures old(data) <= data && |input| + lookahead == old(|input| + lookahead)
    {
      hide Shows, ChainsOk;
      var n := if |input| > more then more else |input|;
      ghost var w, end := window[..], strstart + lookahead;
      CopyIn(window, strstart + lookahead, input[..n]);
      ShowsRead(w, window[..], data, base, end, input[..n]);
      ReadKeeps(g, head[..], prev[..], data, base, ins, lim, data + input[..n]);
      assert data + input[..n] + input[n..] == data + input;
      data := data + input[..n];
      input := input[n..];
      lookahead := lookahead + n;
    }

    /** fill_window, last part: start the hash and enter strings left over. */
    method Reprime()
      requires Valid() && Pending()
      modifies this`insert, this`insH, this`ins, this`lim, head, prev
      ensures Valid() && Pending()
      ensures Ready() && old(ins) <= ins
    {
      hide Shows, ChainsOk, Primed;
      EndFits(window[..], data, base, strstart + lookahead);
      if lookahead + insert >= MIN_MATCH {
        var str := strstart - insert;
        Prime(str);
        while insert != 0
          invariant Valid() && Pending() && str == strstart - insert && lookahead + insert >= MIN_MATCH && PrimedAt(str)
          invariant old(ins) <= ins
          decreases insert
        {
          var _ := Insert(str);
          str := str + 1;
          insert := insert - 1;
          if lookahead + insert < MIN_MATCH {
            break;
          }
        }
      }
    }

    /** fill_window: read input until enough is ahead or there is none left. One read fills
        the window or takes all input, so the source's loop never goes round again. */
    method FillWindow()
      requires Valid() && Pending() && Ready() && lookahead < MIN_LOOKAHEAD
      modifies this`strstart, this`lookahead, this`insert, this`insH, this`matchStart, this`input, this`data, this`base,
        this`ins, this`lim,
        window, head, prev
      ensures Valid() && Pending() && Ready() && Pos() == old(Pos()) && base + matchStart == old(base + matchStart)
      ensures old(data) <= data && data + input == old(data + input)
      ensures strstart + MIN_LOOKAHEAD <= 2 * g.wsize && (old(strstart) > 0 ==> strstart > 0)
      ensures lookahead < MIN_LOOKAHEAD ==> input == []
      ensures old(ins) <= ins
      ensures (base == old(base) && strstart == old(strstart)) || strstart >= g.MaxDist()
    {
      hide Shows, ChainsOk, Primed;
      EndFits(window[..], data, base, strstart + lookahead);
      if strstart >= g.wsize + g.MaxDist() {
        Slide();
        EndFits(window[..], data, base, strstart + lookahead);
      }
      if input == [] {
        return;
      }
      Read(2 * g.wsize - lookahead - strstart);
      Reprime();
    }

    /** How far the strings at two window indices agree, given that three bytes do. The
        comparison may run on past the input, into bytes that mean nothing. */
    method Compare(a: nat, b: nat) returns (len: nat)
      requires a < b && b + MAX_MATCH < window.Length && a >= 0
      requires window[a] == window[b] && window[a + 1] == window[b + 1] && window[a + 2] == window[b + 2]
      ensures 3 <= len <= MAX_MATCH && window[a..a + len] == window[b..b + len]
      ensures len == MAX_MATCH || window[a + len] != window[b + len]
    {
      len := 2;
      while true
        invariant 2 <= len < MAX_MATCH
        invariant forall k :: 0 <= k <= len ==> window[a..][k] == window[b..][k]
        decreases MAX_MATCH - len
      {
        len := len + 1;
        if window[a + len] != window[b + len] || len == MAX_MATCH {
          break;
        }
      }
      assert forall k :: 0 <= k < len ==> window[a..][k] == window[b..][k];
      assert window[a..a + len] == window[a..][..len] && window[b..b + len] == window[b..][..len];
    }

    /** The strings differ within the first n + 1 bytes, so they agree in no more than n. */
    ghost predicate Differs(c: nat, n: nat)
      requires c < strstart && strstart + MAX_MATCH < window.Length
      reads this`strstart, window
    {
      n >= MAX_MATCH || exists j :: 0 <= j <= n && DifferAt(c, j)
    }

    ghost predicate DifferAt(c: nat, j: nat)
      reads this`strstart, window
    {
      c < strstart && strstart + j < window.Length && window[c + j] != window[strstart + j]
    }

    lemma DiffersMore(c: nat, n: nat, n': nat)
      requires c < strstart && strstart + MAX_MATCH < window.Length && Differs(c, n) && n <= n'
      ensures Differs(c, n')
    {
    }

    /** An earlier string in the window that was inserted and has the hash of the current
        one. */
    ghost predicate Rival(p: nat)
      reads this`strstart, this`base, this`ins, this`data
    {
      && p in ins && base < p < base + strstart && base + strstart + 2 < |data|
      && HashAt(g, data, p) == HashAt(g, data, base + strstart)
    }

    /** No rival comes after window index c. */
    ghost predicate Latest(c: nat)
      reads this`strstart, this`base, this`ins, this`data
    {
      base + strstart + 2 < |data| &&
      Newest(g, data, base, ins, c, HashAt(g, data, base + strstart), base + strstart)
    }

    /** No rival is between two window indices. */
    ghost predicate NoneBetween(c: nat, d: nat)
      reads this`strstart, this`base, this`ins, this`data
    {
      forall p: nat :: Rival(p) && p < base + d ==> p <= base + c
    }

    /** No rival from window index c on has a match longer than n. */
    ghost predicate LongestFrom(c: nat, n: nat)
      reads this`strstart, this`base, this`ins, this`data, this`lookahead
    {
      forall p: nat, l: nat :: Rival(p) && base + c <= p && Matched(p, l) ==> l <= n
    }

    /** The rivals from window index c on. */
    ghost function Above(c: nat): set<nat>
      reads this`strstart, this`base, this`ins, this`data
    {
      set p | p in ins && Rival(p) && base + c <= p
    }

    /** Rivals before window index c are out of reach. */
    ghost predicate AllOut(c: nat)
      requires g.Ok()
      reads this`strstart, this`base, this`ins, this`data
    {
      forall p: nat :: Rival(p) && p < base + c ==> base + strstart - p >= g.MaxDist()
    }

    /** The string at p matches l bytes of the current one, of those ahead. */
    ghost predicate Matched(p: nat, l: nat)
      reads this`strstart, this`base, this`data, this`lookahead
    {
      l <= lookahead && l <= MAX_MATCH && MatchAt(data, base + strstart, p, l)
    }

    /** All rivals from window index c on differ from the current string after at most n
        bytes. */
    ghost predicate NoneBetter(c: nat, n: nat)
      requires strstart + MAX_MATCH < window.Length
      reads this`strstart, this`base, this`ins, this`data, window
    {
      forall p: nat :: Rival(p) && base + c <= p ==> Differs(p - base, n)
    }

    /** Whether the string at cur may be a longer match: the bytes at its start and where
        the best match so far ends. */
    method Promising(cur: nat, best: nat) returns (ok: bool)
      requires 1 <= best <= MAX_MATCH && cur < strstart && strstart + MAX_MATCH < window.Length
      ensures ok ==> window[cur] == window[strstart] && window[cur + 1] == window[strstart + 1]
      ensures !ok ==> Differs(cur, best)
    {
      assert (!DifferAt(cur, best) && !DifferAt(cur, best - 1) && !DifferAt(cur, 0) && !DifferAt(cur, 1)) ||
        Differs(cur, best);
      ok := window[cur + best] == window[strstart + best] && window[cur + best - 1] == window[strstart + best - 1]
        && window[cur] == window[strstart] && window[cur + 1] == window[strstart + 1];
    }

    /** The chain of the current string: in reach, earlier, and of its hash. */
    ghost predicate OnChain(cur: nat)
      reads this`strstart, this`base, this`ins, this`data
      requires g.Ok()
    {
      && 0 < cur < strstart && strstart - cur <= g.MaxDist() && base + cur in ins
      && base + strstart + 2 < |data| && base + cur + 2 < |data|
      && HashAt(g, data, base + cur) == HashAt(g, data, base + strstart)
    }

    /** The next string on the chain, if it is in reach. */
    method Follow(cur: nat, limit: nat) returns (next: nat)
      requires Valid() && OnChain(cur) && lim == base + strstart + 1
      requires limit == if strstart > g.MaxDist() then strstart - g.MaxDist() else NIL
      ensures next > limit ==> next < cur && OnChain(next)
      ensures NoneBetween(next, cur)
    {
      hide Shows, HashAt;
      ModBase(base, cur, g.wsize);
      assert Linked(g, prev[..], data, base, ins, base + cur);
      next := prev[cur % g.wsize];
    }

    /** The best match so far starts on the chain and agrees that far. */
    ghost predicate Best(best: nat)
      requires g.Ok()
      reads this, window
    {
      matchStart >= 0 && Agrees(matchStart, best)
    }

    ghost predicate Agrees(m: nat, len: nat)
      requires g.Ok()
      reads this`strstart, this`base, this`ins, this`data, window
    {
      && OnChain(m) && strstart + len <= window.Length
      && window[m..m + len] == window[strstart..strstart + len]
    }

    /** One string of the chain against the best match so far. */
    method Try(cur: nat, prevLength: nat, best: nat, nice: nat) returns (best': nat, stop: bool)
      requires Valid() && OnChain(cur) && strstart + MIN_LOOKAHEAD <= 2 * g.wsize && lookahead >= MIN_MATCH
      requires 1 <= prevLength <= best <= MAX_MATCH && (best > prevLength ==> Best(best))
      modifies this`matchStart
      ensures best <= best' <= MAX_MATCH && (best' > prevLength ==> Best(best'))
      ensures cur < strstart && Differs(cur, best') && (stop ==> best' >= nice)
      ensures if best' > best then matchStart == cur && (stop <==> best' >= nice) else matchStart == old(matchStart)
    {
      hide Shows, ChainsOk, HashAt, OnChain, Agrees, Differs;
      Earlier(cur);
      best', stop := best, false;
      var l := Measure(cur, best);
      if l > best {
        matchStart := cur;
        best', stop := l, l >= nice;
      }
    }

    lemma Earlier(cur: nat)
      requires g.Ok() && OnChain(cur)
      ensures 0 < cur < strstart
    {
    }

    /** How far a string of the chain agrees, if it can be a longer match. */
    method Measure(cur: nat, best: nat) returns (len: nat)
      requires Valid() && OnChain(cur) && strstart + MIN_LOOKAHEAD <= 2 * g.wsize && lookahead >= MIN_MATCH
      requires 1 <= best <= MAX_MATCH
      ensures len <= MAX_MATCH && (len > best ==> Agrees(cur, len))
      ensures cur < strstart && Differs(cur, if len > best then len else best)
    {
      hide Shows, ChainsOk, HashAt;
      len := 0;
      var ok := Promising(cur, best);
      if ok {
        SameThird(cur);
        len := Compare(cur, strstart);
        assert len == MAX_MATCH || DifferAt(cur, len);
        if len <= best {
          DiffersMore(cur, len, best);
        }
      }
    }

    /** longest_match: the longest match of the current string on the part of its chain that
        is searched, if longer than prevLength, cut to what is ahead. The search goes down to
        window index `low` and takes in every rival there; it ends when no rival is in reach
        below, when the match is good enough, or when the strings tried are as many as the
        level allows. The match is the nearest of its length. */
    method LongestMatch(curMatch: nat, prevLength: nat, maxChain: int, goodMatch: nat, niceMatch: nat)
        returns (len: nat, ghost low: nat)
      requires Valid() && OnChain(curMatch) && lim == base + strstart + 1
      requires Latest(curMatch)
      requires strstart + MIN_LOOKAHEAD <= 2 * g.wsize && 1 <= prevLength <= MAX_MATCH && lookahead >= MIN_MATCH
      modifies this`matchStart
      ensures len <= lookahead && len <= MAX_MATCH && (len >= prevLength || len == lookahead)
      ensures len > prevLength ==> matchStart < strstart <= matchStart + g.MaxDist()
      ensures len > prevLength ==> MatchAt(data, base + strstart, base + matchStart, len)
      ensures len > prevLength ==> matchStart > 0 && base + matchStart in ins && LongestFrom(matchStart + 1, len - 1)
      ensures LongestFrom(low, if len > prevLength then len else prevLength)
      ensures
        || AllOut(low)
        || len >= (if niceMatch > lookahead then lookahead else niceMatch)
        || |Above(low)| == if prevLength >= goodMatch then maxChain / 4 else maxChain
    {
      hide Shows, ChainsOk, HashAt, MatchAt, Best, NoneBetter, LongestFrom, AllOut, Latest, OnChain, Above;
      var chain := if prevLength >= goodMatch then maxChain / 4 else maxChain;
      var nice := if niceMatch > lookahead then lookahead else niceMatch;
      var best;
      ghost var was;
      best, low, was := SearchChain(curMatch, prevLength, chain, nice);
      len := if best <= lookahead then best else lookahead;
      if len > prevLength {
        BestIsMatch(best, len);
        BestStart(best);
        AllShorter(matchStart + 1, was, len - 1);
      }
      AllShorter(low, best, if len > prevLength then len else prevLength);
    }

    /** The loop: string after string of the chain. */
    method SearchChain(curMatch: nat, prevLength: nat, chain0: int, nice: nat)
        returns (best: nat, ghost low: nat, ghost was: nat)
      requires Valid() && OnChain(curMatch) && lim == base + strstart + 1 && Latest(curMatch)
      requires strstart + MIN_LOOKAHEAD <= 2 * g.wsize && 1 <= prevLength <= MAX_MATCH && lookahead >= MIN_MATCH
      modifies this`matchStart
      ensures prevLength <= best <= MAX_MATCH && (best > prevLength ==> Best(best)) && NoneBetter(low, best)
      ensures AllOut(low) || best >= nice || |Above(low)| == chain0
      ensures best > prevLength ==> matchStart >= 0 && NoneBetter(matchStart + 1, was) && was < best
      ensures best > prevLength ==> was == prevLength || was < nice
    {
      hide Shows, ChainsOk, HashAt, MatchAt, Best, NoneBetter, NoneBetween, AllOut, Differs, Latest, Newest, OnChain,
        Above;
      var limit := if strstart > g.MaxDist() then strstart - g.MaxDist() else NIL;
      var cur: nat, chain := curMatch, chain0;
      best, was := prevLength, prevLength;
      StartSearch(curMatch, best);
      while true
        invariant OnChain(cur) && prevLength <= best <= MAX_MATCH
        invariant best > prevLength ==> Best(best)
        invariant NoneBetter(cur + 1, best) && chain == chain0 - |Above(cur + 1)|
        invariant best > prevLength ==> matchStart >= 0 && NoneBetter(matchStart + 1, was) && was < best < nice
        invariant best > prevLength ==> was == prevLength || was < nice
        decreases cur
      {
        var stop;
        ghost var best0 := best;
        best, stop := Try(cur, prevLength, best, nice);
        if best > best0 {
          was := best0;
        }
        OneMore(cur);
        TriedOne(cur, best0, best);
        low := cur;
        if stop {
          break;
        }
        var next := Follow(cur, limit);
        if next <= limit {
          OutOfReach(cur, next, limit);
          break;
        }
        NextRival(cur, next, best);
        NoneMore(cur, next);
        chain := chain - 1;
        if chain == 0 {
          break;
        }
        cur := next;
      }
    }

    lemma StartSearch(curMatch: nat, n: nat)
      requires Valid() && OnChain(curMatch) && strstart + MAX_MATCH < window.Length
      requires Latest(curMatch)
      ensures NoneBetter(curMatch + 1, n) && Above(curMatch + 1) == {}
    {
      hide HashAt, ChainsOk, Shows;
    }

    lemma OneMore(cur: nat)
      requires g.Ok() && OnChain(cur)
      ensures |Above(cur)| == |Above(cur + 1)| + 1
    {
      hide HashAt;
      assert Above(cur) == Above(cur + 1) + {base + cur};
    }

    lemma NoneMore(cur: nat, next: nat)
      requires next < cur && NoneBetween(next, cur)
      ensures Above(cur) == Above(next + 1)
    {
      hide HashAt;
    }

    lemma BestStart(best: nat)
      requires g.Ok() && Best(best)
      ensures matchStart > 0 && base + matchStart in ins
    {
    }

    lemma TriedOne(cur: nat, n: nat, n': nat)
      requires cur < strstart && strstart + MAX_MATCH < window.Length && n <= n'
      requires NoneBetter(cur + 1, n) && Differs(cur, n')
      ensures NoneBetter(cur, n')
    {
      hide HashAt;
      forall p: nat | Rival(p) && base + cur <= p
        ensures Differs(p - base, n')
      {
        if p != base + cur {
          DiffersMore(p - base, n, n');
        }
      }
    }

    lemma NextRival(cur: nat, next: nat, n: nat)
      requires strstart + MAX_MATCH < window.Length && next < cur && NoneBetter(cur, n)
      requires NoneBetween(next, cur)
      ensures NoneBetter(next + 1, n)
    {
      hide HashAt, Differs;
    }

    lemma OutOfReach(cur: nat, next: nat, limit: nat)
      requires g.Ok() && next <= limit && (limit == if strstart > g.MaxDist() then strstart - g.MaxDist() else NIL)
      requires NoneBetween(next, cur)
      ensures AllOut(cur)
    {
      hide HashAt;
    }

    lemma AllShorter(low: nat, best: nat, n: nat)
      requires Valid() && strstart + MAX_MATCH < window.Length && NoneBetter(low, best)
      requires n >= if best <= lookahead then best else lookahead
      ensures LongestFrom(low, n)
    {
      hide HashAt, ChainsOk, Shows, MatchAt, NoneBetter;
      forall p: nat, l: nat | Rival(p) && base + low <= p && Matched(p, l)
        ensures l <= n
      {
        NotLonger(p, l, low, best);
      }
    }

    lemma NotLonger(p: nat, l: nat, low: nat, best: nat)
      requires Valid() && strstart + MAX_MATCH < window.Length && NoneBetter(low, best)
      requires Rival(p) && base + low <= p && Matched(p, l)
      ensures l <= best
    {
      hide HashAt, ChainsOk, Shows;
      var c, end := p - base, strstart + lookahead;
      if l > best {
        var j :| 0 <= j <= best && DifferAt(c, j);
        EndFits(window[..], data, base, end);
        ShownAt(window[..], data, base, end, c + j);
        ShownAt(window[..], data, base, end, strstart + j);
      }
    }

    lemma BestIsMatch(best: nat, len: nat)
      requires Valid() && Best(best) && len <= best && len <= lookahead
      ensures matchStart < strstart <= matchStart + g.MaxDist()
      ensures MatchAt(data, base + strstart, base + matchStart, len)
    {
      hide ChainsOk, HashAt, Shows;
      EndFits(window[..], data, base, strstart + lookahead);
      ShownMatch(window[..], data, base, strstart + lookahead, strstart, matchStart, best, len);
    }

    /** The search for the current string, down to window index low. */
    ghost function LookFrom(low: nat): Look
      reads this`strstart, this`base, this`ins, this`lookahead
    {
      Look(base + strstart, base, ins, lookahead, base + low)
    }

    /** What LongestMatch found, without the hashes: strings of another hash do not match three
        bytes. */
    lemma LookedAll(low: nat, c: nat, n: nat)
      requires Valid() && n >= MIN_MATCH - 1 && LongestFrom(c, n) && lookahead >= MIN_MATCH
      ensures NoLonger(data, LookFrom(low), base + c, n)
    {
      hide ChainsOk, Shows, HashAt;
      var k := LookFrom(low);
      EndFits(window[..], data, base, strstart + lookahead);
      forall p: nat, l: nat |
        Before(k, p) && base + c <= p && l <= k.ahead && l <= MAX_MATCH && MatchAt(data, k.pos, p, l)
        ensures l <= n
      {
        if l >= MIN_MATCH {
          SameHash(g, data, k.pos, p, l);
          assert Rival(p) && Matched(p, l);
        }
      }
    }

    lemma LookedEnough(r: Rules, prev: nat, low: nat, n: nat)
      requires Valid() && n >= MIN_MATCH - 1 && LongestFrom(low, n) && lookahead >= MIN_MATCH
      requires AllOut(low) || n >= r.niceMatch || n >= lookahead || |Above(low)| == r.Chain(prev)
      ensures Longest(g, data, r, LookFrom(low), prev, n)
    {
      LookedAll(low, low, n);
      hide ChainsOk, Shows, HashAt, LongestFrom, NoLonger;
      var k := LookFrom(low);
      EndFits(window[..], data, base, strstart + lookahead);
      assert forall p: nat :: Before(k, p) ==> (Alike(g, data, k, p) <==> Rival(p));
      assert Tried(g, data, k) == Above(low);
    }

    /** Where the chain is empty, or its first string is out of reach, nothing is to be searched. */
    lemma NothingToSearch(r: Rules, prev: nat, hashHead: nat, n: nat)
      requires Valid() && (lookahead >= MIN_MATCH ==> Latest(hashHead))
      requires hashHead == NIL || strstart - hashHead > g.MaxDist()
      ensures Longest(g, data, r, LookFrom(strstart), prev, n)
    {
      hide ChainsOk, Shows, HashAt;
      var k := LookFrom(strstart);
      EndFits(window[..], data, base, strstart + lookahead);
      forall p: nat | Before(k, p) && p < k.from && Alike(g, data, k, p)
        ensures k.pos - p >= g.MaxDist()
      {
        assert p <= base + hashHead;
      }
    }

    /** The nearest match of its length. */
    lemma NearestFound(low: nat, len: nat)
      requires Valid() && lookahead >= MIN_MATCH && MIN_MATCH <= len <= lookahead && len <= MAX_MATCH
      requires 0 < matchStart < strstart <= matchStart + g.MaxDist() && base + matchStart in ins
      requires MatchAt(data, base + strstart, base + matchStart, len) && LongestFrom(matchStart + 1, len - 1)
      ensures Nearest(g, data, LookFrom(low), base + matchStart, len)
    {
      LookedAll(low, matchStart + 1, len - 1);
      hide ChainsOk, Shows, HashAt, LongestFrom, NoLonger, MatchAt;
    }

    /** Equal hashes make the third bytes equal once the first two are. */
    lemma SameThird(cur: nat)
      requires Valid() && OnChain(cur) && lookahead >= MIN_MATCH
      requires window[cur] == window[strstart] && window[cur + 1] == window[strstart + 1]
      ensures window[cur + 2] == window[strstart + 2]
    {
      hide ChainsOk, H3;
      var end := strstart + lookahead;
      EndFits(window[..], data, base, end);
      ShownAt(window[..], data, base, end, cur);
      ShownAt(window[..], data, base, end, cur + 1);
      ShownAt(window[..], data, base, end, cur + 2);
      ShownAt(window[..], data, base, end, strstart);
      ShownAt(window[..], data, base, end, strstart + 1);
      ShownAt(window[..], data, base, end, strstart + 2);
      hide Shows;
      ThirdByte(g.bits, g.shift, data[base + strstart], data[base + strstart + 1], data[base + cur + 2],
        data[base + strstart + 2]);
    }
  }

  lemma SameHash(g: Config, data: seq<byte>, pos: nat, p: nat, l: nat)
    requires MatchAt(data, pos, p, l) && l >= 3
    ensures pos + 2 < |data| && HashAt(g, data, p) == HashAt(g, data, pos)
  {
    hide H3;
    var a, b := data[p..p + l], data[pos..pos + l];
    assert a[0] == data[p] && a[1] == data[p + 1] && a[2] == data[p + 2];
    assert b[0] == data[pos] && b[1] == data[pos + 1] && b[2] == data[pos + 2];
  }

  lemma HeadEntry(g: Config, head: seq<nat>, prev: seq<nat>, data: seq<byte>, base: nat, ins: set<nat>, lim: nat,
                  h: nat)
    requires ChainsOk(g, head, prev, data, base, ins, lim) && h < |head|
    ensures Entry(g, data, base, ins, head[h], h) && (head[h] != NIL ==> base + head[h] < lim)
    ensures Newest(g, data, base, ins, head[h], h, lim) && forall a :: a in ins ==> a < lim
  {
  }

  lemma EndFits(w: seq<byte>, data: seq<byte>, base: nat, end: nat)
    requires Shows(w, data, base, end)
    ensures end <= |w| && base + end == |data|
  {
  }

  /** A match in the window, as far as it shows input, is a match in the input. */
  lemma ShownMatch(w: seq<byte>, data: seq<byte>, base: nat, end: nat, str: nat, m: nat, best: nat, len: nat)
    requires Shows(w, data, base, end) && m < str && str + len <= end && len <= best && str + best <= |w|
    requires w[m..m + best] == w[str..str + best]
    ensures MatchAt(data, base + str, base + m, len)
  {
    SliceOf(w, m, m + best, 0, len);
    SliceOf(w, str, str + best, 0, len);
    SliceOf(w, 0, end, m, len);
    SliceOf(w, 0, end, str, len);
    SliceOf(data, base, |data|, m, len);
    SliceOf(data, base, |data|, str, len);
    assert data[base..] == data[base..|data|] && w[..end] == w[0..end];
  }

  lemma ShowsSlid(w: seq<byte>, w': seq<byte>, data: seq<byte>, base: nat, wsize: nat, end: nat)
    requires Shows(w, data, base, end) && |w| == 2 * wsize && wsize <= end
    requires w' == w[wsize..end] + w[end - wsize..]
    ensures Shows(w', data, base + wsize, end - wsize)
  {
    assert w'[..end - wsize] == w[wsize..end];
    assert w[wsize..end] == w[..end][wsize..];
    assert data[base..][wsize..] == data[base + wsize..];
  }

  lemma ShowsRead(w: seq<byte>, w': seq<byte>, data: seq<byte>, base: nat, end: nat, more: seq<byte>)
    requires Shows(w, data, base, end) && end + |more| <= |w| && w' == w[..end] + more + w[end + |more|..]
    ensures Shows(w', data + more, base, end + |more|)
  {
    assert w'[..end + |more|] == w[..end] + more;
    assert (data + more)[base..] == data[base..] + more;
  }
}
