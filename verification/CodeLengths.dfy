/** trees.c: code lengths sent as run-length symbols (section 3.2.7 of RFC 1951). */
module CodeLengths {
  import opened Bits
  import opened Canonical
  import opened BitWriter

  const REP_3_6 := 16
  const REPZ_3_10 := 17
  const REPZ_11_138 := 18
  const BL_CODES := 19
  const GUARD := 0xffff

  /** A code length symbol and the value of its extra bits. */
  datatype Token = Token(sym: nat, extra: nat)

  function ExtraBits(sym: nat): nat {
    if sym == REP_3_6 then 2 else if sym == REPZ_3_10 then 3 else if sym == REPZ_11_138 then 7 else 0
  }

  ghost predicate ValidToken(t: Token) {
    t.sym < BL_CODES && t.extra < Pow2(ExtraBits(t.sym))
  }

  // ---- What the symbols mean ----

  /** The lengths known after one more symbol. */
  function Apply(lens: seq<nat>, t: Token): seq<nat> {
    if t.sym < REP_3_6 then lens + [t.sym]
    else if t.sym == REP_3_6 then
      if lens == [] then lens else lens + Copies(lens[|lens| - 1], 3 + t.extra)
    else if t.sym == REPZ_3_10 then lens + Copies(0, 3 + t.extra)
    else lens + Copies(0, 11 + t.extra)
  }

  function ApplyAll(lens: seq<nat>, ts: seq<Token>): seq<nat>
    decreases |ts|
  {
    if ts == [] then lens else ApplyAll(Apply(lens, ts[0]), ts[1..])
  }

  lemma {:induction false} ApplyCat(lens: seq<nat>, a: seq<Token>, b: seq<Token>)
    ensures ApplyAll(lens, a + b) == ApplyAll(ApplyAll(lens, a), b)
    decreases |a|
  {
    if a == [] {
      assert a + b == b;
    } else {
      assert (a + b)[1..] == a[1..] + b;
      ApplyCat(Apply(lens, a[0]), a[1..], b);
    }
  }

  /** A repeat of the previous length never comes first. */
  ghost predicate Legal(lens: seq<nat>, ts: seq<Token>)
    decreases |ts|
  {
    ts == [] || (ValidToken(ts[0]) && (ts[0].sym == REP_3_6 ==> lens != []) && Legal(Apply(lens, ts[0]), ts[1..]))
  }

  lemma {:induction false} LegalCat(lens: seq<nat>, a: seq<Token>, b: seq<Token>)
    ensures Legal(lens, a + b) <==> Legal(lens, a) && Legal(ApplyAll(lens, a), b)
    decreases |a|
  {
    if a == [] {
      assert a + b == b;
    } else {
      assert (a + b)[1..] == a[1..] + b;
      LegalCat(Apply(lens, a[0]), a[1..], b);
    }
  }

  // ---- What is sent ----

  function MaxCount(cur: nat, prev: int): nat {
    if cur == 0 then 138 else if cur == prev then 6 else 7
  }

  function MinCount(cur: nat, prev: int): nat {
    if cur == 0 || cur == prev then 3 else 4
  }

  /** The symbols for a run of `count` lengths `cur` that follows a length `prev`. */
  function RunTokens(cur: nat, count: nat, prev: int): seq<Token>
    requires 0 < count <= MaxCount(cur, prev)
  {
    if count < MinCount(cur, prev) then Plain(cur, count)
    else if cur != 0 then
      if cur != prev then [Token(cur, 0), Token(REP_3_6, count - 4)] else [Token(REP_3_6, count - 3)]
    else if count <= 10 then [Token(REPZ_3_10, count - 3)]
    else [Token(REPZ_11_138, count - 11)]
  }

  function Plain(cur: nat, count: nat): (r: seq<Token>)
    ensures |r| == count
  {
    if count == 0 then [] else [Token(cur, 0)] + Plain(cur, count - 1)
  }

  /** The symbols still to be sent at position n, `count` lengths of the current run
      being read already and `prev` the length sent last. */
  function Tokens(lens: seq<nat>, n: nat, count: nat, prev: int): seq<Token>
    requires n <= |lens| && (n < |lens| ==> count < MaxCount(lens[n], prev))
    decreases |lens| - n
  {
    if n == |lens| then []
    else if count + 1 < MaxCount(lens[n], prev) && n + 1 < |lens| && lens[n + 1] == lens[n] then
      Tokens(lens, n + 1, count + 1, prev)
    else RunTokens(lens[n], count + 1, prev) + Tokens(lens, n + 1, 0, lens[n])
  }

  function TreeTokens(lens: seq<nat>): seq<Token> {
    Tokens(lens, 0, 0, -1)
  }

  // ---- The symbols sent mean the lengths read ----

  /** `count` lengths before n belong to the current run; `prev` ends what was sent. */
  ghost predicate InRun(lens: seq<nat>, n: nat, count: nat, prev: int, sent: seq<nat>) {
    && count <= n <= |lens|
    && (n < |lens| ==> count < MaxCount(lens[n], prev) && forall i :: n - count <= i < n ==> lens[i] == lens[n])
    && (n == |lens| ==> count == 0)
    && (prev >= 0 ==> sent != [] && sent[|sent| - 1] == prev)
  }

  lemma {:induction false} PlainMeans(cur: nat, count: nat, sent: seq<nat>)
    requires cur < REP_3_6
    ensures ApplyAll(sent, Plain(cur, count)) == sent + Copies(cur, count)
    ensures Legal(sent, Plain(cur, count))
  {
    if count > 0 {
      PlainMeans(cur, count - 1, sent + [cur]);
      assert sent + [cur] + Copies(cur, count - 1) == sent + Copies(cur, count);
    }
  }

  lemma OneMeans(sent: seq<nat>, t: Token)
    ensures ApplyAll(sent, [t]) == Apply(sent, t)
    ensures Legal(sent, [t]) <==> ValidToken(t) && (t.sym == REP_3_6 ==> sent != [])
  {
    assert ApplyAll(Apply(sent, t), []) == Apply(sent, t);
  }

  lemma SmallPowers()
    ensures Pow2(0) == 1 && Pow2(2) == 4 && Pow2(3) == 8 && Pow2(7) == 128
  {
    assert Pow2(7) == 128;
  }

  lemma RunMeans(cur: nat, count: nat, prev: int, sent: seq<nat>)
    requires cur < REP_3_6 && 0 < count <= MaxCount(cur, prev)
    requires prev >= 0 ==> sent != [] && sent[|sent| - 1] == prev
    ensures ApplyAll(sent, RunTokens(cur, count, prev)) == sent + Copies(cur, count)
    ensures Legal(sent, RunTokens(cur, count, prev))
  {
    SmallPowers();
    hide Pow2, ApplyAll, Legal;
    if count < MinCount(cur, prev) {
      PlainMeans(cur, count, sent);
    } else if cur != 0 && cur != prev {
      var t, u := Token(cur, 0), Token(REP_3_6, count - 4);
      OneMeans(sent, t);
      OneMeans(sent + [cur], u);
      assert [t, u] == [t] + [u];
      ApplyCat(sent, [t], [u]);
      LegalCat(sent, [t], [u]);
      assert sent + [cur] + Copies(cur, count - 1) == sent + Copies(cur, count);
    } else if cur != 0 {
      OneMeans(sent, Token(REP_3_6, count - 3));
    } else if count <= 10 {
      OneMeans(sent, Token(REPZ_3_10, count - 3));
    } else {
      OneMeans(sent, Token(REPZ_11_138, count - 11));
    }
  }

  /** One run sent, then the rest. */
  lemma RunThenRest(lens: seq<nat>, n: nat, count: nat, prev: int, sent: seq<nat>, rest: seq<Token>)
    requires n < |lens| && InRun(lens, n, count, prev, sent) && lens[n] < REP_3_6
    requires var s := sent + Copies(lens[n], count + 1); ApplyAll(s, rest) == s + lens[n + 1..] && Legal(s, rest)
    ensures var ts := RunTokens(lens[n], count + 1, prev) + rest;
      ApplyAll(sent, ts) == sent + lens[n - count..] && Legal(sent, ts)
  {
    hide ApplyAll, Legal, RunTokens;
    var run, s := RunTokens(lens[n], count + 1, prev), sent + Copies(lens[n], count + 1);
    RunMeans(lens[n], count + 1, prev, sent);
    ApplyCat(sent, run, rest);
    LegalCat(sent, run, rest);
    assert lens[n - count..] == Copies(lens[n], count + 1) + lens[n + 1..];
    assert s + lens[n + 1..] == sent + (Copies(lens[n], count + 1) + lens[n + 1..]);
  }

  lemma RunGoesOn(lens: seq<nat>, n: nat, count: nat, prev: int, sent: seq<nat>)
    requires n < |lens| && InRun(lens, n, count, prev, sent)
    ensures count + 1 < MaxCount(lens[n], prev) && n + 1 < |lens| && lens[n + 1] == lens[n]
      ==> InRun(lens, n + 1, count + 1, prev, sent)
    ensures InRun(lens, n + 1, 0, lens[n], sent + Copies(lens[n], count + 1))
  {
  }

  lemma TokensUnfold(lens: seq<nat>, n: nat, count: nat, prev: int)
    requires n < |lens| && count < MaxCount(lens[n], prev)
    ensures Tokens(lens, n, count, prev) ==
      if count + 1 < MaxCount(lens[n], prev) && n + 1 < |lens| && lens[n + 1] == lens[n] then
        Tokens(lens, n + 1, count + 1, prev)
      else RunTokens(lens[n], count + 1, prev) + Tokens(lens, n + 1, 0, lens[n])
  {
    hide RunTokens;
  }

  lemma {:induction false} TokensMean(lens: seq<nat>, n: nat, count: nat, prev: int, sent: seq<nat>)
    requires InRun(lens, n, count, prev, sent)
    requires forall i :: 0 <= i < |lens| ==> lens[i] < REP_3_6
    ensures ApplyAll(sent, Tokens(lens, n, count, prev)) == sent + lens[n - count..]
    ensures Legal(sent, Tokens(lens, n, count, prev))
    decreases |lens| - n
  {
    if n < |lens| {
      TokensUnfold(lens, n, count, prev);
      RunGoesOn(lens, n, count, prev, sent);
      hide ApplyAll, Legal, RunTokens, Tokens, Copies;
      var cur := lens[n];
      if count + 1 < MaxCount(cur, prev) && n + 1 < |lens| && lens[n + 1] == cur {
        TokensMean(lens, n + 1, count + 1, prev, sent);
      } else {
        TokensMean(lens, n + 1, 0, cur, sent + Copies(cur, count + 1));
        RunThenRest(lens, n, count, prev, sent, Tokens(lens, n + 1, 0, cur));
      }
    } else {
      assert sent + lens[n..] == sent;
    }
  }

  /** Decoding what send_tree sends gives back the lengths, whatever came before. */
  lemma TreeTokensMean(lens: seq<nat>, sent: seq<nat>)
    requires forall i :: 0 <= i < |lens| ==> lens[i] < REP_3_6
    ensures ApplyAll(sent, TreeTokens(lens)) == sent + lens && Legal(sent, TreeTokens(lens))
  {
    TokensMean(lens, 0, 0, -1, sent);
    assert lens[0..] == lens;
  }

  // ---- Counting the symbols ----

  function Occurs(ts: seq<Token>, sym: nat): nat {
    if ts == [] then 0 else (if ts[0].sym == sym then 1 else 0) + Occurs(ts[1..], sym)
  }

  lemma {:induction false} OccursCat(a: seq<Token>, b: seq<Token>, sym: nat)
    ensures Occurs(a + b, sym) == Occurs(a, sym) + Occurs(b, sym)
  {
    if a == [] {
      assert a + b == b;
    } else {
      assert (a + b)[1..] == a[1..] + b;
      OccursCat(a[1..], b, sym);
    }
  }

  lemma {:induction false} OccursPlain(cur: nat, count: nat, sym: nat)
    ensures Occurs(Plain(cur, count), sym) == if cur == sym then count else 0
  {
    if count > 0 {
      OccursPlain(cur, count - 1, sym);
    }
  }

  lemma OccursOne(t: Token)
    ensures forall k: nat :: Occurs([t], k) == if t.sym == k then 1 else 0
  {
    assert forall k: nat :: Occurs([t][1..], k) == 0;
  }

  lemma OccursPair(t: Token, u: Token)
    ensures forall k: nat :: Occurs([t, u], k) == (if t.sym == k then 1 else 0) + (if u.sym == k then 1 else 0)
  {
    assert [t, u][1..] == [u];
    OccursOne(u);
  }

  lemma {:induction false} OccursIn(ts: seq<Token>, i: nat)
    requires i < |ts|
    ensures Occurs(ts, ts[i].sym) > 0
  {
    if i > 0 {
      OccursIn(ts[1..], i - 1);
    }
  }

  /** The counts f with the symbols of ts added. */
  ghost predicate Adds(f: seq<nat>, g: seq<nat>, ts: seq<Token>) {
    |f| == |g| && forall k :: 0 <= k < |f| ==> g[k] == f[k] + Occurs(ts, k)
  }

  lemma AddsNone(f: seq<nat>)
    ensures Adds(f, f, [])
  {
  }

  lemma AddsCat(f: seq<nat>, g: seq<nat>, h: seq<nat>, a: seq<Token>, b: seq<Token>)
    requires Adds(f, g, a) && Adds(g, h, b)
    ensures Adds(f, h, a + b)
  {
    forall k | 0 <= k < |f|
      ensures h[k] == f[k] + Occurs(a + b, k)
    {
      OccursCat(a, b, k);
    }
  }

  /** Counting one run. */
  method CountRun(freq: array<nat>, cur: nat, count: nat, prev: int, minCount: nat)
    requires freq.Length > BL_CODES && cur < REP_3_6
    requires 0 < count <= MaxCount(cur, prev) && minCount == MinCount(cur, prev)
    modifies freq
    ensures Adds(old(freq[..]), freq[..], RunTokens(cur, count, prev))
  {
    if count < minCount {
      freq[cur] := freq[cur] + count;
      forall k | 0 <= k < freq.Length
        ensures freq[k] == old(freq[k]) + Occurs(Plain(cur, count), k)
      {
        OccursPlain(cur, count, k);
      }
    } else if cur != 0 {
      if cur != prev {
        freq[cur] := freq[cur] + 1;
        OccursPair(Token(cur, 0), Token(REP_3_6, count - 4));
      } else {
        OccursOne(Token(REP_3_6, count - 3));
      }
      freq[REP_3_6] := freq[REP_3_6] + 1;
    } else if count <= 10 {
      OccursOne(Token(REPZ_3_10, count - 3));
      freq[REPZ_3_10] := freq[REPZ_3_10] + 1;
    } else {
      OccursOne(Token(REPZ_11_138, count - 11));
      freq[REPZ_11_138] := freq[REPZ_11_138] + 1;
    }
  }

  /** The tree's lengths up to maxCode, with the guard after them. */
  ghost predicate Guarded(dl: seq<nat>, maxCode: nat) {
    && maxCode + 1 < |dl| && dl[maxCode + 1] == GUARD
    && forall i :: 0 <= i <= maxCode ==> dl[i] < REP_3_6
  }

  lemma TokensStep(dl: seq<nat>, maxCode: nat, n: nat, count: nat, prev: int)
    requires Guarded(dl, maxCode) && n <= maxCode && count < MaxCount(dl[n], prev)
    ensures var lens, cur, next := dl[..maxCode + 1], dl[n], dl[n + 1];
      if count + 1 < MaxCount(cur, prev) && cur == next then
        n < maxCode && Tokens(lens, n, count, prev) == Tokens(lens, n + 1, count + 1, prev)
      else
        Tokens(lens, n, count, prev) == RunTokens(cur, count + 1, prev) + Tokens(lens, n + 1, 0, cur)
  {
    assert n == maxCode || dl[n + 1] == dl[..maxCode + 1][n + 1];
  }

  lemma TokensEnd(lens: seq<nat>, prev: int)
    ensures Tokens(lens, |lens|, 0, prev) == []
  {
  }

  /** scan_tree: count the symbols that send_tree sends, and set the guard. */
  method ScanTree(dl: array<nat>, maxCode: nat, freq: array<nat>)
    requires dl != freq && freq.Length > BL_CODES && maxCode + 1 < dl.Length
    requires forall i :: 0 <= i <= maxCode ==> dl[i] < REP_3_6
    modifies dl, freq
    ensures dl[..] == old(dl[..])[maxCode + 1 := GUARD]
    ensures Adds(old(freq[..]), freq[..], TreeTokens(old(dl[..maxCode + 1])))
  {
    hide Tokens, RunTokens, Adds;
    var prev: int := -1;
    var next, count, maxCount, minCount := dl[0], 0, 7, 4;
    if next == 0 {
      maxCount, minCount := 138, 3;
    }
    dl[maxCode + 1] := GUARD;
    ghost var lens := dl[..maxCode + 1];
    assert lens == old(dl[..maxCode + 1]);
    ghost var done: seq<Token> := [];
    AddsNone(freq[..]);
    var n := 0;
    while n <= maxCode
      invariant 0 <= n <= maxCode + 1
      invariant dl[..] == old(dl[..])[maxCode + 1 := GUARD]
      invariant next == dl[n] && (n <= maxCode ==> maxCount == MaxCount(next, prev) && minCount == MinCount(next, prev))
      invariant n <= maxCode ==> count < maxCount
      invariant n > maxCode ==> count == 0
      invariant Adds(old(freq[..]), freq[..], done)
      invariant TreeTokens(lens) == done + Tokens(lens, n, count, prev)
    {
      TokensStep(dl[..], maxCode, n, count, prev);
      var cur := next;
      next := dl[n + 1];
      count := count + 1;
      if !(count < maxCount && cur == next) {
        ghost var f := freq[..];
        CountRun(freq, cur, count, prev, minCount);
        ghost var run := RunTokens(cur, count, prev);
        AddsCat(old(freq[..]), f, freq[..], done, run);
        assert done + (run + Tokens(lens, n + 1, 0, cur)) == (done + run) + Tokens(lens, n + 1, 0, cur);
        done := done + run;
        count, prev := 0, cur;
        maxCount, minCount := NextCounts(cur, next);
      }
      n := n + 1;
    }
    TokensEnd(lens, prev);
    assert done == TreeTokens(lens);
  }

  method NextCounts(cur: nat, next: nat) returns (maxCount: nat, minCount: nat)
    ensures maxCount == MaxCount(next, cur) && minCount == MinCount(next, cur)
  {
    if next == 0 {
      maxCount, minCount := 138, 3;
    } else if cur == next {
      maxCount, minCount := 6, 3;
    } else {
      maxCount, minCount := 7, 4;
    }
  }

  // ---- Sending the symbols ----

  /** A table of codes: code s has `lens[s]` bits. */
  ghost predicate Codes(fc: seq<nat>, lens: seq<nat>) {
    |lens| <= |fc| && forall s :: 0 <= s < |lens| ==> lens[s] <= 15 && (lens[s] > 0 ==> fc[s] < Pow2(lens[s]))
  }

  ghost predicate Sendable(ts: seq<Token>, fc: seq<nat>, lens: seq<nat>) {
    Codes(fc, lens) && forall i :: 0 <= i < |ts| ==> ValidToken(ts[i]) && ts[i].sym < |lens| && lens[ts[i].sym] > 0
  }

  function CodeBits(fc: seq<nat>, lens: seq<nat>, s: nat): BitString
    requires s < |lens| <= |fc|
  {
    BitString(fc[s], lens[s])
  }

  ghost function TokenBits(t: Token, fc: seq<nat>, lens: seq<nat>): BitString
    requires t.sym < |lens| <= |fc|
  {
    Cat(CodeBits(fc, lens, t.sym), BitString(t.extra, ExtraBits(t.sym)))
  }

  ghost function TokensBits(ts: seq<Token>, fc: seq<nat>, lens: seq<nat>): BitString
    requires Sendable(ts, fc, lens)
  {
    if ts == [] then EMPTY else Cat(TokenBits(ts[0], fc, lens), TokensBits(ts[1..], fc, lens))
  }

  lemma {:induction false} BitsCat(a: seq<Token>, b: seq<Token>, fc: seq<nat>, lens: seq<nat>)
    requires Sendable(a, fc, lens) && Sendable(b, fc, lens)
    ensures Sendable(a + b, fc, lens)
    ensures TokensBits(a + b, fc, lens) == Cat(TokensBits(a, fc, lens), TokensBits(b, fc, lens))
  {
    hide Cat, ValidToken;
    if a == [] {
      assert a + b == b;
      CatEmpty(TokensBits(b, fc, lens));
    } else {
      assert (a + b)[1..] == a[1..] + b;
      BitsCat(a[1..], b, fc, lens);
      CatAssoc(TokenBits(a[0], fc, lens), TokensBits(a[1..], fc, lens), TokensBits(b, fc, lens));
    }
  }

  lemma BitsOne(t: Token, fc: seq<nat>, lens: seq<nat>)
    requires Sendable([t], fc, lens)
    ensures t.sym < |lens| && TokensBits([t], fc, lens) == TokenBits(t, fc, lens)
  {
    assert [t][0] == t;
    CatEmpty(TokenBits(t, fc, lens));
  }

  lemma {:induction false} BitsValid(ts: seq<Token>, fc: seq<nat>, lens: seq<nat>)
    requires Sendable(ts, fc, lens)
    ensures TokensBits(ts, fc, lens).Valid()
  {
    hide Cat, Pow2;
    if ts == [] {
      Nothing();
    } else {
      BitsValid(ts[1..], fc, lens);
      TokenValid(ts[0], fc, lens);
      CatValid(TokenBits(ts[0], fc, lens), TokensBits(ts[1..], fc, lens));
    }
  }

  lemma TokenValid(t: Token, fc: seq<nat>, lens: seq<nat>)
    requires Codes(fc, lens) && ValidToken(t) && t.sym < |lens| && lens[t.sym] > 0
    ensures TokenBits(t, fc, lens).Valid()
  {
    CatValid(CodeBits(fc, lens, t.sym), BitString(t.extra, ExtraBits(t.sym)));
  }

  /** Sending one symbol and its extra bits; send_bits of none writes nothing. */
  method SendToken(w: Writer, t: Token, fc: seq<nat>, lens: seq<nat>)
    requires w.Valid() && Sendable([t], fc, lens)
    modifies w
    ensures w.Valid() && old(w.pending) <= w.pending
    ensures w.Stream() == Cat(old(w.Stream()), TokensBits([t], fc, lens))
  {
    assert [t][0] == t;
    BitsOne(t, fc, lens);
    hide Cat, Pow2, TokensBits;
    ghost var s := w.Stream();
    CatAssoc(s, CodeBits(fc, lens, t.sym), BitString(t.extra, ExtraBits(t.sym)));
    w.SendBits(fc[t.sym], lens[t.sym]);
    if ExtraBits(t.sym) != 0 {
      w.SendBits(t.extra, ExtraBits(t.sym));
    } else {
      Nothing();
      CatEmpty(w.Stream());
    }
  }

  /** Appending to what was written. */
  lemma SentMore(s: BitString, a: seq<Token>, b: seq<Token>, fc: seq<nat>, lens: seq<nat>, s1: BitString, s2: BitString)
    requires Sendable(a, fc, lens) && Sendable(b, fc, lens)
    requires s1 == Cat(s, TokensBits(a, fc, lens)) && s2 == Cat(s1, TokensBits(b, fc, lens))
    ensures Sendable(a + b, fc, lens) && s2 == Cat(s, TokensBits(a + b, fc, lens))
  {
    BitsCat(a, b, fc, lens);
    CatAssoc(s, TokensBits(a, fc, lens), TokensBits(b, fc, lens));
  }

  method SendPlain(w: Writer, cur: nat, count: nat, fc: seq<nat>, lens: seq<nat>)
    requires w.Valid() && count > 0 && Sendable(Plain(cur, count), fc, lens)
    modifies w
    ensures w.Valid() && old(w.pending) <= w.pending
    ensures w.Stream() == Cat(old(w.Stream()), TokensBits(Plain(cur, count), fc, lens))
  {
    hide Cat, Pow2, TokensBits;
    ghost var s := w.Stream();
    ghost var t := Token(cur, 0);
    assert Plain(cur, count)[0] == t;
    var left := count;
    ghost var done: seq<Token> := [];
    NoBits(s, fc, lens);
    while left != 0
      invariant left <= count && w.Valid() && old(w.pending) <= w.pending
      invariant Plain(cur, count) == done + Plain(cur, left)
      invariant Sendable(done, fc, lens) && w.Stream() == Cat(s, TokensBits(done, fc, lens))
    {
      ghost var s1 := w.Stream();
      SendToken(w, Token(cur, 0), fc, lens);
      SentMore(s, done, [t], fc, lens, s1, w.Stream());
      assert done + ([t] + Plain(cur, left - 1)) == (done + [t]) + Plain(cur, left - 1);
      done := done + [t];
      left := left - 1;
    }
    assert done == Plain(cur, count);
  }

  lemma NoBits(s: BitString, fc: seq<nat>, lens: seq<nat>)
    requires Codes(fc, lens)
    ensures Sendable([], fc, lens) && Cat(s, TokensBits([], fc, lens)) == s
  {
    CatEmpty(s);
  }

  /** Sending one run. */
  method SendRun(w: Writer, cur: nat, count: nat, prev: int, minCount: nat, fc: seq<nat>, lens: seq<nat>)
    requires 0 < count <= MaxCount(cur, prev) && minCount == MinCount(cur, prev)
    requires w.Valid() && Sendable(RunTokens(cur, count, prev), fc, lens)
    modifies w
    ensures w.Valid() && old(w.pending) <= w.pending
    ensures w.Stream() == Cat(old(w.Stream()), TokensBits(RunTokens(cur, count, prev), fc, lens))
  {
    hide Cat, Pow2, TokensBits;
    ghost var s := w.Stream();
    ghost var ts := RunTokens(cur, count, prev);
    if count < minCount {
      SendPlain(w, cur, count, fc, lens);
    } else if cur != 0 {
      if cur != prev {
        assert ts == [Token(cur, 0)] + [Token(REP_3_6, count - 4)];
        assert ts[0] == Token(cur, 0) && ts[1] == Token(REP_3_6, count - 4);
        SendToken(w, Token(cur, 0), fc, lens);
        ghost var s1 := w.Stream();
        SendToken(w, Token(REP_3_6, count - 4), fc, lens);
        SentMore(s, [Token(cur, 0)], [Token(REP_3_6, count - 4)], fc, lens, s1, w.Stream());
      } else {
        SendToken(w, Token(REP_3_6, count - 3), fc, lens);
      }
    } else if count <= 10 {
      SendToken(w, Token(REPZ_3_10, count - 3), fc, lens);
    } else {
      SendToken(w, Token(REPZ_11_138, count - 11), fc, lens);
    }
  }

  lemma SendableParts(a: seq<Token>, b: seq<Token>, c: seq<Token>, fc: seq<nat>, lens: seq<nat>)
    requires Sendable(a + (b + c), fc, lens)
    ensures Sendable(b, fc, lens)
  {
    forall i | 0 <= i < |b|
      ensures ValidToken(b[i]) && b[i].sym < |lens| && lens[b[i].sym] > 0
    {
      assert (a + (b + c))[|a| + i] == b[i];
    }
  }

  /** send_tree: send the lengths in `dl` up to maxCode; scan_tree has set the guard. */
  method SendTree(w: Writer, dl: array<nat>, maxCode: nat, fc: seq<nat>, lens: seq<nat>)
    requires w.Valid() && Guarded(dl[..], maxCode) && Sendable(TreeTokens(dl[..maxCode + 1]), fc, lens)
    modifies w
    ensures w.Valid() && old(w.pending) <= w.pending
    ensures w.Stream() == Cat(old(w.Stream()), TokensBits(TreeTokens(dl[..maxCode + 1]), fc, lens))
  {
    hide Tokens, RunTokens, Cat, TokensBits, Pow2, Sendable;
    var prev: int := -1;
    var next, count, maxCount, minCount := dl[0], 0, 7, 4;
    if next == 0 {
      maxCount, minCount := 138, 3;
    }
    ghost var ls := dl[..maxCode + 1];
    ghost var s := w.Stream();
    ghost var done: seq<Token> := [];
    CodesOf(TreeTokens(ls), fc, lens);
    NoBits(s, fc, lens);
    var n := 0;
    while n <= maxCode
      invariant 0 <= n <= maxCode + 1
      invariant next == dl[n] && (n <= maxCode ==> maxCount == MaxCount(next, prev) && minCount == MinCount(next, prev))
      invariant n <= maxCode ==> count < maxCount
      invariant n > maxCode ==> count == 0
      invariant w.Valid() && old(w.pending) <= w.pending
      invariant TreeTokens(ls) == done + Tokens(ls, n, count, prev)
      invariant Sendable(done, fc, lens) && w.Stream() == Cat(s, TokensBits(done, fc, lens))
    {
      TokensStep(dl[..], maxCode, n, count, prev);
      var cur := next;
      next := dl[n + 1];
      count := count + 1;
      if !(count < maxCount && cur == next) {
        ghost var run, rest := RunTokens(cur, count, prev), Tokens(ls, n + 1, 0, cur);
        SendableParts(done, run, rest, fc, lens);
        ghost var s1 := w.Stream();
        SendRun(w, cur, count, prev, minCount, fc, lens);
        SentMore(s, done, run, fc, lens, s1, w.Stream());
        assert done + (run + rest) == (done + run) + rest;
        done := done + run;
        count, prev := 0, cur;
        maxCount, minCount := NextCounts(cur, next);
      }
      n := n + 1;
    }
    TokensEnd(ls, prev);
    assert done == TreeTokens(ls);
  }

  lemma CodesOf(ts: seq<Token>, fc: seq<nat>, lens: seq<nat>)
    requires Sendable(ts, fc, lens)
    ensures Codes(fc, lens)
  {
  }

  // ---- The lengths of the code length code ----

  const BL_ORDER: seq<nat> := [16, 17, 18, 0, 8, 7, 9, 6, 10, 5, 11, 4, 12, 3, 13, 2, 14, 1, 15]

  /** Three bits for each length, from place k on. */
  ghost function LenLensBits(clens: seq<nat>, k: nat, ncode: nat): BitString
    requires |clens| == BL_CODES && k <= ncode <= BL_CODES
    decreases ncode - k
  {
    if k == ncode then EMPTY else Cat(BitString(clens[BL_ORDER[k]], 3), LenLensBits(clens, k + 1, ncode))
  }

  lemma Pow2Of3()
    ensures Pow2(3) == 8
  {
  }

  lemma {:induction false} LenLensValid(clens: seq<nat>, k: nat, ncode: nat)
    requires |clens| == BL_CODES && k <= ncode <= BL_CODES && forall i :: 0 <= i < BL_CODES ==> clens[i] < 8
    ensures LenLensBits(clens, k, ncode).Valid()
    decreases ncode - k
  {
    hide Cat, Pow2;
    if k == ncode {
      Nothing();
    } else {
      LenLensValid(clens, k + 1, ncode);
      Pow2Of3();
      CatValid(BitString(clens[BL_ORDER[k]], 3), LenLensBits(clens, k + 1, ncode));
    }
  }
}
