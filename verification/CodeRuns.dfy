/** trees.c: how far send_tree shortens runs of equal code lengths. */
module CodeRuns {
  import opened CodeLengths

  predicate ThreeZeros(ts: seq<Token>, i: nat) {
    i + 2 < |ts| && ts[i].sym == 0 && ts[i + 1].sym == 0 && ts[i + 2].sym == 0
  }

  predicate FourSame(ts: seq<Token>, i: nat) {
    && i + 3 < |ts| && ts[i].sym < REP_3_6
    && ts[i + 1].sym == ts[i].sym && ts[i + 2].sym == ts[i].sym && ts[i + 3].sym == ts[i].sym
  }

  /** Three zero lengths in a row, or four equal ones, are never all sent as they are. */
  ghost predicate Sparse(ts: seq<Token>) {
    forall i: nat :: !ThreeZeros(ts, i) && !FourSame(ts, i)
  }

  /** The length a symbol stands for, after the length v. */
  function ValueOf(t: Token, v: int): int {
    if t.sym < REP_3_6 then t.sym else if t.sym == REP_3_6 then v else 0
  }

  /** The longest repeats there are. */
  predicate Full(t: Token) {
    t == Token(REP_3_6, 3) || t == Token(REPZ_11_138, 127)
  }

  /** A repeat that is followed by more of the same is a longest one. */
  ghost predicate Eager(v: int, ts: seq<Token>)
    decreases |ts|
  {
    |ts| <= 1 ||
    (var w := ValueOf(ts[0], v);
     (ts[0].sym >= REP_3_6 && ValueOf(ts[1], w) == w ==> Full(ts[0])) && Eager(w, ts[1..]))
  }

  ghost predicate Terse(v: int, ts: seq<Token>) {
    Sparse(ts) && Eager(v, ts)
  }

  lemma SparseCat(a: seq<Token>, b: seq<Token>)
    requires Sparse(a) && Sparse(b) && a != [] && b != []
    requires a[|a| - 1].sym >= REP_3_6 || a[|a| - 1].sym != b[0].sym
    ensures Sparse(a + b)
  {
    var s := a + b;
    forall i: nat
      ensures !ThreeZeros(s, i) && !FourSame(s, i)
    {
      SparseAt(a, b, i);
    }
  }

  lemma SparseAt(a: seq<Token>, b: seq<Token>, i: nat)
    requires Sparse(a) && Sparse(b) && a != [] && b != []
    requires a[|a| - 1].sym >= REP_3_6 || a[|a| - 1].sym != b[0].sym
    ensures !ThreeZeros(a + b, i) && !FourSame(a + b, i)
  {
    var s, k := a + b, |a| - 1;
    assert s[k] == a[k] && s[k + 1] == b[0];
    if i > k {
      var j := i - |a|;
      assert !ThreeZeros(b, j) && !FourSame(b, j);
      assert forall m :: i <= m < |s| ==> s[m] == b[m - |a|];
    } else {
      assert !ThreeZeros(a, i) && !FourSame(a, i);
      assert forall m :: i <= m <= k ==> s[m] == a[m];
    }
  }

  lemma PlainSparse(cur: nat, count: nat)
    requires count <= if cur == 0 then 2 else 3
    ensures Sparse(Plain(cur, count))
  {
  }

  lemma {:induction false} PlainAll(cur: nat, count: nat)
    ensures forall i :: 0 <= i < count ==> Plain(cur, count)[i] == Token(cur, 0)
  {
    if count > 0 {
      PlainAll(cur, count - 1);
    }
  }

  /** Symbols whose first one stands for another length than v, or that are none. */
  lemma {:induction false} EagerPlain(v: int, cur: nat, count: nat, rest: seq<Token>)
    requires cur < REP_3_6 && Eager(cur, rest) && count > 0
    ensures Eager(v, Plain(cur, count) + rest)
    decreases count
  {
    var ts := Plain(cur, count) + rest;
    assert ts[0] == Token(cur, 0);
    assert ts[1..] == Plain(cur, count - 1) + rest;
    if count > 1 {
      EagerPlain(cur, cur, count - 1, rest);
    } else {
      assert ts[1..] == rest;
    }
  }

  lemma EagerOne(v: int, t: Token, rest: seq<Token>)
    requires Eager(ValueOf(t, v), rest)
    requires t.sym >= REP_3_6 && rest != [] && ValueOf(rest[0], ValueOf(t, v)) == ValueOf(t, v) ==> Full(t)
    ensures Eager(v, [t] + rest)
  {
    assert ([t] + rest)[1..] == rest;
    if rest != [] {
      assert ([t] + rest)[1] == rest[0];
    }
  }

  /** The symbols of one run, which the rest does not go on with unless it is full. */
  lemma RunTerse(cur: nat, count: nat, prev: int, rest: seq<Token>)
    requires cur < REP_3_6 && 0 < count <= MaxCount(cur, prev) && Terse(cur, rest)
    requires rest != [] && count < MaxCount(cur, prev) ==>
      ValueOf(rest[0], cur) != cur && (rest[0].sym < REP_3_6 ==> rest[0].sym != cur)
    ensures Terse(prev, RunTokens(cur, count, prev) + rest)
    ensures ValueOf(RunTokens(cur, count, prev)[0], prev) == cur
  {
    hide Sparse, Eager;
    var run := RunTokens(cur, count, prev);
    RunSparse(cur, count, prev);
    if rest != [] {
      SparseCat(run, rest);
    } else {
      assert run + rest == run;
    }
    if count < MinCount(cur, prev) {
      EagerPlain(prev, cur, count, rest);
    } else if cur != 0 && cur != prev {
      var t, u := Token(cur, 0), Token(REP_3_6, count - 4);
      EagerOne(cur, u, rest);
      EagerOne(prev, t, [u] + rest);
      assert run + rest == [t] + ([u] + rest);
    } else {
      EagerOne(prev, run[0], rest);
      assert run == [run[0]];
    }
  }

  lemma RunSparse(cur: nat, count: nat, prev: int)
    requires cur < REP_3_6 && 0 < count <= MaxCount(cur, prev)
    ensures var run := RunTokens(cur, count, prev);
      && run != [] && Sparse(run) && ValueOf(run[0], prev) == cur
      && (run[|run| - 1].sym < REP_3_6 ==> run[|run| - 1].sym == cur && count < MaxCount(cur, prev))
  {
    if count < MinCount(cur, prev) {
      PlainSparse(cur, count);
      PlainAll(cur, count);
    }
  }

  lemma {:induction false} TokensTerse(lens: seq<nat>, n: nat, count: nat, prev: int)
    requires n <= |lens| && (n < |lens| ==> count < MaxCount(lens[n], prev))
    requires forall i :: 0 <= i < |lens| ==> lens[i] < REP_3_6
    ensures Terse(prev, Tokens(lens, n, count, prev))
    ensures var ts := Tokens(lens, n, count, prev); n < |lens| ==>
      ts != [] && ValueOf(ts[0], prev) == lens[n] && (ts[0].sym < REP_3_6 ==> ts[0].sym == lens[n])
    decreases |lens| - n
  {
    hide Terse, RunTokens;
    if n == |lens| {
      NoneTerse(prev);
    } else {
      TokensUnfold(lens, n, count, prev);
      var cur := lens[n];
      if count + 1 < MaxCount(cur, prev) && n + 1 < |lens| && lens[n + 1] == cur {
        TokensTerse(lens, n + 1, count + 1, prev);
      } else {
        TokensTerse(lens, n + 1, 0, cur);
        var rest := Tokens(lens, n + 1, 0, cur);
        hide Tokens;
        RunTerse(cur, count + 1, prev, rest);
        RunFirst(cur, count + 1, prev);
      }
    }
  }

  lemma RunFirst(cur: nat, count: nat, prev: int)
    requires cur < REP_3_6 && 0 < count <= MaxCount(cur, prev)
    ensures var run := RunTokens(cur, count, prev); run != [] && (run[0].sym < REP_3_6 ==> run[0].sym == cur)
  {
    if count < MinCount(cur, prev) {
      PlainAll(cur, count);
    }
  }

  lemma NoneTerse(v: int)
    ensures Terse(v, [])
  {
  }

  /** What send_tree sends: three zeros or four equal lengths are never all sent as they are,
      and a repeat that is followed by more of the same is a longest one. */
  lemma TreeTerse(lens: seq<nat>)
    requires forall i :: 0 <= i < |lens| ==> lens[i] < REP_3_6
    ensures Sparse(TreeTokens(lens)) && Eager(-1, TreeTokens(lens))
  {
    TokensTerse(lens, 0, 0, -1);
  }

  /** Still, they are not always as few as could be: nine equal lengths take four symbols, where
      three would do. */
  lemma NotFewest()
    ensures |TreeTokens([1, 1, 1, 1, 1, 1, 1, 1, 1])| == 4
    ensures var ts := [Token(1, 0), Token(REP_3_6, 2), Token(REP_3_6, 0)];
      Legal([], ts) && ApplyAll([], ts) == [1, 1, 1, 1, 1, 1, 1, 1, 1]
  {
    var lens := [1, 1, 1, 1, 1, 1, 1, 1, 1];
    var n := 9;
    assert Tokens(lens, 9, 0, 1) == [];
    assert Tokens(lens, 8, 1, 1) == RunTokens(1, 2, 1) + Tokens(lens, 9, 0, 1);
    assert Tokens(lens, 7, 0, 1) == Tokens(lens, 8, 1, 1);
    assert Tokens(lens, 6, 6, -1) == RunTokens(1, 7, -1) + Tokens(lens, 7, 0, 1);
    assert Tokens(lens, 4, 4, -1) == Tokens(lens, 5, 5, -1) == Tokens(lens, 6, 6, -1);
    assert Tokens(lens, 2, 2, -1) == Tokens(lens, 3, 3, -1) == Tokens(lens, 4, 4, -1);
    assert Tokens(lens, 0, 0, -1) == Tokens(lens, 1, 1, -1) == Tokens(lens, 2, 2, -1);
    ThreeDo();
  }

  lemma ThreeDo()
    ensures var ts := [Token(1, 0), Token(REP_3_6, 2), Token(REP_3_6, 0)];
      Legal([], ts) && ApplyAll([], ts) == [1, 1, 1, 1, 1, 1, 1, 1, 1]
  {
    var t, u, v := Token(1, 0), Token(REP_3_6, 2), Token(REP_3_6, 0);
    SmallPowers();
    assert [t, u, v][1..] == [u, v] && [u, v][1..] == [v] && [v][1..] == [];
    var a := Apply([], t);
    assert a == [1];
    var b := Apply(a, u);
    assert b == [1, 1, 1, 1, 1, 1];
    var c := Apply(b, v);
    assert c == [1, 1, 1, 1, 1, 1, 1, 1, 1];
    assert ApplyAll(b, [v]) == c && Legal(b, [v]);
    assert ApplyAll(a, [u, v]) == c && Legal(a, [u, v]);
  }
}
