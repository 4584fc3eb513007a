/** deflate.c: deflate_fast and deflate_slow. */
module Deflate {
  import opened Bits
  import opened Hash
  import opened Chains
  import opened BlockDecode
  import opened Lz77
  import opened Matcher
  import opened Choices

  datatype Result = NeedMore | BlockDone

  class Deflater {
    const f: Finder
    /** The level's search limits. */
    const maxLazy: nat
    const goodMatch: nat
    const niceMatch: nat
    const maxChain: nat
    const filtered: bool
    var matchLength: nat
    var prevLength: nat
    var prevMatch: int
    var matchAvailable: bool
    /** All symbols tallied so far, over all blocks. */
    var items: seq<Item>
    /** The searches and decisions behind them, and the search for the byte put off. */
    ghost var looks: seq<Look>
    ghost var picks: seq<Pick>
    ghost var here: Look
    ghost var herePrev: nat

    constructor (f: Finder, maxLazy: nat, goodMatch: nat, niceMatch: nat, maxChain: nat, filtered: bool)
      requires f.Valid() && f.Pending() && f.data == [] && f.base == 0 && f.strstart == f.lookahead == 0
      requires maxLazy <= MAX_MATCH
      ensures this.f == f && Sound() && Fast() && Slow() && items == []
      ensures Limits() == Rules(maxLazy, goodMatch, niceMatch, maxChain, filtered)
    {
      this.f := f;
      this.maxLazy, this.goodMatch, this.niceMatch, this.maxChain, this.filtered := maxLazy, goodMatch, niceMatch,
        maxChain, filtered;
      matchLength, prevLength, prevMatch, matchAvailable, items := MIN_MATCH - 1, MIN_MATCH - 1, 0, false, [];
      looks, picks, here, herePrev := [], [], Look(0, 0, {}, 0, 0), 0;
      new;
      assert f.data[..0] == [];
    }

    ghost function Limits(): Rules {
      Rules(maxLazy, goodMatch, niceMatch, maxChain, filtered)
    }

    ghost predicate Sound()
      reads this, f, f.window, f.head, f.prev
    {
      && f.Valid() && f.Pending() && f.Ready() && maxLazy <= MAX_MATCH && (f.Pos() > 0 ==> f.strstart > 0)
      && (f.base == 0 || f.strstart >= f.g.MaxDist())
    }

    /** deflate_fast between two symbols: the symbols rebuild the input up to here, and each was
        chosen as it should be. */
    ghost predicate Fast()
      reads this, f
    {
      && matchLength < MIN_MATCH && prevLength == MIN_MATCH - 1 && !matchAvailable
      && Tallied(items, f.data, f.Pos()) && FastChosen()
    }

    ghost predicate FastChosen()
      reads this, f
    {
      && f.g.Ok() && FastRun(f.g, f.data, Limits(), items, looks, f.Pos(), f.ins)
      && (AllFull(looks) || f.input == [])
    }

    /** deflate_slow between two symbols: one literal may be put off, and a match of it
        may wait for a better one. */
    ghost predicate Slow()
      reads this, f
    {
      && f.Pos() >= Deferred() && Tallied(items, f.data, f.Pos() - Deferred())
      && MIN_MATCH - 1 <= matchLength <= MAX_MATCH
      && (matchAvailable ==> f.strstart > 0)
      && (matchLength >= MIN_MATCH ==> matchAvailable && Waiting(f.matchStart, matchLength))
      && StageAt(f.ins, matchLength)
    }

    /** The symbols so far were chosen as they should be, and the search for the byte put off gave
        len. */
    ghost predicate StageAt(ins: set<nat>, len: nat)
      reads this, f
    {
      && f.g.Ok()
      && Stage(f.g, f.data, Limits(), items, picks, matchAvailable, here, herePrev, len, f.Pos(), ins, f.input == [])
    }

    ghost function Deferred(): nat
      reads this
    {
      if matchAvailable then 1 else 0
    }

    /** A match of the byte before the current one. */
    ghost predicate Waiting(start: int, len: nat)
      reads this`here, f
    {
      && f.g.Ok() && f.Pos() > 0 && MatchAt(f.data, f.Pos() - 1, f.base + start, len)
      && f.strstart - 1 - start <= f.g.MaxDist() && f.base + start >= 0
      && Nearest(f.g, f.data, here, f.base + start, len)
    }

    /** INSERT_STRING where there are three bytes, and the chain's head if it is in reach. */
    method Enter() returns (hashHead: nat)
      requires f.Valid() && f.Pending() && f.Ready() && f.strstart + MIN_LOOKAHEAD <= 2 * f.g.wsize && f.lookahead > 0
      modifies f`insH, f`ins, f`lim, f.head, f.prev
      ensures f.Valid() && f.lim + f.insert <= f.Pos() + 1
      ensures f.lookahead >= MIN_MATCH ==> f.insert == 0 && f.PrimedAt(f.strstart + 1) && f.lim == f.Pos() + 1
      ensures f.lookahead < MIN_MATCH ==> hashHead == NIL && f.lim + f.insert <= f.Pos()
      ensures hashHead != NIL && f.strstart - hashHead <= f.g.MaxDist() ==> f.lookahead >= MIN_MATCH
      ensures hashHead != NIL && f.strstart - hashHead <= f.g.MaxDist() ==> f.OnChain(hashHead)
      ensures f.lookahead >= MIN_MATCH ==> f.Latest(hashHead)
      ensures f.ins == if f.lookahead >= MIN_MATCH then Inserted(old(f.ins), f.base, f.strstart) else old(f.ins)
    {
      hide Shows, Primed, HashAt, Newest, ChainsOk;
      hashHead := NIL;
      EndFits(f.window[..], f.data, f.base, f.strstart + f.lookahead);
      if f.lookahead >= MIN_MATCH {
        hashHead := f.Insert(f.strstart);
      }
    }

    /** Several strings after the current one are entered as well. */
    method EnterRun(n: nat)
      requires f.Valid() && f.insert == 0 && f.lim == f.Pos() + 1 && f.PrimedAt(f.strstart + 1)
      requires f.Pos() + n + 2 < |f.data|
      modifies f`insH, f`ins, f`lim, f.head, f.prev
      ensures f.Valid() && f.lim == f.Pos() + n + 1 && f.PrimedAt(f.strstart + n + 1)
      ensures old(f.ins) <= f.ins && forall p: nat :: f.Pos() < p <= f.Pos() + n ==> p in f.ins
    {
      hide Shows, ChainsOk, Primed;
      var k := 0;
      while k < n
        invariant 0 <= k <= n && f.Valid() && f.lim == f.Pos() + k + 1 && f.PrimedAt(f.strstart + k + 1)
        invariant old(f.ins) <= f.ins && forall p: nat :: f.Pos() < p <= f.Pos() + k ==> p in f.ins
      {
        var _ := f.Insert(f.strstart + k + 1);
        k := k + 1;
      }
    }

    /** Moving on by len bytes that are ahead. */
    method Advance(len: nat)
      requires f.Valid() && len <= f.lookahead && f.insert <= f.strstart && f.lim + f.insert <= f.Pos() + len
      modifies f`strstart, f`lookahead
      ensures f.Valid() && f.Pending() && f.strstart == old(f.strstart) + len && f.lookahead == old(f.lookahead) - len
    {
      hide ChainsOk;
      f.strstart := f.strstart + len;
      f.lookahead := f.lookahead - len;
    }

    /** deflate_fast, one symbol: the longest match that is found, or a literal where none of three
        bytes is. */
    method FastSymbol() returns (ghost k: Look, ghost it: Item)
      requires Sound() && Fast() && f.strstart + MIN_LOOKAHEAD <= 2 * f.g.wsize && f.lookahead > 0
      requires f.lookahead >= MIN_LOOKAHEAD || f.input == []
      modifies this`matchLength, this`items, this`looks, f`strstart, f`lookahead, f`insH, f`matchStart, f`ins, f`lim,
        f.head, f.prev
      ensures Sound() && Fast() && f.lookahead < old(f.lookahead)
      ensures items == old(items) + [it] && looks == old(looks) + [k]
      ensures k.pos == old(f.Pos()) && k.base == f.base && k.ahead == old(f.lookahead) && old(f.ins) <= k.ins <= f.ins
      ensures FastChoice(f.g, f.data, Limits(), k, it)
    {
      hide Shows, ChainsOk, Primed, HashAt, MatchAt, Tallied, FastRun, FastChoice, FastEnters, Longest, Nearest,
        Grounded, AllFull, Finder.LongestFrom, Finder.AllOut, Finder.Latest, Finder.Above, Inserted;
      var hashHead := Enter();
      ghost var low := f.strstart;
      if hashHead != NIL && f.strstart - hashHead <= f.g.MaxDist() {
        matchLength, low := f.LongestMatch(hashHead, prevLength, maxChain, goodMatch, niceMatch);
        SearchedHere(low);
      } else {
        f.NothingToSearch(Limits(), MIN_MATCH - 1, hashHead, MIN_MATCH - 1);
      }
      InsertedMore(old(f.ins), f.base, f.strstart);
      k := f.LookFrom(low);
      Whole(k);
      if matchLength >= MIN_MATCH {
        it := FastMatch(k, old(f.ins));
      } else {
        it := FastLiteral(k, old(f.ins));
      }
    }

    /** A search made here. */
    lemma Whole(k: Look)
      requires f.Valid() && (f.base == 0 || f.strstart >= f.g.MaxDist())
      requires k.pos == f.Pos() && k.base == f.base && k.ahead == f.lookahead
      ensures Grounded(f.g, f.data, k)
    {
      hide ChainsOk, Shows;
      EndFits(f.window[..], f.data, f.base, f.strstart + f.lookahead);
    }

    /** The search of LongestMatch, for a length of more than two or none. */
    lemma SearchedHere(low: nat)
      requires f.Valid() && f.lookahead >= MIN_MATCH && matchLength <= f.lookahead && matchLength <= MAX_MATCH
      requires matchLength >= MIN_MATCH ==>
        && 0 < f.matchStart < f.strstart <= f.matchStart + f.g.MaxDist() && f.base + f.matchStart in f.ins
        && MatchAt(f.data, f.Pos(), f.base + f.matchStart, matchLength)
        && f.LongestFrom(f.matchStart + 1, matchLength - 1)
      requires var n := if matchLength >= MIN_MATCH then matchLength else MIN_MATCH - 1;
        && f.LongestFrom(low, n)
        && (f.AllOut(low) || n >= niceMatch || n >= f.lookahead ||
            |f.Above(low)| == if MIN_MATCH - 1 >= goodMatch then maxChain / 4 else maxChain)
      ensures matchLength >= MIN_MATCH ==>
        Nearest(f.g, f.data, f.LookFrom(low), f.base + f.matchStart, matchLength)
      ensures Longest(f.g, f.data, Limits(), f.LookFrom(low), MIN_MATCH - 1,
        if matchLength >= MIN_MATCH then matchLength else MIN_MATCH - 1)
    {
      hide Shows, ChainsOk, HashAt, MatchAt, Longest, Nearest, Finder.LongestFrom, Finder.AllOut, Finder.Above;
      f.LookedEnough(Limits(), MIN_MATCH - 1, low, if matchLength >= MIN_MATCH then matchLength else MIN_MATCH - 1);
      if matchLength >= MIN_MATCH {
        f.NearestFound(low, matchLength);
      }
    }

    method FastLiteral(ghost k: Look, ghost ins: set<nat>) returns (ghost it: Item)
      requires f.Valid() && f.lookahead > 0 && f.insert <= f.strstart && f.lim + f.insert <= f.Pos() + 1
      requires maxLazy <= MAX_MATCH && matchLength < MIN_MATCH && prevLength == MIN_MATCH - 1 && !matchAvailable
      requires Tallied(items, f.data, f.Pos()) && FastRun(f.g, f.data, Limits(), items, looks, f.Pos(), ins)
      requires k.pos == f.Pos() && k.ahead == f.lookahead && ins <= k.ins == f.ins && Grounded(f.g, f.data, k)
      requires (AllFull(looks) && Full(k)) || f.input == []
      requires f.base == 0 || f.strstart >= f.g.MaxDist()
      requires Longest(f.g, f.data, Limits(), k, MIN_MATCH - 1, MIN_MATCH - 1)
      requires f.lookahead >= MIN_MATCH ==> f.insert == 0 && f.PrimedAt(f.strstart + 1)
      requires f.lookahead >= MIN_MATCH && f.Pos() > 0 ==> f.Pos() in f.ins
      modifies this`items, this`looks, f`strstart, f`lookahead
      ensures Sound() && Fast() && f.lookahead < old(f.lookahead)
      ensures items == old(items) + [it] && looks == old(looks) + [k] && FastChoice(f.g, f.data, Limits(), k, it)
      ensures k.ins <= f.ins
    {
      hide Shows, ChainsOk, Primed, Tallied, FastRun, Longest, FastChoice, FastEnters;
      EndFits(f.window[..], f.data, f.base, f.strstart + f.lookahead);
      ShownAt(f.window[..], f.data, f.base, f.strstart + f.lookahead, f.strstart);
      TallyLiteral(items, f.data, f.Pos());
      it := Literal(f.window[f.strstart]);
      LiteralChosen(f.g, f.data, Limits(), items, looks, k, ins);
      items, looks := items + [Literal(f.window[f.strstart])], looks + [k];
      Advance(1);
    }

    /** A match is tallied; its strings are entered if it is short. */
    method FastMatch(ghost k: Look, ghost ins: set<nat>) returns (ghost it: Item)
      requires f.Valid() && f.lim == f.Pos() + 1 && f.insert == 0 && f.PrimedAt(f.strstart + 1) && maxLazy <= MAX_MATCH
      requires f.strstart + MIN_LOOKAHEAD <= 2 * f.g.wsize && Tallied(items, f.data, f.Pos())
      requires prevLength == MIN_MATCH - 1 && !matchAvailable
      requires MIN_MATCH <= matchLength <= MAX_MATCH && matchLength <= f.lookahead
      requires f.matchStart < f.strstart <= f.matchStart + f.g.MaxDist()
      requires MatchAt(f.data, f.Pos(), f.base + f.matchStart, matchLength)
      requires FastRun(f.g, f.data, Limits(), items, looks, f.Pos(), ins)
      requires k.pos == f.Pos() && k.ahead == f.lookahead && ins <= k.ins == f.ins && Grounded(f.g, f.data, k)
      requires (AllFull(looks) && Full(k)) || f.input == []
      requires f.base == 0 || f.strstart >= f.g.MaxDist()
      requires f.base + f.matchStart >= 0 && Nearest(f.g, f.data, k, f.base + f.matchStart, matchLength)
      requires Longest(f.g, f.data, Limits(), k, MIN_MATCH - 1, matchLength)
      requires f.Pos() > 0 ==> f.Pos() in f.ins
      modifies this`matchLength, this`items, this`looks, f`strstart, f`lookahead, f`insH, f`ins, f`lim, f.head, f.prev
      ensures Sound() && Fast() && f.lookahead < old(f.lookahead)
      ensures items == old(items) + [it] && looks == old(looks) + [k] && FastChoice(f.g, f.data, Limits(), k, it)
      ensures k.ins <= f.ins
    {
      hide Shows, ChainsOk, Primed, Tallied, MatchAt, Upd, H3, FastRun, Longest, Nearest, Grounded;
      ghost var m: int := f.base + f.matchStart;
      EndFits(f.window[..], f.data, f.base, f.strstart + f.lookahead);
      MatchBounds(f.data, f.Pos(), m, matchLength);
      TallyMatch(items, f.data, f.Pos(), m, matchLength);
      it := Reference(matchLength, f.strstart - f.matchStart);
      ghost var was, wasLooks := items, looks;
      assert k.pos - it.dist == m;
      assert FastChoice(f.g, f.data, Limits(), k, it);
      items, looks := items + [Reference(matchLength, f.strstart - f.matchStart)], looks + [k];
      MoveOver(matchLength);
      FastRunNext(f.g, f.data, Limits(), was, wasLooks, k, it, ins, f.ins);
      matchLength := 0;
    }

    /** Past a match: enter its strings if it is short and enough is ahead, else start the
        hash anew after it. */
    method MoveOver(len: nat)
      requires f.Valid() && f.lim == f.Pos() + 1 && f.insert == 0 && f.PrimedAt(f.strstart + 1)
      requires f.strstart + MIN_LOOKAHEAD <= 2 * f.g.wsize && MIN_MATCH <= len <= MAX_MATCH && len <= f.lookahead
      modifies f`strstart, f`lookahead, f`insH, f`ins, f`lim, f.head, f.prev
      ensures f.Valid() && f.Pending() && f.Ready()
      ensures f.strstart == old(f.strstart) + len && f.lookahead == old(f.lookahead) - len
      ensures old(f.ins) <= f.ins
      ensures len <= maxLazy && len + MIN_MATCH <= old(f.lookahead) ==>
        forall p: nat :: old(f.Pos()) < p < old(f.Pos()) + len ==> p in f.ins
    {
      hide Shows, ChainsOk, Primed;
      EndFits(f.window[..], f.data, f.base, f.strstart + f.lookahead);
      if len <= maxLazy && f.lookahead - len >= MIN_MATCH {
        EnterRun(len - 1);
        Advance(len);
      } else {
        Advance(len);
        f.Prime(f.strstart);
      }
    }

    /** fill_window leaves the symbols and a waiting match as they are. */
    method Fill()
      requires Sound() && f.lookahead < MIN_LOOKAHEAD
      modifies f`strstart, f`lookahead, f`insert, f`insH, f`matchStart, f`input, f`data, f`base, f`ins, f`lim, f.window,
        f.head, f.prev
      ensures Sound() && (old(Fast()) ==> Fast()) && (old(Slow()) ==> Slow())
      ensures old(f.data) <= f.data && f.data + f.input == old(f.data + f.input) && f.Pos() == old(f.Pos())
      ensures |f.input| + f.lookahead == old(|f.input| + f.lookahead)
      ensures f.strstart + MIN_LOOKAHEAD <= 2 * f.g.wsize && (f.lookahead < MIN_LOOKAHEAD ==> f.input == [])
    {
      hide Shows, ChainsOk, Primed, Tallied, MatchAt, FastRun, Stage, Nearest, AllFull;
      ghost var d, p, m, insBefore, over := f.data, f.Pos(), f.base + f.matchStart, f.ins, f.input == [];
      EndFits(f.window[..], f.data, f.base, f.strstart + f.lookahead);
      ghost var all := f.data + f.input;
      assert |all| == |f.data| + |f.input|;
      f.FillWindow();
      EndFits(f.window[..], f.data, f.base, f.strstart + f.lookahead);
      assert |all| == |f.data| + |f.input|;
      if old(Fast()) {
        TallyGrows(items, d, p, f.data);
        FastRunGrows(f.g, d, Limits(), items, looks, p, insBefore, f.data, f.ins);
      }
      if old(Slow()) {
        TallyGrows(items, d, p - Deferred(), f.data);
        StageGrows(f.g, d, Limits(), items, picks, matchAvailable, here, herePrev, matchLength, p, insBefore, over,
          f.data, f.ins, f.input == []);
        if matchLength >= MIN_MATCH {
          StageAhead(f.g, d, Limits(), items, picks, here, herePrev, matchLength, p, insBefore, over);
          MatchGrows(d, p - 1, m, matchLength, f.data);
          NearestGrows(f.g, d, here, m, matchLength, f.data);
        }
      }
    }

    /** deflate_fast: symbol after symbol, until more input or output space is needed or all
        input is coded. Leaving early for want of output space is left open. */
    method DeflateFast(noFlush: bool) returns (r: Result)
      requires Sound() && Fast()
      modifies this`matchLength, this`items, this`looks, f, f.window, f.head, f.prev
      ensures Sound() && Fast() && f.data + f.input == old(f.data + f.input)
      ensures r == NeedMore && !noFlush ==> |f.input| + f.lookahead < old(|f.input| + f.lookahead)
      ensures r == BlockDone ==>
        f.input == [] && f.lookahead == 0 && !matchAvailable && Tallied(items, f.data, |f.data|)
    {
      hide Shows, ChainsOk, Primed, Tallied, HashAt, MatchAt, FastRun, FastChoice, Stage, Nearest, FastChosen, StageAt;
      while true
        invariant Sound() && Fast() && f.data + f.input == old(f.data + f.input)
        invariant |f.input| + f.lookahead <= old(|f.input| + f.lookahead)
        decreases |f.input| + f.lookahead
      {
        EndFits(f.window[..], f.data, f.base, f.strstart + f.lookahead);
        if f.lookahead < MIN_LOOKAHEAD {
          Fill();
          EndFits(f.window[..], f.data, f.base, f.strstart + f.lookahead);
          if f.lookahead < MIN_LOOKAHEAD && noFlush {
            return NeedMore;
          }
          if f.lookahead == 0 {
            break;
          }
        }
        ghost var k, it := FastSymbol();
        if * {
          return NeedMore;
        }
      }
      FastEnd();
      r := BlockDone;
    }

    method FastEnd()
      requires Sound() && Fast() && f.lookahead == 0
      modifies f`insert
      ensures Sound() && Fast() && Tallied(items, f.data, |f.data|)
    {
      hide Shows, ChainsOk, Primed, Tallied, HashAt, FastRun, AllFull;
      EndFits(f.window[..], f.data, f.base, f.strstart + f.lookahead);
      LeaveOver();
    }

    /** At the end of the input the last two strings are left to be inserted later. */
    method LeaveOver()
      requires f.Valid() && f.lookahead == 0
      modifies f`insert
      ensures f.Valid() && f.Pending() && f.Ready()
    {
      f.insert := if f.strstart < MIN_MATCH - 1 then f.strstart else MIN_MATCH - 1;
    }

    // ---- deflate_slow ----

    /** deflate_slow, one step: look for a match at the current string, and settle what was
        put off. */
    method SlowSymbol()
      requires Sound() && Slow() && f.strstart + MIN_LOOKAHEAD <= 2 * f.g.wsize && f.lookahead > 0
      requires f.lookahead >= MIN_LOOKAHEAD || f.input == []
      modifies this`matchLength, this`prevLength, this`prevMatch, this`matchAvailable, this`items, this`picks,
        this`here, this`herePrev, f`strstart, f`lookahead, f`insH, f`matchStart, f`ins, f`lim, f.head, f.prev
      ensures Sound() && Slow() && f.lookahead < old(f.lookahead)
      ensures matchAvailable ==> here.pos == old(f.Pos()) && here.ahead == old(f.lookahead)
    {
      hide Shows, ChainsOk, Primed, HashAt, MatchAt, Tallied, Stage, Made, Nearest, Inserted;
      EndFits(f.window[..], f.data, f.base, f.strstart + f.lookahead);
      ghost var ins := f.ins;
      var hashHead := Enter();
      InsertedMore(ins, f.base, f.strstart);
      prevLength, prevMatch := matchLength, f.matchStart;
      ghost var k := Search(hashHead);
      if prevLength >= MIN_MATCH && matchLength <= prevLength {
        SlowMatch(k, ins);
      } else {
        SlowLiteral(k, ins);
      }
    }

    /** A match at the current string that is better than the one waiting. */
    ghost predicate Found()
      reads this, f
    {
      && MIN_MATCH - 1 <= matchLength <= MAX_MATCH
      && (matchLength >= MIN_MATCH && matchLength > prevLength ==>
            f.g.Ok() && MatchAt(f.data, f.Pos(), f.base + f.matchStart,
              matchLength) && f.strstart - f.matchStart <= f.g.MaxDist())
    }

    /** k is the search at the current string, and matchLength is what it gave. */
    ghost predicate Searched(k: Look)
      reads this, f
    {
      && f.g.Ok() && k.pos == f.Pos() && k.base == f.base && k.ins == f.ins && k.ahead == f.lookahead
      && Made(f.g, f.data, Limits(), k, prevLength, matchLength, f.Pos(), f.input == [])
      && (matchLength >= MIN_MATCH && matchLength > prevLength ==>
            f.base + f.matchStart >= 0 && Nearest(f.g, f.data, k, f.base + f.matchStart, matchLength))
    }

    /** Nothing about a search made here is missing but what it gave. */
    ghost predicate Here()
      reads this, f, f.window, f.head, f.prev
    {
      && f.Valid() && f.lookahead > 0 && (f.base == 0 || f.strstart >= f.g.MaxDist())
      && (f.lookahead >= MIN_LOOKAHEAD || f.input == [])
    }

    lemma IsMade(k: Look)
      requires Here() && k.pos == f.Pos() && k.base == f.base && k.ahead == f.lookahead
      requires Outcome(f.g, f.data, Limits(), k, prevLength, matchLength)
      ensures Made(f.g, f.data, Limits(), k, prevLength, matchLength, f.Pos(), f.input == [])
    {
      hide ChainsOk, Shows, Outcome;
      EndFits(f.window[..], f.data, f.base, f.strstart + f.lookahead);
    }

    /** The search, if the waiting match is not good enough already; a short match far away
        is not worth it. */
    method Search(hashHead: nat) returns (ghost k: Look)
      requires Here() && f.strstart + MIN_LOOKAHEAD <= 2 * f.g.wsize && MIN_MATCH - 1 <= prevLength <= MAX_MATCH
      requires maxLazy <= MAX_MATCH
      requires f.lookahead < MIN_MATCH ==> hashHead == NIL
      requires f.lookahead >= MIN_MATCH ==> f.Latest(hashHead)
      requires hashHead != NIL && f.strstart - hashHead <= f.g.MaxDist() ==>
        f.lookahead >= MIN_MATCH && f.OnChain(hashHead) && f.lim == f.Pos() + 1
      modifies this`matchLength, f`matchStart
      ensures f.Valid() && Found() && Searched(k)
    {
      hide Shows, ChainsOk, Primed, HashAt, MatchAt, Longest, Nearest, Finder.LongestFrom, Finder.AllOut, Finder.Latest,
        Finder.Above, Outcome, Made;
      matchLength := MIN_MATCH - 1;
      k := f.LookFrom(f.strstart);
      if hashHead != NIL && prevLength < maxLazy && f.strstart - hashHead <= f.g.MaxDist() {
        ghost var low;
        matchLength, low := f.LongestMatch(hashHead, prevLength, maxChain, goodMatch, niceMatch);
        k := f.LookFrom(low);
        ghost var n := matchLength;
        BestHere(low);
        if matchLength <= 5 && (filtered || (matchLength == MIN_MATCH && f.strstart - f.matchStart > TOO_FAR)) {
          matchLength := MIN_MATCH - 1;
          DiscardedHere(low, n);
        }
      } else {
        if prevLength < maxLazy {
          f.NothingToSearch(Limits(), prevLength, hashHead, prevLength);
        }
        NoneHere();
      }
    }

    /** No search, or nothing to search. */
    lemma NoneHere()
      requires Here() && matchLength == MIN_MATCH - 1 <= prevLength
      requires prevLength >= maxLazy || Longest(f.g, f.data, Limits(), f.LookFrom(f.strstart), prevLength, prevLength)
      ensures Searched(f.LookFrom(f.strstart))
    {
      hide Shows, ChainsOk, Longest, Nearest, Made;
      IsMade(f.LookFrom(f.strstart));
    }

    /** What LongestMatch gives. */
    lemma BestHere(low: nat)
      requires Here() && f.lookahead >= MIN_MATCH && matchLength <= f.lookahead && matchLength <= MAX_MATCH
      requires MIN_MATCH - 1 <= prevLength
      requires matchLength > prevLength ==>
        && 0 < f.matchStart < f.strstart <= f.matchStart + f.g.MaxDist() && f.base + f.matchStart in f.ins
        && MatchAt(f.data, f.Pos(), f.base + f.matchStart, matchLength)
        && f.LongestFrom(f.matchStart + 1, matchLength - 1)
      requires var n := if matchLength > prevLength then matchLength else prevLength;
        && f.LongestFrom(low, n)
        && (f.AllOut(low) || n >= niceMatch || n >= f.lookahead ||
            |f.Above(low)| == if prevLength >= goodMatch then maxChain / 4 else maxChain)
      ensures Searched(f.LookFrom(low))
      ensures matchLength > prevLength ==> Longest(f.g, f.data, Limits(), f.LookFrom(low), prevLength, matchLength)
      ensures matchLength > prevLength ==>
        f.base + f.matchStart >= 0 && Nearest(f.g, f.data, f.LookFrom(low), f.base + f.matchStart, matchLength)
      ensures matchLength <= prevLength ==> Longest(f.g, f.data, Limits(), f.LookFrom(low), prevLength, prevLength)
    {
      hide Shows, ChainsOk, HashAt, MatchAt, Longest, Nearest, Finder.LongestFrom, Finder.AllOut, Finder.Above,
        Made;
      f.LookedEnough(Limits(), prevLength, low, if matchLength > prevLength then matchLength else prevLength);
      if matchLength > prevLength {
        f.NearestFound(low, matchLength);
      }
      IsMade(f.LookFrom(low));
    }

    /** A short match that does not count. */
    lemma DiscardedHere(low: nat, n: nat)
      requires Here() && matchLength == MIN_MATCH - 1 <= prevLength && n <= 5
      requires n > prevLength ==> f.base + f.matchStart >= 0
      requires n > prevLength ==> Longest(f.g, f.data, Limits(), f.LookFrom(low), prevLength, n)
      requires n > prevLength ==> Nearest(f.g, f.data, f.LookFrom(low), f.base + f.matchStart, n)
      requires n <= prevLength ==> Longest(f.g, f.data, Limits(), f.LookFrom(low), prevLength, prevLength)
      requires filtered || (n == MIN_MATCH && f.strstart - f.matchStart > TOO_FAR)
      ensures Searched(f.LookFrom(low))
    {
      hide Shows, ChainsOk, Longest, Nearest, Made;
      if n > prevLength {
        assert Discarded(f.g, f.data, Limits(), f.LookFrom(low), prevLength, f.base + f.matchStart, n);
      }
      IsMade(f.LookFrom(low));
    }

    /** No match is settled: the byte put off becomes a literal, the current one is put
        off. */
    method SlowLiteral(ghost k: Look, ghost ins: set<nat>)
      requires Here() && f.insert <= f.strstart && f.lim + f.insert <= f.Pos() + 1
      requires maxLazy <= MAX_MATCH
      requires f.lookahead >= MIN_MATCH ==> f.insert == 0 && f.PrimedAt(f.strstart + 1)
      requires f.lookahead >= MIN_MATCH && f.Pos() > 0 ==> f.Pos() in f.ins
      requires Found() && Searched(k) && !(prevLength >= MIN_MATCH && matchLength <= prevLength)
      requires f.Pos() >= Deferred() && Tallied(items, f.data, f.Pos() - Deferred())
      requires (matchAvailable ==> f.strstart > 0)
      requires ins <= f.ins && StageAt(ins, prevLength)
      modifies this`matchAvailable, this`items, this`picks, this`here, this`herePrev, f`strstart, f`lookahead
      ensures Sound() && Slow() && f.lookahead < old(f.lookahead) && matchAvailable && here == k
    {
      hide Shows, ChainsOk, Primed, HashAt, MatchAt, Tallied, Stage, Made, Nearest;
      EndFits(f.window[..], f.data, f.base, f.strstart + f.lookahead);
      SettleLiteral(k, ins);
      Advance(1);
    }

    /** The byte put off, if there is one, becomes a literal. */
    method SettleLiteral(ghost k: Look, ghost ins: set<nat>)
      requires Here() && Searched(k) && !(prevLength >= MIN_MATCH && matchLength <= prevLength)
      requires f.lookahead >= MIN_MATCH && f.Pos() > 0 ==> f.Pos() in f.ins
      requires f.Pos() >= Deferred() && Tallied(items, f.data, f.Pos() - Deferred())
      requires (matchAvailable ==> f.strstart > 0)
      requires ins <= f.ins && StageAt(ins, prevLength)
      modifies this`matchAvailable, this`items, this`picks, this`here, this`herePrev
      ensures matchAvailable && here == k && herePrev == prevLength && Tallied(items, f.data, f.Pos())
      ensures Stage(f.g, f.data, Limits(), items, picks, true, here, herePrev, matchLength, f.Pos() + 1, f.ins,
        f.input == [])
    {
      hide Shows, ChainsOk, Primed, HashAt, MatchAt, Tallied, Stage, Made, Nearest;
      EndFits(f.window[..], f.data, f.base, f.strstart + f.lookahead);
      if matchAvailable {
        ShownAt(f.window[..], f.data, f.base, f.strstart + f.lookahead, f.strstart - 1);
        TallyLiteral(items, f.data, f.Pos() - 1);
        StageLiteral(f.g, f.data, Limits(), items, picks, here, herePrev, prevLength, f.Pos(), ins, f.input == [], k,
          matchLength);
        items := items + [Literal(f.window[f.strstart - 1])];
        picks := picks + [Pick(here, herePrev, prevLength, k, matchLength, false)];
      } else {
        matchAvailable := true;
        StageFirst(f.g, f.data, Limits(), items, picks, here, herePrev, prevLength, f.Pos(), ins, f.input == [], k,
          matchLength);
      }
      here, herePrev := k, prevLength;
    }

    /** The waiting match is taken. Its strings are entered as far as three bytes are there;
        strstart and lookahead move at the end here, step by step in the source. */
    method SlowMatch(ghost k: Look, ghost ins: set<nat>)
      requires Here() && f.insert <= f.strstart && maxLazy <= MAX_MATCH
      requires if f.lookahead >= MIN_MATCH then f.insert == 0 && f.PrimedAt(f.strstart + 1) && f.lim == f.Pos() + 1
        else f.lim + f.insert <= f.Pos()
      requires MIN_MATCH <= prevLength <= MAX_MATCH && matchAvailable && f.Pos() > 0 && f.strstart > 0
      requires Tallied(items, f.data, f.Pos() - 1) && Waiting(prevMatch, prevLength)
      requires Searched(k) && matchLength <= prevLength && ins <= f.ins && StageAt(ins, prevLength)
      requires f.lookahead >= MIN_MATCH ==> f.Pos() in f.ins
      modifies this`matchLength, this`prevLength, this`matchAvailable, this`items, this`picks, this`herePrev,
        f`strstart, f`lookahead, f`insH, f`ins, f`lim, f.head, f.prev
      ensures Sound() && Slow() && f.lookahead < old(f.lookahead) && !matchAvailable
    {
      hide Shows, ChainsOk, Primed, HashAt, MatchAt, Tallied, Stage, Made, Nearest;
      EndFits(f.window[..], f.data, f.base, f.strstart + f.lookahead);
      ghost var pos, was := f.Pos(), f.ins;
      TallyWaiting(k, ins);
      MoveSlow(prevLength);
      assert Entered(f.data, was, f.ins, pos, prevLength);
      prevLength, matchLength, matchAvailable := 0, MIN_MATCH - 1, false;
    }

    /** The waiting match into the block, whatever strings of it are entered then. */
    method TallyWaiting(ghost k: Look, ghost ins: set<nat>)
      requires Here() && MIN_MATCH <= prevLength <= MAX_MATCH && matchAvailable && f.Pos() > 0 && f.strstart > 0
      requires Tallied(items, f.data, f.Pos() - 1) && Waiting(prevMatch, prevLength)
      requires Searched(k) && matchLength <= prevLength && ins <= f.ins && StageAt(ins, prevLength)
      modifies this`items, this`picks, this`herePrev
      ensures Tallied(items, f.data, f.Pos() - 1 + prevLength) && prevLength - 1 <= f.lookahead
      ensures forall ins': set<nat> :: Entered(f.data, f.ins, ins', f.Pos(), prevLength) ==>
        Stage(f.g, f.data, Limits(), items, picks, false, here, herePrev, MIN_MATCH - 1, f.Pos() - 1 + prevLength, ins',
          f.input == [])
    {
      hide Shows, ChainsOk, MatchAt, Tallied, Stage, Made, Nearest, Entered;
      EndFits(f.window[..], f.data, f.base, f.strstart + f.lookahead);
      ghost var m: int := f.base + prevMatch;
      MatchBounds(f.data, f.Pos() - 1, m, prevLength);
      TallyMatch(items, f.data, f.Pos() - 1, m, prevLength);
      forall ins': set<nat> | Entered(f.data, f.ins, ins', f.Pos(), prevLength)
        ensures Stage(f.g, f.data, Limits(), items + [Reference(prevLength, f.strstart - 1 - prevMatch)],
          picks + [Pick(here, herePrev, prevLength, k, matchLength, false)], false, here, 0, MIN_MATCH - 1,
          f.Pos() - 1 + prevLength, ins', f.input == [])
      {
        StageMatch(f.g, f.data, Limits(), items, picks, here, herePrev, prevLength, f.Pos(), ins, f.input == [], k,
          matchLength, m, ins');
      }
      items := items + [Reference(prevLength, f.strstart - 1 - prevMatch)];
      picks := picks + [Pick(here, herePrev, prevLength, k, matchLength, false)];
      herePrev := 0;
    }

    method MoveSlow(len: nat)
      requires f.Valid() && f.insert <= f.strstart && MIN_MATCH <= len <= f.lookahead + 1
      requires if f.lookahead >= MIN_MATCH then f.insert == 0 && f.PrimedAt(f.strstart + 1) && f.lim == f.Pos() + 1
        else f.lim + f.insert <= f.Pos()
      modifies f`strstart, f`lookahead, f`insH, f`ins, f`lim, f.head, f.prev
      ensures f.Valid() && f.Pending() && f.Ready()
      ensures f.strstart == old(f.strstart) + len - 1 && f.lookahead == old(f.lookahead) - (len - 1)
      ensures old(f.ins) <= f.ins
      ensures forall p: nat :: old(f.Pos()) < p < old(f.Pos()) + len - 1 && p + MIN_MATCH <= |f.data| ==> p in f.ins
    {
      hide Shows, ChainsOk, Primed;
      EndFits(f.window[..], f.data, f.base, f.strstart + f.lookahead);
      if f.lookahead >= MIN_MATCH {
        var room := f.lookahead - MIN_MATCH;
        EnterRun(if len - 2 <= room then len - 2 else room);
      }
      Advance(len - 1);
    }

    /** deflate_slow: as deflate_fast, with one byte put off until the next is looked at. */
    method DeflateSlow(noFlush: bool) returns (r: Result)
      requires Sound() && Slow()
      modifies this`matchLength, this`prevLength, this`prevMatch, this`matchAvailable, this`items, this`picks,
        this`here, this`herePrev, f, f.window, f.head, f.prev
      ensures Sound() && Slow() && f.data + f.input == old(f.data + f.input)
      ensures r == NeedMore && !noFlush ==> |f.input| + f.lookahead < old(|f.input| + f.lookahead)
      ensures r == BlockDone ==>
        f.input == [] && f.lookahead == 0 && !matchAvailable && Tallied(items, f.data, |f.data|)
    {
      hide Shows, ChainsOk, Primed, Tallied, HashAt, MatchAt, Stage, Nearest, FastRun;
      while true
        invariant Sound() && Slow() && f.data + f.input == old(f.data + f.input)
        invariant |f.input| + f.lookahead <= old(|f.input| + f.lookahead)
        decreases |f.input| + f.lookahead
      {
        EndFits(f.window[..], f.data, f.base, f.strstart + f.lookahead);
        if f.lookahead < MIN_LOOKAHEAD {
          Fill();
          EndFits(f.window[..], f.data, f.base, f.strstart + f.lookahead);
          if f.lookahead < MIN_LOOKAHEAD && noFlush {
            return NeedMore;
          }
          if f.lookahead == 0 {
            break;
          }
        }
        SlowSymbol();
        if * {
          return NeedMore;
        }
      }
      SlowEnd();
      r := BlockDone;
    }

    method SlowEnd()
      requires Sound() && Slow() && f.lookahead == 0 && f.input == []
      modifies this`matchAvailable, this`items, this`picks, f`insert
      ensures Sound() && Slow() && !matchAvailable
    {
      hide Shows, ChainsOk, Primed, Tallied, HashAt, MatchAt, Stage, Nearest, FastRun;
      LastLiteral();
      LeaveOver();
    }

    /** The byte still put off at the end. */
    method LastLiteral()
      requires f.Valid() && Slow() && f.lookahead == 0 && f.input == []
      modifies this`matchAvailable, this`items, this`picks
      ensures Slow() && !matchAvailable
    {
      hide ChainsOk, MatchAt, Tallied, Stage, Nearest;
      EndFits(f.window[..], f.data, f.base, f.strstart + f.lookahead);
      if matchLength >= MIN_MATCH {
        MatchBounds(f.data, f.Pos() - 1, f.base + f.matchStart, matchLength);
      }
      if matchAvailable {
        ShownAt(f.window[..], f.data, f.base, f.strstart + f.lookahead, f.strstart - 1);
        TallyLiteral(items, f.data, f.Pos() - 1);
        StageEnd(f.g, f.data, Limits(), items, picks, here, herePrev, matchLength, f.Pos(), f.ins, true);
        items := items + [Literal(f.window[f.strstart - 1])];
        picks := picks + [Pick(here, herePrev, matchLength, here, 0, true)];
        matchAvailable := false;
      }
    }
  }

  lemma MatchGrows(data: seq<byte>, pos: nat, m: int, len: nat, data': seq<byte>)
    requires MatchAt(data, pos, m, len) && data <= data'
    ensures MatchAt(data', pos, m, len)
  {
    assert data'[m..m + len] == data[m..m + len] && data'[pos..pos + len] == data[pos..pos + len];
  }

  lemma MatchBounds(data: seq<byte>, pos: nat, m: int, len: nat)
    requires MatchAt(data, pos, m, len)
    ensures 0 <= m < pos && pos + len <= |data|
  {
  }
}
