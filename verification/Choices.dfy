/** deflate.c: which symbols deflate_fast and deflate_slow may choose, given what was searched. */
module Choices {
  import opened Bits
  import opened Chains
  import opened BlockDecode
  import opened Lz77

  const TOO_FAR := 4096

  /** A level's search limits. */
  datatype Rules = Rules(maxLazy: nat, goodMatch: nat, niceMatch: nat, maxChain: nat, filtered: bool) {
    /** How many strings are tried when a match of `prev` bytes is there already. */
    function Chain(prev: nat): nat {
      if prev >= goodMatch then maxChain / 4 else maxChain
    }
  }

  /** A search for the string at position pos: the window begins at base, `ins` are the positions
      entered so far, `ahead` bytes are there from pos on, and the search went down to `from`. */
  datatype Look = Look(pos: nat, base: nat, ins: set<nat>, ahead: nat, from: nat)

  /** An earlier string of the window that was entered. */
  predicate Before(k: Look, p: nat) {
    p in k.ins && k.base < p < k.pos
  }

  /** Its hash is that of the current string, which has three bytes. */
  ghost predicate Alike(g: Config, data: seq<byte>, k: Look, p: nat) {
    && 3 <= k.ahead && k.pos + k.ahead <= |data| && p < k.pos
    && HashAt(g, data, p) == HashAt(g, data, k.pos)
  }

  /** No string searched from position c on matches more than n bytes. */
  ghost predicate NoLonger(data: seq<byte>, k: Look, c: nat, n: nat) {
    forall p: nat, l: nat ::
      Before(k, p) && c <= p && l <= k.ahead && l <= MAX_MATCH && MatchAt(data, k.pos, p, l) ==> l <= n
  }

  /** The strings that were tried. */
  ghost function Tried(g: Config, data: seq<byte>, k: Look): set<nat> {
    set p | p in k.ins && Before(k, p) && k.from <= p && Alike(g, data, k, p)
  }

  /** No string below the part searched is within reach. */
  ghost predicate RestOut(g: Config, data: seq<byte>, k: Look)
    requires g.Ok()
  {
    forall p: nat :: Before(k, p) && p < k.from && Alike(g, data, k, p) ==> k.pos - p >= g.MaxDist()
  }

  /** The longest match searched has n bytes, if more than are asked for; and the search went on
      until nothing more was in reach, or the match was nice, or as many strings as allowed had
      been tried. */
  ghost predicate Longest(g: Config, data: seq<byte>, r: Rules, k: Look, prev: nat, n: nat)
    requires g.Ok()
  {
    && NoLonger(data, k, k.from, n)
    && (RestOut(g, data, k) || n >= r.niceMatch || n >= k.ahead || |Tried(g, data, k)| == r.Chain(prev))
  }

  /** A match of n bytes with the string at p, which is entered and in reach, and the nearest of
      that length on the part searched. */
  ghost predicate Nearest(g: Config, data: seq<byte>, k: Look, p: nat, n: nat)
    requires g.Ok()
  {
    && Before(k, p) && MatchAt(data, k.pos, p, n) && k.pos - p <= g.MaxDist() && n <= k.ahead && n <= MAX_MATCH
    && n > 0 && NoLonger(data, k, p + 1, n - 1)
  }

  /** A search that is not cut short: the window goes back as far as a match may, and enough bytes
      are there, or all there are. */
  ghost predicate Grounded(g: Config, data: seq<byte>, k: Look)
    requires g.Ok()
  {
    (k.base == 0 || k.base + g.MaxDist() <= k.pos) && (Full(k) || k.pos + k.ahead == |data|)
  }

  lemma GroundedGrows(g: Config, data: seq<byte>, k: Look, data': seq<byte>)
    requires g.Ok() && Grounded(g, data, k) && (Full(k) || data == data')
    ensures Grounded(g, data', k)
  {
  }

  predicate Full(k: Look) {
    k.ahead >= MIN_LOOKAHEAD
  }

  ghost predicate AllFull(looks: seq<Look>) {
    forall j :: 0 <= j < |looks| ==> Full(looks[j])
  }

  // ---- deflate_fast ----

  /** A literal only where nothing searched matches three bytes; else the longest match, and the
      nearest of that length. */
  ghost predicate FastChoice(g: Config, data: seq<byte>, r: Rules, k: Look, it: Item)
    requires g.Ok()
  {
    && k.pos < |data| && 0 < k.ahead && k.pos + k.ahead <= |data| && Grounded(g, data, k)
    && match it
       case Literal(b) => b == data[k.pos] && Longest(g, data, r, k, MIN_MATCH - 1, MIN_MATCH - 1)
       case Reference(len, dist) =>
         && len >= MIN_MATCH && 0 < dist <= k.pos
         && Longest(g, data, r, k, MIN_MATCH - 1, len) && Nearest(g, data, k, k.pos - dist, len)
  }

  function Extent(it: Item): nat {
    match it
    case Literal(_) => 1
    case Reference(len, _) => len
  }

  /** The strings that a symbol at k enters: its own, and those of a match that is not long. */
  ghost predicate FastEnters(r: Rules, k: Look, it: Item, p: nat) {
    && 0 < p && k.ahead >= MIN_MATCH
    && (p == k.pos ||
        (it.Reference? && it.length <= r.maxLazy && it.length + MIN_MATCH <= k.ahead && k.pos <= p < k.pos + it.length))
  }

  /** Symbol after symbol was chosen by these rules, each where the last one ended, and each search
      had at least the strings that the symbols before had entered. */
  ghost predicate FastRun(g: Config, data: seq<byte>, r: Rules, items: seq<Item>, looks: seq<Look>, pos: nat,
                          ins: set<nat>)
    requires g.Ok()
    decreases |items|
  {
    && |looks| == |items|
    && if items == [] then pos == 0
       else
         var j := |items| - 1;
         && FastRun(g, data, r, items[..j], looks[..j], looks[j].pos, looks[j].ins)
         && FastChoice(g, data, r, looks[j], items[j]) && pos == looks[j].pos + Extent(items[j])
         && looks[j].ins <= ins && forall p: nat :: FastEnters(r, looks[j], items[j], p) ==> p in ins
  }

  lemma NoLongerGrows(data: seq<byte>, k: Look, c: nat, n: nat, data': seq<byte>)
    requires NoLonger(data, k, c, n) && data <= data' && k.pos + k.ahead <= |data|
    ensures NoLonger(data', k, c, n)
  {
    forall p: nat, l: nat | Before(k, p) && c <= p && l <= k.ahead && l <= MAX_MATCH && MatchAt(data', k.pos, p, l)
      ensures l <= n
    {
      MatchShrinks(data, data', k.pos, p, l);
    }
  }

  lemma MatchShrinks(data: seq<byte>, data': seq<byte>, pos: nat, p: nat, l: nat)
    requires data <= data' && pos + l <= |data| && MatchAt(data', pos, p, l)
    ensures MatchAt(data, pos, p, l)
  {
    assert data'[p..p + l] == data[p..p + l] && data'[pos..pos + l] == data[pos..pos + l];
  }

  lemma MatchStays(data: seq<byte>, data': seq<byte>, pos: nat, p: nat, l: nat)
    requires data <= data' && MatchAt(data, pos, p, l)
    ensures MatchAt(data', pos, p, l)
  {
    assert data'[p..p + l] == data[p..p + l] && data'[pos..pos + l] == data[pos..pos + l];
  }

  lemma AlikeStays(g: Config, data: seq<byte>, k: Look, p: nat, data': seq<byte>)
    requires data <= data' && k.pos + k.ahead <= |data|
    ensures Alike(g, data, k, p) <==> Alike(g, data', k, p)
  {
  }

  lemma LongestGrows(g: Config, data: seq<byte>, r: Rules, k: Look, prev: nat, n: nat, data': seq<byte>)
    requires g.Ok() && Longest(g, data, r, k, prev, n) && data <= data' && k.pos + k.ahead <= |data|
    ensures Longest(g, data', r, k, prev, n)
  {
    NoLongerGrows(data, k, k.from, n, data');
    forall p: nat
      ensures Alike(g, data, k, p) <==> Alike(g, data', k, p)
    {
      AlikeStays(g, data, k, p, data');
    }
    hide NoLonger, Alike;
    assert Tried(g, data, k) == Tried(g, data', k);
  }

  lemma NearestGrows(g: Config, data: seq<byte>, k: Look, p: nat, n: nat, data': seq<byte>)
    requires g.Ok() && Nearest(g, data, k, p, n) && data <= data' && k.pos + k.ahead <= |data|
    ensures Nearest(g, data', k, p, n)
  {
    NoLongerGrows(data, k, p + 1, n - 1, data');
    MatchStays(data, data', k.pos, p, n);
    hide NoLonger, MatchAt;
  }

  lemma FastChoiceGrows(g: Config, data: seq<byte>, r: Rules, k: Look, it: Item, data': seq<byte>)
    requires g.Ok() && FastChoice(g, data, r, k, it) && data <= data' && (data == data' || Full(k))
    ensures FastChoice(g, data', r, k, it)
  {
    hide Longest, Nearest;
    match it
    case Literal(b) => LongestGrows(g, data, r, k, MIN_MATCH - 1, MIN_MATCH - 1, data');
    case Reference(len, dist) =>
      LongestGrows(g, data, r, k, MIN_MATCH - 1, len, data');
      NearestGrows(g, data, k, k.pos - dist, len, data');
  }

  /** More input, unless a search came to its end, and more strings entered. */
  lemma {:induction false} FastRunGrows(g: Config, data: seq<byte>, r: Rules, items: seq<Item>, looks: seq<Look>,
                                        pos: nat, ins: set<nat>, data': seq<byte>, ins': set<nat>)
    requires g.Ok() && FastRun(g, data, r, items, looks, pos, ins) && data <= data' && ins <= ins'
    requires data == data' || AllFull(looks)
    ensures FastRun(g, data', r, items, looks, pos, ins')
    decreases |items|
  {
    hide FastChoice, FastEnters;
    if items != [] {
      var j := |items| - 1;
      FastRunGrows(g, data, r, items[..j], looks[..j], looks[j].pos, looks[j].ins, data', looks[j].ins);
      FastChoiceGrows(g, data, r, looks[j], items[j], data');
    }
  }

  lemma FastRunNext(g: Config, data: seq<byte>, r: Rules, items: seq<Item>, looks: seq<Look>, k: Look, it: Item,
                    ins: set<nat>, ins': set<nat>)
    requires g.Ok() && FastRun(g, data, r, items, looks, k.pos, ins) && ins <= k.ins && k.ins <= ins'
    requires FastChoice(g, data, r, k, it) && forall p: nat :: FastEnters(r, k, it, p) ==> p in ins'
    ensures FastRun(g, data, r, items + [it], looks + [k], k.pos + Extent(it), ins')
  {
    FastRunGrows(g, data, r, items, looks, k.pos, ins, data, k.ins);
    hide FastChoice, FastEnters;
    assert (items + [it])[..|items|] == items && (looks + [k])[..|looks|] == looks;
  }

  lemma LiteralChosen(g: Config, data: seq<byte>, r: Rules, items: seq<Item>, looks: seq<Look>, k: Look, ins: set<nat>)
    requires g.Ok() && FastRun(g, data, r, items, looks, k.pos, ins) && ins <= k.ins
    requires 0 < k.ahead && k.pos + k.ahead <= |data| && Longest(g, data, r, k, MIN_MATCH - 1, MIN_MATCH - 1)
    requires Grounded(g, data, k)
    requires k.ahead >= MIN_MATCH && k.pos > 0 ==> k.pos in k.ins
    ensures FastChoice(g, data, r, k, Literal(data[k.pos]))
    ensures FastRun(g, data, r, items + [Literal(data[k.pos])], looks + [k], k.pos + 1, k.ins)
  {
    hide Longest, FastRun, Grounded;
    FastRunNext(g, data, r, items, looks, k, Literal(data[k.pos]), ins, k.ins);
  }

  // ---- deflate_slow ----

  /** What the search at k gives when a match of `prev` bytes is waiting: none is looked for if
      that is good enough; a short match that is far away does not count. */
  ghost predicate Outcome(g: Config, data: seq<byte>, r: Rules, k: Look, prev: nat, m: nat)
    requires g.Ok()
  {
    || (prev >= r.maxLazy && m == MIN_MATCH - 1)
    || (m <= prev && Longest(g, data, r, k, prev, prev))
    || (m > prev && Longest(g, data, r, k, prev, m) && exists p: nat :: Nearest(g, data, k, p, m))
    || (m == MIN_MATCH - 1 && exists n: nat, p: nat :: Discarded(g, data, r, k, prev, p, n))
  }

  ghost predicate Discarded(g: Config, data: seq<byte>, r: Rules, k: Look, prev: nat, p: nat, n: nat)
    requires g.Ok()
  {
    && prev < n <= 5 && Longest(g, data, r, k, prev, n) && Nearest(g, data, k, p, n)
    && (r.filtered || (n == MIN_MATCH && k.pos - p > TOO_FAR))
  }

  /** A decision: the search at the symbol's own position, with a match of prev bytes waiting, gave
      len; the search at the next position gave `more`. At the end of the input there is no next
      position. */
  datatype Pick = Pick(at: Look, prev: nat, len: nat, next: Look, more: nat, ended: bool)

  /** The waiting match is taken unless the next position has a longer one; a literal only where
      nothing counts, or the match is dropped for a longer one. */
  ghost predicate SlowChoice(g: Config, data: seq<byte>, r: Rules, k: Pick, it: Item)
    requires g.Ok()
  {
    && k.at.pos + k.at.ahead <= |data| && 0 < k.at.ahead && Grounded(g, data, k.at)
    && Outcome(g, data, r, k.at, k.prev, k.len)
    && (if k.ended then k.at.pos + 1 == |data| else
          && k.next.pos == k.at.pos + 1 && k.next.pos + k.next.ahead <= |data| && k.at.ins <= k.next.ins
          && Grounded(g, data, k.next) && Outcome(g, data, r, k.next, k.len, k.more))
    && match it
       case Literal(b) => b == data[k.at.pos] && (k.len < MIN_MATCH || (!k.ended && k.more > k.len))
       case Reference(len, dist) =>
         && len == k.len >= MIN_MATCH && !k.ended && k.more <= k.len
         && 0 < dist <= k.at.pos && Nearest(g, data, k.at, k.at.pos - dist, len)
  }

  /** The strings that a symbol enters: its own and those of a match, as far as three bytes are
      there. */
  predicate SlowEnters(k: Pick, it: Item, p: nat) {
    0 < p && k.at.pos <= p < k.at.pos + Extent(it) && p + MIN_MATCH <= k.at.pos + k.at.ahead
  }

  /** The search for a symbol. After a literal it is the one already made at the next position, with
      what waited there and what it gave; otherwise nothing was waiting. */
  predicate Follows(items: seq<Item>, picks: seq<Pick>, at: Look, prev: nat, len: nat)
    requires |items| == |picks|
  {
    if items == [] || items[|items| - 1].Reference? || picks[|items| - 1].ended then prev == MIN_MATCH - 1
    else
      var k := picks[|items| - 1];
      at == k.next && prev == k.len && len == k.more
  }

  ghost predicate SlowRun(g: Config, data: seq<byte>, r: Rules, items: seq<Item>, picks: seq<Pick>, pos: nat,
                          ins: set<nat>)
    requires g.Ok()
    decreases |items|
  {
    && |picks| == |items|
    && if items == [] then pos == 0
       else
         var j := |items| - 1;
         && SlowRun(g, data, r, items[..j], picks[..j], picks[j].at.pos, picks[j].at.ins)
         && SlowChoice(g, data, r, picks[j], items[j]) && pos == picks[j].at.pos + Extent(items[j])
         && Follows(items[..j], picks[..j], picks[j].at, picks[j].prev, picks[j].len)
         && picks[j].at.ins <= ins && forall p: nat :: SlowEnters(picks[j], items[j], p) ==> p in ins
  }

  lemma OutcomeGrows(g: Config, data: seq<byte>, r: Rules, k: Look, prev: nat, m: nat, data': seq<byte>)
    requires g.Ok() && Outcome(g, data, r, k, prev, m) && data <= data' && k.pos + k.ahead <= |data|
    ensures Outcome(g, data', r, k, prev, m)
  {
    hide Longest, Nearest;
    if m <= prev && Longest(g, data, r, k, prev, prev) {
      LongestGrows(g, data, r, k, prev, prev, data');
    } else if m > prev && Longest(g, data, r, k, prev, m) && exists p: nat :: Nearest(g, data, k, p, m) {
      var p: nat :| Nearest(g, data, k, p, m);
      LongestGrows(g, data, r, k, prev, m, data');
      NearestGrows(g, data, k, p, m, data');
    } else if n: nat, p: nat :| Discarded(g, data, r, k, prev, p, n) {
      LongestGrows(g, data, r, k, prev, n, data');
      NearestGrows(g, data, k, p, n, data');
      assert Discarded(g, data', r, k, prev, p, n);
    }
  }

  /** More input; at the end of the input there is none. */
  lemma SlowChoiceGrows(g: Config, data: seq<byte>, r: Rules, k: Pick, it: Item, data': seq<byte>)
    requires g.Ok() && SlowChoice(g, data, r, k, it) && data <= data' && (data == data' || Open(k))
    ensures SlowChoice(g, data', r, k, it)
  {
    hide Outcome, Nearest;
    OutcomeGrows(g, data, r, k.at, k.prev, k.len, data');
    if !k.ended {
      OutcomeGrows(g, data, r, k.next, k.len, k.more, data');
    }
    if it.Reference? {
      NearestGrows(g, data, k.at, k.at.pos - it.dist, it.length, data');
    }
  }

  /** None of its searches came to the end of the input. */
  predicate Open(k: Pick) {
    !k.ended && Full(k.at) && Full(k.next)
  }

  ghost predicate NoneEnded(picks: seq<Pick>) {
    forall j :: 0 <= j < |picks| ==> Open(picks[j])
  }

  lemma {:induction false} SlowRunGrows(g: Config, data: seq<byte>, r: Rules, items: seq<Item>, picks: seq<Pick>,
                                        pos: nat, ins: set<nat>, data': seq<byte>, ins': set<nat>)
    requires g.Ok() && SlowRun(g, data, r, items, picks, pos, ins) && data <= data' && ins <= ins'
    requires data == data' || NoneEnded(picks)
    ensures SlowRun(g, data', r, items, picks, pos, ins')
    decreases |items|
  {
    hide SlowChoice;
    if items != [] {
      var j := |items| - 1;
      SlowRunGrows(g, data, r, items[..j], picks[..j], picks[j].at.pos, picks[j].at.ins, data', picks[j].at.ins);
      SlowChoiceGrows(g, data, r, picks[j], items[j], data');
    }
  }

  lemma SlowRunNext(g: Config, data: seq<byte>, r: Rules, items: seq<Item>, picks: seq<Pick>, k: Pick, it: Item,
                    ins: set<nat>, ins': set<nat>)
    requires g.Ok() && SlowRun(g, data, r, items, picks, k.at.pos, ins) && ins <= k.at.ins && k.at.ins <= ins'
    requires SlowChoice(g, data, r, k, it) && forall p: nat :: SlowEnters(k, it, p) ==> p in ins'
    requires Follows(items, picks, k.at, k.prev, k.len)
    ensures SlowRun(g, data, r, items + [it], picks + [k], k.at.pos + Extent(it), ins')
  {
    SlowRunGrows(g, data, r, items, picks, k.at.pos, ins, data, k.at.ins);
    hide SlowChoice;
    assert (items + [it])[..|items|] == items && (picks + [k])[..|picks|] == picks;
  }

  // ---- Between two steps of deflate_slow ----

  /** Nothing is put off: the next search is not one already made. */
  predicate Settled(items: seq<Item>, picks: seq<Pick>) {
    |items| == |picks| && (items == [] || items[|items| - 1].Reference? || picks[|items| - 1].ended)
  }

  /** k is the search for the byte put off before pos: whole, the one that has to be made there, and
      len is what it gave. */
  ghost predicate PutOff(g: Config, data: seq<byte>, r: Rules, items: seq<Item>, picks: seq<Pick>, k: Look, prev: nat,
                         len: nat, pos: nat, ins: set<nat>, over: bool)
    requires g.Ok()
  {
    && |items| == |picks| && k.pos + 1 == pos && 0 < k.ahead && k.pos + k.ahead <= |data| && k.ins <= ins
    && (k.pos > 0 && k.ahead >= MIN_MATCH ==> k.pos in ins)
    && Outcome(g, data, r, k, prev, len) && Grounded(g, data, k) && (Full(k) || over)
    && Follows(items, picks, k, prev, len)
  }

  /** Symbols chosen up to pos, but for a byte put off if there is one; `over` says that all input is
      there. */
  ghost predicate Stage(g: Config, data: seq<byte>, r: Rules, items: seq<Item>, picks: seq<Pick>, off: bool, k: Look,
                        prev: nat, len: nat, pos: nat, ins: set<nat>, over: bool)
    requires g.Ok()
  {
    && (NoneEnded(picks) || over)
    && if off then
         && PutOff(g, data, r, items, picks, k, prev, len, pos, ins, over)
         && SlowRun(g, data, r, items, picks, k.pos, k.ins)
       else
         Settled(items, picks) && len == MIN_MATCH - 1 && SlowRun(g, data, r, items, picks, pos, ins)
  }

  lemma StageGrows(g: Config, data: seq<byte>, r: Rules, items: seq<Item>, picks: seq<Pick>, off: bool, k: Look,
                   prev: nat, len: nat, pos: nat, ins: set<nat>, over: bool, data': seq<byte>, ins': set<nat>,
                   over': bool)
    requires g.Ok() && Stage(g, data, r, items, picks, off, k, prev, len, pos, ins, over)
    requires data <= data' && ins <= ins' && (over ==> data == data' && over')
    ensures Stage(g, data', r, items, picks, off, k, prev, len, pos, ins', over')
  {
    hide Outcome, SlowRun, Follows, NoneEnded, Grounded;
    if off {
      OutcomeGrows(g, data, r, k, prev, len, data');
      GroundedGrows(g, data, k, data');
      SlowRunGrows(g, data, r, items, picks, k.pos, k.ins, data', k.ins);
    } else {
      SlowRunGrows(g, data, r, items, picks, pos, ins, data', ins');
    }
  }

  lemma StageAhead(g: Config, data: seq<byte>, r: Rules, items: seq<Item>, picks: seq<Pick>, k: Look, prev: nat,
                   len: nat, pos: nat, ins: set<nat>, over: bool)
    requires g.Ok() && Stage(g, data, r, items, picks, true, k, prev, len, pos, ins, over)
    ensures k.pos + 1 == pos && k.pos + k.ahead <= |data|
  {
  }

  /** k is the search at pos, made with a match of prev bytes waiting, and gave len. */
  ghost predicate Made(g: Config, data: seq<byte>, r: Rules, k: Look, prev: nat, len: nat, pos: nat, over: bool)
    requires g.Ok()
  {
    && k.pos == pos && 0 < k.ahead && pos + k.ahead <= |data| && Outcome(g, data, r, k, prev, len)
    && Grounded(g, data, k) && (Full(k) || over)
  }

  /** The current byte is put off, and none was before. */
  lemma StageFirst(g: Config, data: seq<byte>, r: Rules, items: seq<Item>, picks: seq<Pick>, here: Look, herePrev: nat,
                   prev: nat, pos: nat, ins: set<nat>, over: bool, k: Look, len: nat)
    requires g.Ok() && Stage(g, data, r, items, picks, false, here, herePrev, prev, pos, ins, over)
    requires Made(g, data, r, k, prev, len, pos, over) && ins <= k.ins
    requires pos > 0 && k.ahead >= MIN_MATCH ==> pos in k.ins
    ensures Stage(g, data, r, items, picks, true, k, prev, len, pos + 1, k.ins, over)
  {
    hide Outcome, SlowRun, NoneEnded, Grounded;
    SlowRunGrows(g, data, r, items, picks, pos, ins, data, k.ins);
  }

  /** A byte put off becomes a literal: nothing counted there, or the next one has a longer match. */
  lemma StageLiteral(g: Config, data: seq<byte>, r: Rules, items: seq<Item>, picks: seq<Pick>, here: Look,
                     herePrev: nat, prev: nat, pos: nat, ins: set<nat>, over: bool, k: Look, len: nat)
    requires g.Ok() && Stage(g, data, r, items, picks, true, here, herePrev, prev, pos, ins, over)
    requires Made(g, data, r, k, prev, len, pos, over) && ins <= k.ins && (prev < MIN_MATCH || len > prev)
    requires k.ahead >= MIN_MATCH ==> pos in k.ins
    ensures pos <= |data|
    ensures Stage(g, data, r, items + [Literal(data[pos - 1])], picks + [Pick(here, herePrev, prev, k, len, false)],
      true, k, prev, len, pos + 1, k.ins, over)
  {
    hide Outcome, SlowRun, NoneEnded, Grounded;
    var p := Pick(here, herePrev, prev, k, len, false);
    SlowRunNext(g, data, r, items, picks, p, Literal(data[pos - 1]), here.ins, k.ins);
    NextOpen(picks, p, over);
  }

  lemma NextOpen(picks: seq<Pick>, k: Pick, over: bool)
    requires NoneEnded(picks) || over
    requires Open(k) || over
    ensures NoneEnded(picks + [k]) || over
  {
  }

  /** From ins to ins', the strings of a waiting match of len bytes at pos - 1 have been entered, as
      far as three bytes are there. */
  ghost predicate Entered(data: seq<byte>, ins: set<nat>, ins': set<nat>, pos: nat, len: nat) {
    ins <= ins' && forall p: nat :: pos <= p < pos - 1 + len && p + MIN_MATCH <= |data| ==> p in ins'
  }

  /** The waiting match is taken. */
  lemma StageMatch(g: Config, data: seq<byte>, r: Rules, items: seq<Item>, picks: seq<Pick>, here: Look, herePrev: nat,
                   prev: nat, pos: nat, ins: set<nat>, over: bool, k: Look, len: nat, m: nat, ins': set<nat>)
    requires g.Ok() && Stage(g, data, r, items, picks, true, here, herePrev, prev, pos, ins, over)
    requires Made(g, data, r, k, prev, len, pos, over) && ins <= k.ins && MIN_MATCH <= prev && len <= prev
    requires m + 1 < pos && Nearest(g, data, here, m, prev) && Entered(data, k.ins, ins', pos, prev)
    ensures Stage(g, data, r, items + [Reference(prev, pos - 1 - m)],
      picks + [Pick(here, herePrev, prev, k, len, false)], false, here, 0, MIN_MATCH - 1, pos - 1 + prev, ins', over)
  {
    hide Outcome, SlowRun, NoneEnded, Grounded, Nearest;
    var p, it := Pick(here, herePrev, prev, k, len, false), Reference(prev, pos - 1 - m);
    forall q: nat | SlowEnters(p, it, q)
      ensures q in ins'
    {
      assert q == here.pos || pos <= q;
    }
    SlowRunNext(g, data, r, items, picks, p, it, here.ins, ins');
    NextOpen(picks, p, over);
  }

  /** The byte still put off at the end of the input. */
  lemma StageEnd(g: Config, data: seq<byte>, r: Rules, items: seq<Item>, picks: seq<Pick>, here: Look, herePrev: nat,
                 len: nat, pos: nat, ins: set<nat>, over: bool)
    requires g.Ok() && Stage(g, data, r, items, picks, true, here, herePrev, len, pos, ins, over)
    requires over && pos == |data| && len == MIN_MATCH - 1
    ensures pos > 0
    ensures Stage(g, data, r, items + [Literal(data[pos - 1])], picks + [Pick(here, herePrev, len, here, 0, true)],
      false, here, herePrev, len, pos, ins, over)
  {
    hide Outcome, SlowRun, NoneEnded, Grounded;
    SlowRunNext(g, data, r, items, picks, Pick(here, herePrev, len, here, 0, true), Literal(data[pos - 1]),
      here.ins, ins);
  }
}
