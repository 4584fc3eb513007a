/** Runs of a port of gdk/task-queue.cxx: any interleaving of submit, dispatch, terminate
    and stop, each atomic under the port's lock, with a clock that never goes back. */
module PortRuns {
  import opened Wrappers
  import opened TaskPort

  /** A callback that left the ring: when, and whether the port was terminated by then and
      the callback told so. */
  datatype Left = Left(item: Item, at: nat, terminated: bool, canceled: bool)

  /** The port, what was accepted by it and left it so far, and what it ran at once. */
  datatype History = History(items: seq<Item>, terminated: bool, canceled: bool, clock: nat,
                             accepted: seq<Item>, left: seq<Left>, ran: seq<nat>)

  /** BeginStop is the part of stop before the ring is drained; the rest are dispatches. */
  datatype Action = Submit(context: nat, delay: nat) | Dispatch | Terminate | BeginStop

  /** What happens, and how much time has passed since what happened last. */
  datatype Event = Event(passed: nat, action: Action)

  const START := History([], false, false, 0, [], [], [])

  function Happen(m: Mode, h: History, e: Event): History {
    var now := h.clock + e.passed;
    var g := h.(clock := now);
    match e.action
    case Submit(context, delay) =>
      if m == Immediate then g.(ran := h.ran + [context])
      else if h.terminated || |h.items| == CAPACITY then g
      else
        var it := Item(context, now + delay, delay);
        g.(items := h.items + [it], accepted := h.accepted + [it])
    case Dispatch =>
      var i := Candidate(h.items, now, h.terminated);
      if i < |h.items| then After(h, now, i) else g
    case Terminate => g.(terminated := true, canceled := h.canceled || m != Manual)
    case BeginStop => g.(terminated := true, canceled := true)
  }

  /** The history after callback i has left. */
  function After(h: History, now: nat, i: nat): History
    requires i < |h.items|
  {
    h.(clock := now, items := Without(h.items, i), left := h.left + [Left(h.items[i], now, h.terminated, h.canceled)])
  }

  function Run(m: Mode, events: seq<Event>): History {
    if events == [] then START else Happen(m, Run(m, events[..|events| - 1]), events[|events| - 1])
  }

  /** The callbacks submitted without delay, in order. */
  function Zero(items: seq<Item>): seq<Item> {
    if items == [] then []
    else Zero(items[..|items| - 1]) + if items[|items| - 1].delay == 0 then [items[|items| - 1]] else []
  }

  function Gone(left: seq<Left>): (r: seq<Item>)
    ensures |r| == |left|
  {
    if left == [] then [] else Gone(left[..|left| - 1]) + [left[|left| - 1].item]
  }

  lemma {:induction false} ZeroCat(a: seq<Item>, b: seq<Item>)
    ensures Zero(a + b) == Zero(a) + Zero(b)
  {
    if b == [] {
      assert a + b == a;
    } else {
      var k := |b| - 1;
      ZeroCat(a, b[..k]);
      assert (a + b)[..|a + b| - 1] == a + b[..k];
    }
  }

  lemma {:induction false} ZeroNone(a: seq<Item>)
    requires forall i :: 0 <= i < |a| ==> a[i].delay != 0
    ensures Zero(a) == []
  {
    if a != [] {
      ZeroNone(a[..|a| - 1]);
    }
  }

  lemma ZeroFrom(items: seq<Item>, i: nat)
    requires i < |items| && forall j :: 0 <= j < i ==> items[j].delay != 0
    ensures Zero(items) == Zero([items[i]]) + Zero(items[i + 1..])
  {
    hide Zero;
    assert items == items[..i] + items[i..];
    ZeroCat(items[..i], items[i..]);
    ZeroNone(items[..i]);
    assert items[i..] == [items[i]] + items[i + 1..];
    ZeroCat([items[i]], items[i + 1..]);
  }

  lemma ZeroLeft(items: seq<Item>, i: nat)
    requires i < |items| && forall j :: 0 <= j < i ==> items[j].delay != 0
    ensures Zero(Without(items, i)) == Zero(items[i + 1..])
  {
    hide Zero;
    if i > 0 {
      var b := items[1..i] + [items[0]];
      assert Without(items, i) == b + items[i + 1..];
      ZeroCat(b, items[i + 1..]);
      ZeroNone(b);
    } else {
      assert Without(items, i) == items[i + 1..];
    }
  }

  /** Taking the first due callback, despite the change of places, does not disturb the
      order of those without delay. */
  lemma ZeroWithout(items: seq<Item>, i: nat)
    requires i < |items| && forall j :: 0 <= j < i ==> items[j].delay != 0
    ensures Zero(items) == Zero([items[i]]) + Zero(Without(items, i))
  {
    hide Zero, Without;
    ZeroFrom(items, i);
    ZeroLeft(items, i);
  }

  lemma WithoutCounts(items: seq<Item>, i: nat)
    requires i < |items|
    ensures multiset(items) == multiset(Without(items, i)) + multiset{items[i]}
  {
    var all := items[i := items[0]];
    assert all == [items[0]] + Without(items, i);
    assert multiset(all) == multiset(items) - multiset{items[i]} + multiset{items[0]};
    assert items[i] in multiset(items);
    Replaced(multiset(items), multiset(Without(items, i)), items[i], items[0]);
  }

  lemma Replaced(a: multiset<Item>, b: multiset<Item>, x: Item, y: Item)
    requires x in a && a - multiset{x} + multiset{y} == multiset{y} + b
    ensures a == b + multiset{x}
  {
    assert a - multiset{x} == b by {
      assert a - multiset{x} == (a - multiset{x} + multiset{y}) - multiset{y};
      assert b == (multiset{y} + b) - multiset{y};
    }
  }

  ghost predicate Conserved(h: History) {
    |h.items| <= CAPACITY && multiset(h.accepted) == multiset(Gone(h.left)) + multiset(h.items)
  }

  ghost predicate InOrder(h: History) {
    Zero(h.accepted) == Zero(Gone(h.left)) + Zero(h.items)
  }

  ghost predicate Timely(h: History) {
    && (forall k :: 0 <= k < |h.left| ==> h.left[k].terminated || h.left[k].item.due <= h.left[k].at)
    && (forall i :: 0 <= i < |h.items| ==> h.items[i].delay == 0 ==> h.items[i].due <= h.clock)
  }

  ghost predicate Good(h: History) {
    Conserved(h) && InOrder(h) && Timely(h)
  }

  lemma SubmitGood(m: Mode, h: History, passed: nat, context: nat, delay: nat)
    requires Good(h)
    ensures Good(Happen(m, h, Event(passed, Submit(context, delay))))
  {
    hide Zero, Gone;
    if m != Immediate && !h.terminated && |h.items| < CAPACITY {
      var it := Item(context, h.clock + passed + delay, delay);
      ZeroCat(h.accepted, [it]);
      ZeroCat(h.items, [it]);
      assert Zero(Gone(h.left)) + Zero(h.items) + Zero([it]) == Zero(Gone(h.left)) + (Zero(h.items) + Zero([it]));
    }
  }

  lemma WithoutFrom(items: seq<Item>, i: nat, j: nat)
    requires i < |items| && j < |items| - 1
    ensures Without(items, i)[j] in items
  {
  }

  lemma GoneSnoc(left: seq<Left>, x: Left)
    ensures Gone(left + [x]) == Gone(left) + [x.item]
  {
    assert (left + [x])[..|left|] == left;
  }

  lemma TakeConserves(h: History, now: nat, i: nat)
    requires Conserved(h) && i < |h.items|
    ensures Conserved(After(h, now, i))
  {
    hide Gone, Without;
    GoneSnoc(h.left, Left(h.items[i], now, h.terminated, h.canceled));
    WithoutCounts(h.items, i);
  }

  lemma TakeInOrder(h: History, now: nat, i: nat)
    requires InOrder(h) && i < |h.items| && forall j :: 0 <= j < i ==> h.items[j].delay != 0
    ensures InOrder(After(h, now, i))
  {
    hide Gone, Without, Zero;
    var x := h.items[i];
    GoneSnoc(h.left, Left(x, now, h.terminated, h.canceled));
    ZeroCat(Gone(h.left), [x]);
    ZeroWithout(h.items, i);
    Regroup(Zero(Gone(h.left)), Zero([x]), Zero(Without(h.items, i)));
  }

  lemma Regroup(a: seq<Item>, b: seq<Item>, c: seq<Item>)
    ensures a + (b + c) == (a + b) + c
  {
  }

  lemma TakeTimely(h: History, now: nat, i: nat)
    requires Timely(h) && now >= h.clock && i < |h.items| && (h.terminated || h.items[i].due <= now)
    ensures Timely(After(h, now, i))
  {
    forall j | 0 <= j < |h.items| - 1
      ensures Without(h.items, i)[j] in h.items
    {
      WithoutFrom(h.items, i, j);
    }
    hide Without;
  }

  lemma DispatchGood(m: Mode, h: History, passed: nat)
    requires Good(h)
    ensures Good(Happen(m, h, Event(passed, Dispatch)))
  {
    hide Conserved, InOrder, Timely;
    var now := h.clock + passed;
    var i := Candidate(h.items, now, h.terminated);
    ClockMoves(h, now);
    if i < |h.items| {
      FirstOnes(h, now, i);
      TakeConserves(h, now, i);
      TakeInOrder(h, now, i);
      TakeTimely(h, now, i);
    }
  }

  lemma ClockMoves(h: History, now: nat)
    requires Good(h) && now >= h.clock
    ensures Good(h.(clock := now)) && forall c :: Good(h.(clock := now, terminated := true, canceled := c))
  {
    hide Zero, Gone;
  }

  lemma EndGood(m: Mode, h: History, e: Event)
    requires Good(h) && (e.action == Terminate || e.action == BeginStop)
    ensures Good(Happen(m, h, e))
  {
    hide Good;
    ClockMoves(h, h.clock + e.passed);
  }

  /** Callbacks passed over are not due yet, so they were submitted with a delay. */
  lemma FirstOnes(h: History, now: nat, i: nat)
    requires Timely(h) && now >= h.clock && i == Candidate(h.items, now, h.terminated) < |h.items|
    ensures forall j :: 0 <= j < i ==> h.items[j].delay != 0
    ensures h.terminated || h.items[i].due <= now
  {
  }

  lemma {:induction false} RunGood(m: Mode, events: seq<Event>)
    ensures Good(Run(m, events))
  {
    if events != [] {
      var h, e := Run(m, events[..|events| - 1]), events[|events| - 1];
      RunGood(m, events[..|events| - 1]);
      hide Run, Good, Happen;
      match e.action
      case Submit(context, delay) => SubmitGood(m, h, e.passed, context, delay);
      case Dispatch => DispatchGood(m, h, e.passed);
      case Terminate => EndGood(m, h, e);
      case BeginStop => EndGood(m, h, e);
    }
  }

  /** On every run: what was accepted has left exactly once or is still in the ring, each
      as often as it was accepted. */
  lemma AcceptedLeavesOnce(m: Mode, events: seq<Event>)
    ensures var h := Run(m, events); multiset(h.accepted) == multiset(Gone(h.left)) + multiset(h.items)
  {
    RunGood(m, events);
  }

  /** On every run: callbacks without delay leave in the order they were submitted. */
  lemma ZeroDelayInOrder(m: Mode, events: seq<Event>)
    ensures Zero(Gone(Run(m, events).left)) <= Zero(Run(m, events).accepted)
    ensures Run(m, events).items == [] ==> Zero(Gone(Run(m, events).left)) == Zero(Run(m, events).accepted)
  {
    RunGood(m, events);
  }

  /** On every run: no callback leaves the ring before it is due, unless the port is
      terminated. */
  lemma NeverEarly(m: Mode, events: seq<Event>, k: nat)
    requires k < |Run(m, events).left|
    ensures Run(m, events).left[k].terminated || Run(m, events).left[k].item.due <= Run(m, events).left[k].at
  {
    RunGood(m, events);
  }

  // ---- Progress ----

  /** A dispatch takes a callback out exactly when one is due or the port is terminated: the
      first such one, and it leaves at that time. */
  lemma DispatchTakes(m: Mode, events: seq<Event>, passed: nat)
    ensures var h, g := Run(m, events), Run(m, events + [Event(passed, Dispatch)]);
      var now := h.clock + passed;
      if h.items != [] && (h.terminated || exists j :: 0 <= j < |h.items| && h.items[j].due <= now) then
        && |g.left| == |h.left| + 1 && g.left[..|h.left|] == h.left && g.left[|h.left|].at == now
        && exists i :: 0 <= i < |h.items| && g.left[|h.left|].item == h.items[i]
             && (if h.terminated then i == 0
                 else h.items[i].due <= now && forall j :: 0 <= j < i ==> h.items[j].due > now)
      else
        g.left == h.left && g.items == h.items
  {
    hide Run, FirstDue;
    RunSnoc(m, events, Event(passed, Dispatch));
  }

  ghost predicate AllDue(h: History) {
    forall i :: 0 <= i < |h.items| ==> h.items[i].due <= h.clock
  }

  lemma DueStep(m: Mode, h: History, e: Event)
    requires AllDue(h) && !e.action.Submit?
    ensures var g := Happen(m, h, e);
      AllDue(g) && |g.items| == |h.items| - if e.action == Dispatch && h.items != [] then 1 else 0
  {
    if e.action == Dispatch && h.items != [] {
      var i := Candidate(h.items, h.clock + e.passed, h.terminated);
      forall j | 0 <= j < |h.items| - 1
        ensures Without(h.items, i)[j] in h.items
      {
        WithoutFrom(h.items, i, j);
      }
      hide Without;
    }
  }

  /** Once everything in the ring is due, as many dispatches as there are callbacks empty it,
      whatever else happens, if nothing more is submitted: no callback is passed over for
      ever. */
  lemma {:induction false} DueLeave(m: Mode, events: seq<Event>, more: seq<Event>)
    requires AllDue(Run(m, events)) && Dispatches(more) >= |Run(m, events).items|
    requires forall i :: 0 <= i < |more| ==> !more[i].action.Submit?
    ensures Run(m, events + more).items == []
    decreases |more|
  {
    hide Run, Happen, AllDue;
    if more == [] {
      assert events + more == events;
    } else {
      RunSnoc(m, events, more[0]);
      DueStep(m, Run(m, events), more[0]);
      DueLeave(m, events + [more[0]], more[1..]);
      assert events + more == (events + [more[0]]) + more[1..];
    }
  }

  // ---- Draining ----

  function Dispatches(events: seq<Event>): nat {
    if events == [] then 0 else (if events[0].action == Dispatch then 1 else 0) + Dispatches(events[1..])
  }

  /** What happens to a terminated port: only dispatches take something out, from the
      front, and nothing comes in. */
  lemma TerminatedStep(m: Mode, h: History, e: Event)
    requires h.terminated
    ensures var g := Happen(m, h, e);
      && g.terminated && g.accepted == h.accepted
      && (if e.action == Dispatch && h.items != [] then
            g.items == h.items[1..] && Gone(g.left) == Gone(h.left) + [h.items[0]]
          else
            g.items == h.items && g.left == h.left)
  {
    if e.action == Dispatch && h.items != [] {
      GoneSnoc(h.left, Left(h.items[0], h.clock + e.passed, true, h.canceled));
    }
  }

  /** A terminated port gives out everything it holds, in ring order, and takes nothing
      more: whatever else happens, as many dispatches as there are callbacks empty it. So
      the loop at the end of stop ends. */
  lemma {:induction false} Drains(m: Mode, events: seq<Event>, more: seq<Event>)
    requires Run(m, events).terminated && Dispatches(more) >= |Run(m, events).items|
    ensures var h, g := Run(m, events), Run(m, events + more);
      g.items == [] && g.accepted == h.accepted && Gone(g.left) == Gone(h.left) + h.items
    decreases |more|
  {
    hide Run, Happen, Gone;
    var h := Run(m, events);
    if more == [] {
      assert events + more == events;
    } else {
      var e := events + [more[0]];
      RunSnoc(m, events, more[0]);
      TerminatedStep(m, h, more[0]);
      Drains(m, e, more[1..]);
      assert events + more == e + more[1..];
      if h.items != [] {
        assert h.items == [h.items[0]] + h.items[1..];
        Regroup(Gone(h.left), [h.items[0]], h.items[1..]);
      }
    }
  }

  lemma RunSnoc(m: Mode, events: seq<Event>, e: Event)
    ensures Run(m, events + [e]) == Happen(m, Run(m, events), e)
  {
    hide Happen;
    assert (events + [e])[..|events|] == events;
  }

  /** An immediate port keeps nothing: it runs every callback as it is submitted. */
  lemma {:induction false} ImmediateRunsAll(events: seq<Event>)
    ensures var h := Run(Immediate,
      events); h.items == [] && h.accepted == [] && h.left == [] && h.ran == Contexts(events)
  {
    if events != [] {
      ImmediateRunsAll(events[..|events| - 1]);
    }
  }

  /** The callbacks submitted, in order. */
  function Contexts(events: seq<Event>): seq<nat> {
    if events == [] then []
    else Contexts(events[..|events| - 1]) + Context(events[|events| - 1].action)
  }

  function Context(a: Action): seq<nat> {
    match a
    case Submit(context, _) => [context]
    case _ => []
  }

  // ---- The ring itself on a run ----

  /** What a run does to a port: the ring, the flags and what comes out of it are those of
      the history. */
  method Play(m: Mode, events: seq<Event>) returns (p: Port, left: seq<Left>, ran: seq<nat>)
    ensures fresh(p) && fresh(p.ring) && p.Valid() && p.mode == m
    ensures var h := Run(m, events);
      && p.Contents() == h.items && p.terminated == h.terminated && p.canceled == h.canceled
      && left == h.left && ran == h.ran
  {
    hide Candidate, Without;
    p := new Port(m);
    left, ran := [], [];
    var clock: nat := 0;
    assert events[..0] == [];
    for i := 0 to |events|
      invariant fresh(p) && fresh(p.ring) && p.Valid() && p.mode == m
      invariant InStep(p, Run(m, events[..i])) && Run(m, events[..i]).clock == clock
      invariant left == Run(m, events[..i]).left && ran == Run(m, events[..i]).ran
    {
      ghost var h := Run(m, events[..i]);
      assert events[..i + 1][..i] == events[..i];
      clock := clock + events[i].passed;
      var out, now := PlayOne(p, events[i].action, clock, events[i].passed, h);
      left, ran := left + out, ran + now;
    }
    assert events[..|events|] == events;
  }

  ghost predicate InStep(p: Port, h: History)
    requires p.Valid()
    reads p, p.ring
  {
    p.Contents() == h.items && p.terminated == h.terminated && p.canceled == h.canceled
  }

  method PlayOne(p: Port, a: Action, clock: nat, ghost passed: nat, ghost h: History) returns (out: seq<Left>,
                 ran: seq<nat>)
    requires p.Valid() && InStep(p, h) && clock == h.clock + passed
    modifies p, p.ring
    ensures p.Valid() && p.mode == old(p.mode) && InStep(p, Happen(p.mode, h, Event(passed, a)))
    ensures var g := Happen(p.mode, h,
      Event(passed, a)); g.clock == clock && g.left == h.left + out && g.ran == h.ran + ran
  {
    hide Candidate;
    out, ran := [], [];
    match a
    case Submit(context, delay) =>
      var ok, now := p.Submit(context, delay, clock);
      if now {
        ran := [context];
      }
    case Dispatch =>
      var taken, cancel, i := p.Take(clock);
      if taken.Some? {
        out := [Left(taken.value, clock, p.terminated, cancel)];
      }
    case Terminate =>
      p.Terminate();
    case BeginStop =>
      p.terminated, p.canceled := true, true;
  }

  /** stop gives out what the run has left in the ring, which is what any dispatches after
      its first part would. */
  method PlayAndStop(m: Mode, events: seq<Event>, now: nat) returns (drained: seq<Item>)
    ensures drained == Run(m, events).items
    ensures forall more :: Dispatches(more) >= |drained| ==>
      var g := Run(m, events + [Event(0, BeginStop)] + more);
      g.items == [] && Gone(g.left) == Gone(Run(m, events).left) + drained
  {
    var p, left, ran := Play(m, events);
    drained := p.Stop(now);
    var stop := events + [Event(0, BeginStop)];
    assert stop[..|stop| - 1] == events;
    forall more | Dispatches(more) >= |drained|
      ensures Run(m, stop + more).items == [] && Gone(Run(m, stop + more).left) == Gone(Run(m, events).left) + drained
    {
      Drains(m, stop, more);
    }
  }
}
