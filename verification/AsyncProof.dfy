/** What every step of the protocol of gdk/async.cxx keeps. */
module AsyncProof {
  import opened Wrappers
  import opened AsyncModel

  // ---- Counting what calls and tasks still have to do ----

  /** What is counted: holds that calls will give back; calls setting a slot up or
      disposing of it; begin calls not yet returned; other calls' retirements to come;
      completion routines to come; cleanup calls to come. */
  datatype Measure = Owns | Transits | Begins | Retirers | Announces | Cleans

  function One(m: Measure, op: Op): nat {
    match m
    case Owns => Num(op.Release? || op.Enqueue?)
    case Retirers => Num(op.Retire? || op.TakeCheck? || op.CancelCheck?)
    case Announces => Num((op.Hold? || op.Enqueue? || op.Run?) && op.job == Announce)
    case Cleans => Num(op.SetProvider? || op.FailCleanup? || op.Cleanup?)
    case _ => 0
  }

  function OfOps(m: Measure, ops: seq<Op>): nat {
    if ops == [] then 0 else One(m, ops[0]) + OfOps(m, ops[1..])
  }

  predicate InTransit(op: Op) {
    op.Init? || op.TakeProvider? || op.Cleanup? || op.Free?
  }

  function Weight(m: Measure, a: Agent): nat {
    if a.todo == [] then 0
    else
      match m
      case Transits => Num(InTransit(a.todo[0]))
      case Begins => Num(a.begins && !InTransit(a.todo[0]))
      case Retirers => if a.begins then 0 else OfOps(m, a.todo)
      case _ => OfOps(m, a.todo)
  }

  function On(m: Measure, a: Agent, s: nat): nat {
    if a.slot == s then Weight(m, a) else 0
  }

  /** All that is to be done on slot s. */
  function Total(m: Measure, agents: seq<Agent>, s: nat): nat {
    if agents == [] then 0 else Total(m, agents[..|agents| - 1], s) + On(m, agents[|agents| - 1], s)
  }

  /** All agents but one. */
  function Others(m: Measure, agents: seq<Agent>, i: nat, s: nat): nat
    requires i < |agents|
  {
    if i == |agents| - 1 then Total(m, agents[..i], s)
    else Others(m, agents[..|agents| - 1], i, s) + On(m, agents[|agents| - 1], s)
  }

  lemma TotalSnoc(m: Measure, agents: seq<Agent>, a: Agent, s: nat)
    ensures Total(m, agents + [a], s) == Total(m, agents, s) + On(m, a, s)
  {
    assert (agents + [a])[..|agents|] == agents;
  }

  lemma {:induction false} TotalOthers(m: Measure, agents: seq<Agent>, i: nat, s: nat, b: Agent)
    requires i < |agents|
    ensures Total(m, agents, s) == Others(m, agents, i, s) + On(m, agents[i], s)
    ensures Total(m, agents[i := b], s) == Others(m, agents, i, s) + On(m, b, s)
  {
    hide On;
    var k := |agents| - 1;
    if i == k {
      assert agents[i := b][..k] == agents[..k];
    } else {
      TotalOthers(m, agents[..k], i, s, b);
      assert agents[i := b][..k] == agents[..k][i := b];
    }
  }

  lemma PartOfTotal(m: Measure, agents: seq<Agent>, j: nat, s: nat)
    requires j < |agents|
    ensures On(m, agents[j], s) <= Total(m, agents, s)
  {
    TotalOthers(m, agents, j, s, agents[j]);
  }

  /** Another agent's part is in what the others have to do. */
  lemma {:induction false} PartOfOthers(m: Measure, agents: seq<Agent>, i: nat, j: nat, s: nat)
    requires i < |agents| && j < |agents| && i != j
    ensures On(m, agents[j], s) <= Others(m, agents, i, s)
  {
    hide On;
    var k := |agents| - 1;
    if i == k {
      PartOfTotal(m, agents[..k], j, s);
    } else if j < k {
      PartOfOthers(m, agents[..k], i, j, s);
    }
  }

  // ---- The shapes of what a call has to do ----

  predicate Middle(op: Op) {
    || op.Hold? || op.Enqueue? || op.Run? || op.Finish? || op.Look?
    || op.TakeCheck? || op.CancelCheck? || op.Retire? || op.Release?
  }

  /** A guard or a task ends by giving its hold back. */
  ghost predicate Held(todo: seq<Op>) {
    && todo != [] && todo[|todo| - 1] == Release
    && forall i :: 0 <= i < |todo| ==> Middle(todo[i])
  }

  ghost predicate Beginning(todo: seq<Op>) {
    || todo == [Hold(Perform), BeginDone] || todo == [Enqueue(Perform), BeginDone]
    || todo == [SetProvider, CallBegin, BeginDone] || todo == [CallBegin, BeginDone]
    || todo == [FailCleanup, Retire] || todo == [Release, Retire] || todo == [Retire] || todo == [BeginDone]
  }

  ghost predicate Disposing(todo: seq<Op>) {
    todo == [TakeProvider, Free] || todo == [Cleanup, Free] || todo == [Free]
  }

  ghost predicate Starting(todo: seq<Op>) {
    |todo| == 1 && todo[0].Init?
  }

  ghost predicate Shape(a: Agent) {
    || a.todo == []
    || (a.begins && (Starting(a.todo) || Beginning(a.todo)))
    || (!a.begins && (Held(a.todo) || Disposing(a.todo)))
  }

  /** The agent's slot is the one it got: live under its token, or in its own hands. */
  ghost predicate Refers(a: Agent, sl: Slot) {
    a.todo != [] ==>
      && a.token > 0
      && (if Starting(a.todo) then sl.token == 0 && sl.seen < a.token else sl.token == a.token)
      && (a.todo[0].Cleanup? || a.todo[0].Free? ==> !sl.provider)
      && (a.todo[0].SetProvider? || a.todo[0].CallBegin? ==> sl.kind == Provider && !sl.failed)
  }

  // ---- The invariant of one slot ----

  predicate Live(sl: Slot) { sl.token != 0 && sl.holds > 0 }

  /** How often a provider's cleanup is called in all: twice if its begin failed. */
  function Cleanups(sl: Slot): nat {
    if sl.kind == Local then 0 else if sl.failed then 2 else 1
  }

  datatype Tally = Tally(owns: nat, transits: nat, begins: nat, retirers: nat, announces: nat, cleans: nat)

  /** t: what all calls and tasks have to do on the slot; inFree: how often it is on the
      free list; inUse: whether it was ever taken. */
  ghost predicate SlotInv(sl: Slot, t: Tally, inFree: nat, inUse: bool) {
    && sl.holds == Num(sl.token != 0 && !sl.retired) + t.owns
    && (sl.token == 0 ==> sl.holds == 0 && !sl.beginning && !sl.provider)
    && inFree + t.transits + Num(Live(sl)) == Num(inUse)
    && (inFree > 0 || !inUse ==> sl.token == 0)
    && t.begins == Num(sl.beginning) && (sl.beginning ==> !sl.retired && t.retirers == 0)
    && (sl.retired ==> sl.block == None)
    && sl.calls + t.announces <= Num(sl.completed) && sl.writes == Num(sl.completed)
    && sl.cleanups + t.cleans + Num(sl.provider) == Cleanups(sl)
    && sl.token <= sl.seen
  }

  // ---- Agents that are at rest ----

  /** Every agent with something to do is counted as owning, in transit or beginning. */
  lemma ActiveCounts(a: Agent)
    requires Shape(a) && a.todo != []
    ensures Weight(Owns, a) + Weight(Transits, a) + Weight(Begins, a) > 0
  {
    if !a.begins && Held(a.todo) {
      OwnsLast(a.todo);
    }
  }

  lemma {:induction false} OwnsLast(todo: seq<Op>)
    requires todo != [] && todo[|todo| - 1] == Release
    ensures OfOps(Owns, todo) > 0
  {
    if |todo| > 1 {
      OwnsLast(todo[1..]);
    }
  }

  lemma OnIdle(m: Measure, a: Agent, s: nat)
    requires Shape(a) && On(Owns, a, s) == On(Transits, a, s) == On(Begins, a, s) == 0
    ensures On(m, a, s) == 0
  {
    if a.todo != [] {
      ActiveCounts(a);
    }
  }

  ghost predicate Shaped(agents: seq<Agent>) {
    forall j :: 0 <= j < |agents| ==> Shape(agents[j])
  }

  /** Nobody has anything to do on a slot that nobody owns. */
  lemma {:induction false} IdleTotal(m: Measure, agents: seq<Agent>, s: nat)
    requires Shaped(agents) && Total(Owns, agents, s) == Total(Transits, agents, s) == Total(Begins, agents, s) == 0
    ensures Total(m, agents, s) == 0
  {
    hide Shape, On;
    if agents != [] {
      var k := |agents| - 1;
      IdleTotal(m, agents[..k], s);
      OnIdle(m, agents[k], s);
    }
  }

  lemma {:induction false} IdleOthers(m: Measure, agents: seq<Agent>, i: nat, s: nat)
    requires i < |agents| && Shaped(agents)
    requires Others(Owns, agents, i, s) == Others(Transits, agents, i, s) == Others(Begins, agents, i, s) == 0
    ensures Others(m, agents, i, s) == 0
  {
    hide Shape, On;
    var k := |agents| - 1;
    if i == k {
      IdleTotal(m, agents[..k], s);
    } else {
      IdleOthers(m, agents[..k], i, s);
      OnIdle(m, agents[k], s);
    }
  }

  // ---- One step, seen from its slot ----

  /** What others have to do, plus w for one agent. */
  function With(o: Tally, a: Agent): Tally {
    Tally(o.owns + Weight(Owns, a), o.transits + Weight(Transits, a), o.begins + Weight(Begins, a),
          o.retirers + Weight(Retirers, a), o.announces + Weight(Announces, a), o.cleans + Weight(Cleans, a))
  }

  ghost predicate None0(o: Tally) {
    o.owns == o.transits == o.begins == 0 && o.retirers == o.announces == o.cleans == 0
  }

  /** The slot and one agent on it, while all others have o to do. */
  ghost predicate Around(sl: Slot, a: Agent, o: Tally, inFree: nat, inUse: bool) {
    && SlotInv(sl, With(o, a), inFree, inUse) && Shape(a) && Refers(a, sl)
    && (o.owns == o.transits == o.begins == 0 ==> None0(o))
  }

  ghost predicate IsTask(b: Agent, a: Agent) {
    b.slot == a.slot && b.token == a.token && !b.begins && |b.todo| == 2 && b.todo[0].Run? && b.todo[1] == Release
  }

  /** What a step leaves behind. Others notice a new token or a lost provider only if
      there are none. */
  ghost predicate Kept(sl: Slot, a: Agent, o: Tally, inFree: nat, inUse: bool, e: Effect) {
    && SlotInv(e.slot, if e.spawned == [] then With(o, e.agent) else With(With(o, e.agent), e.spawned[0]),
               inFree + Num(e.freed), inUse)
    && e.agent.slot == a.slot && e.agent.token == a.token && Shape(e.agent) && Refers(e.agent, e.slot)
    && |e.spawned| <= 1 && (e.spawned != [] ==> IsTask(e.spawned[0], a) && Refers(e.spawned[0], e.slot))
    && (e.slot.token != sl.token || e.slot.seen != sl.seen || e.slot.kind != sl.kind ==> None0(o))
    && (e.slot.failed != sl.failed ==> o.begins == 0)
    && (e.slot.provider && !sl.provider ==> o.transits == 0)
    && (e.freed ==> e.slot.token == 0)
  }

  lemma Cons(m: Measure, op: Op, rest: seq<Op>)
    ensures OfOps(m, [op] + rest) == One(m, op) + OfOps(m, rest)
  {
    assert ([op] + rest)[1..] == rest;
  }

  lemma Ops1(m: Measure, x: Op)
    ensures OfOps(m, [x]) == One(m, x)
  {
    assert [x][1..] == [];
  }

  lemma Ops2(m: Measure, x: Op, y: Op)
    ensures OfOps(m, [x, y]) == One(m, x) + One(m, y)
  {
    Ops1(m, y);
    assert [x, y][1..] == [y];
  }

  lemma Ops3(m: Measure, x: Op, y: Op, z: Op)
    ensures OfOps(m, [x, y, z]) == One(m, x) + One(m, y) + One(m, z)
  {
    Ops2(m, y, z);
    assert [x, y, z][1..] == [y, z];
  }

  lemma StartWeights(m: Measure, a: Agent, b: Agent, kind: Kind)
    requires Starting(a.todo) && a.begins && b.begins
    requires b.todo == if kind == Local then [Hold(Perform), BeginDone] else [SetProvider, CallBegin, BeginDone]
    ensures Weight(m, a) == Num(m == Transits)
    ensures Weight(m, b) == Num(m == Begins || (m == Cleans && kind == Provider))
  {
    assert a.todo == [a.todo[0]];
    Ops1(m, a.todo[0]);
    Ops2(m, Hold(Perform), BeginDone);
    Ops3(m, SetProvider, CallBegin, BeginDone);
    hide OfOps;
  }

  lemma StartStep(sl: Slot, a: Agent, o: Tally, inFree: nat, inUse: bool, block: nat, kind: Kind)
    requires Around(sl, a, o, inFree, inUse) && a.begins && Starting(a.todo)
    ensures Kept(sl, a, o, inFree, inUse, ExecInit(sl, a, block, kind))
  {
    var e := ExecInit(sl, a, block, kind);
    forall m
      ensures Weight(m, a) == Num(m == Transits)
      ensures Weight(m, e.agent) == Num(m == Begins || (m == Cleans && kind == Provider))
    {
      StartWeights(m, a, e.agent, kind);
    }
    hide Weight;
  }

  /** What a begin call has to do. */
  lemma BeginWeights(m: Measure, a: Agent)
    requires a.begins && Beginning(a.todo)
    ensures Weight(m, a) == match m
      case Owns => Num(a.todo[0].Release? || a.todo[0].Enqueue?)
      case Begins => 1
      case Cleans => Num(a.todo[0].SetProvider? || a.todo[0].FailCleanup?)
      case _ => 0
  {
    hide OfOps;
    var t := a.todo;
    if |t| == 1 {
      assert t == [t[0]];
      Ops1(m, t[0]);
    } else if |t| == 2 {
      assert t == [t[0], t[1]];
      Ops2(m, t[0], t[1]);
    } else {
      assert t == [t[0], t[1], t[2]];
      Ops3(m, t[0], t[1], t[2]);
    }
  }

  lemma TaskWeights(m: Measure, b: Agent)
    requires !b.begins && |b.todo| == 2 && b.todo[0].Run? && b.todo[1] == Release
    ensures Weight(m, b) == match m
      case Owns => 1
      case Announces => Num(b.todo[0].job == Announce)
      case _ => 0
  {
    assert b.todo == [b.todo[0], Release];
    Ops2(m, b.todo[0], Release);
    hide OfOps;
  }

  lemma DoneWeights(m: Measure, a: Agent)
    requires a.todo == [] || (!a.begins && a.todo == [Release])
    ensures Weight(m, a) == Num(m == Owns && a.todo != [])
  {
    Ops1(m, Release);
    hide OfOps;
  }

  lemma BeginWith(o: Tally, a: Agent)
    requires a.begins && Beginning(a.todo)
    ensures With(o, a) == Tally(o.owns + Num(a.todo[0].Release? || a.todo[0].Enqueue?), o.transits, o.begins + 1,
      o.retirers, o.announces, o.cleans + Num(a.todo[0].SetProvider? || a.todo[0].FailCleanup?))
  {
    forall m
      ensures Weight(m, a) == match m
        case Owns => Num(a.todo[0].Release? || a.todo[0].Enqueue?)
        case Begins => 1
        case Cleans => Num(a.todo[0].SetProvider? || a.todo[0].FailCleanup?)
        case _ => 0
    {
      BeginWeights(m, a);
    }
    hide Weight, Beginning;
  }

  lemma DoneWith(o: Tally, a: Agent)
    requires a.todo == [] || (!a.begins && a.todo == [Release])
    ensures With(o, a) == o.(owns := o.owns + Num(a.todo != []))
  {
    forall m
      ensures Weight(m, a) == Num(m == Owns && a.todo != [])
    {
      DoneWeights(m, a);
    }
    hide Weight;
  }

  lemma TaskWith(o: Tally, b: Agent)
    requires !b.begins && |b.todo| == 2 && b.todo[0].Run? && b.todo[1] == Release
    ensures With(o, b) == o.(owns := o.owns + 1, announces := o.announces + Num(b.todo[0].job == Announce))
  {
    forall m
      ensures Weight(m, b) == match m
        case Owns => 1
        case Announces => Num(b.todo[0].job == Announce)
        case _ => 0
    {
      TaskWeights(m, b);
    }
    hide Weight;
  }

  /** A step of a begin call. */
  lemma BeginStep(sl: Slot, a: Agent, o: Tally, inFree: nat, inUse: bool, callbacks: set<nat>, c: Choice)
    requires Around(sl, a, o, inFree, inUse) && a.begins && Beginning(a.todo)
    ensures Kept(sl, a, o, inFree, inUse, Exec(sl, a, callbacks, c))
  {
    if a.todo[0].Retire? || a.todo[0].BeginDone? {
      BeginEnds(sl, a, o, inFree, inUse, callbacks, c);
    } else if a.todo[0].Enqueue? {
      BeginSubmits(sl, a, o, inFree, inUse, callbacks, c);
    } else {
      BeginMoves(sl, a, o, inFree, inUse, callbacks, c);
    }
  }

  lemma BeginEnds(sl: Slot, a: Agent, o: Tally, inFree: nat, inUse: bool, callbacks: set<nat>, c: Choice)
    requires Around(sl, a, o, inFree, inUse) && a.begins && Beginning(a.todo)
    requires (a.todo[0].Retire? || a.todo[0].BeginDone?)
    ensures Kept(sl, a, o, inFree, inUse, Exec(sl, a, callbacks, c))
  {
    hide Weight, OfOps, Exec, With;
    var e := Exec(sl, a, callbacks, c);
    BeginWith(o, a);
    BeginGoesOn(sl, a, e, callbacks, c);
    DoneWith(o, e.agent);
  }

  lemma BeginSubmits(sl: Slot, a: Agent, o: Tally, inFree: nat, inUse: bool, callbacks: set<nat>, c: Choice)
    requires Around(sl, a, o, inFree, inUse) && a.begins && Beginning(a.todo) && a.todo[0].Enqueue?
    ensures Kept(sl, a, o, inFree, inUse, Exec(sl, a, callbacks, c))
  {
    hide Weight, OfOps, Exec, With;
    var e := Exec(sl, a, callbacks, c);
    BeginWith(o, a);
    BeginGoesOn(sl, a, e, callbacks, c);
    BeginWith(o, e.agent);
    if e.spawned != [] {
      TaskWith(With(o, e.agent), e.spawned[0]);
    }
  }

  lemma BeginMoves(sl: Slot, a: Agent, o: Tally, inFree: nat, inUse: bool, callbacks: set<nat>, c: Choice)
    requires Around(sl, a, o, inFree, inUse) && a.begins && Beginning(a.todo)
    requires !a.todo[0].Retire? && !a.todo[0].BeginDone? && !a.todo[0].Enqueue?
    ensures Kept(sl, a, o, inFree, inUse, Exec(sl, a, callbacks, c))
  {
    hide Weight, OfOps, Exec, With;
    var e := Exec(sl, a, callbacks, c);
    BeginWith(o, a);
    BeginGoesOn(sl, a, e, callbacks, c);
    BeginWith(o, e.agent);
  }

  /** What a begin call's step makes of slot and call. */
  lemma BeginGoesOn(sl: Slot, a: Agent, e: Effect, callbacks: set<nat>, c: Choice)
    requires a.begins && Beginning(a.todo) && e == Exec(sl, a, callbacks, c) && (a.todo[0].Retire? ==> !sl.retired)
    requires a.todo[0].Release? ==> sl.holds > 1
    ensures match a.todo[0]
      case Hold(_) => e == Quiet(sl.(holds := sl.holds + 1), a, [Enqueue(Perform), BeginDone])
      case Enqueue(_) =>
        if c.yes then e == Quiet(sl, a,
          [BeginDone]).(spawned := [Agent(a.slot, a.token, false, [Run(Perform), Release])])
        else e == Quiet(sl, a, [Release, Retire])
      case SetProvider => e == Quiet(sl.(provider := true), a, [CallBegin, BeginDone])
      case CallBegin => e == if c.yes then Quiet(sl, a, [BeginDone]) else Quiet(sl.(failed := true), a,
        [FailCleanup, Retire])
      case FailCleanup => e == Quiet(sl.(cleanups := sl.cleanups + 1), a, [Retire])
      case Release => e == Quiet(sl.(holds := sl.holds - 1), a, [Retire])
      case Retire => e == Quiet(sl.(retired := true, block := None, beginning := false), a.(begins := false),
        [Release]).(cleared := sl.block)
      case _ => e == Quiet(sl.(beginning := false), a, [])
  {
    assert a.todo[0].Retire? ==> [Release] + a.todo[1..] == [Release];
    assert a.todo[0].Hold? ==> a.todo[1..] == [BeginDone];
    assert [Enqueue(Perform)] + [BeginDone] == [Enqueue(Perform), BeginDone];
  }

  // ---- Steps of guards and tasks ----

  lemma {:induction false} NoCleans(todo: seq<Op>)
    requires forall i :: 0 <= i < |todo| ==> Middle(todo[i])
    ensures OfOps(Cleans, todo) == 0
  {
    if todo != [] {
      NoCleans(todo[1..]);
    }
  }

  /** What a guard or task has to do besides what others have. */
  function Beside(o: Tally, todo: seq<Op>): Tally {
    o.(owns := o.owns + OfOps(Owns, todo), retirers := o.retirers + OfOps(Retirers, todo),
       announces := o.announces + OfOps(Announces, todo))
  }

  lemma HeldWith(o: Tally, a: Agent)
    requires !a.begins && (a.todo == [] || Held(a.todo))
    ensures With(o, a) == Beside(o, a.todo)
  {
    NoCleans(a.todo);
    hide OfOps;
    assert a.todo != [] ==> Middle(a.todo[0]);
    if a.todo == [] {
      NoOps(Owns);
      NoOps(Retirers);
      NoOps(Announces);
    }
  }

  lemma NoOps(m: Measure)
    ensures OfOps(m, []) == 0
  {
  }

  lemma BesideCons(o: Tally, op: Op, rest: seq<Op>)
    ensures Beside(o, [op] + rest) == Beside(o, rest).(owns := Beside(o, rest).owns + One(Owns, op),
      retirers := Beside(o, rest).retirers + One(Retirers, op),
        announces := Beside(o, rest).announces + One(Announces, op))
  {
    Cons(Owns, op, rest);
    Cons(Retirers, op, rest);
    Cons(Announces, op, rest);
    hide OfOps;
  }

  lemma HeldRest(op: Op, rest: seq<Op>)
    requires Held([op] + rest)
    ensures Middle(op) && (rest == [] || Held(rest)) && (rest == [] ==> op == Release)
  {
    var t := [op] + rest;
    assert t[0] == op;
    assert forall i :: 0 <= i < |rest| ==> t[i + 1] == rest[i];
    if rest != [] {
      assert t[|t| - 1] == rest[|rest| - 1];
    }
  }

  lemma HeldCons(op: Op, rest: seq<Op>)
    requires Middle(op) && Held(rest)
    ensures Held([op] + rest)
  {
  }

  /** The slot and a guard or task that has [op] + rest to do. */
  ghost predicate AroundHeld(sl: Slot, a: Agent, op: Op, rest: seq<Op>, o: Tally, inFree: nat, inUse: bool) {
    && a.todo == [op] + rest && !a.begins && Held(a.todo) && a.token > 0 && sl.token == a.token
    && (rest != [] ==> Held(rest)) && (rest == [] ==> op == Release)
    && var b := Beside(o, rest);
       SlotInv(sl, b.(owns := b.owns + One(Owns, op), retirers := b.retirers + One(Retirers, op),
                      announces := b.announces + One(Announces, op)), inFree, inUse)
  }

  lemma ToHeld(sl: Slot, a: Agent, op: Op, rest: seq<Op>, o: Tally, inFree: nat, inUse: bool)
    requires Around(sl, a, o, inFree, inUse) && !a.begins && Held(a.todo) && a.todo == [op] + rest
    ensures AroundHeld(sl, a, op, rest, o, inFree, inUse)
  {
    HeldWith(o, a);
    BesideCons(o, op, rest);
    HeldRest(op, rest);
    assert a.todo[0] == op;
    hide OfOps, With, Beside;
  }

  /** Going on with rest after a change that keeps the slot's token. */
  lemma ToRest(sl: Slot, a: Agent, op: Op, rest: seq<Op>, o: Tally, inFree: nat, inUse: bool, sl': Slot)
    requires AroundHeld(sl, a, op, rest, o, inFree, inUse)
    requires SlotInv(sl', Beside(o, rest), inFree, inUse) && sl'.token == sl.token && sl'.seen == sl.seen
    requires sl'.kind == sl.kind
    requires sl'.provider == sl.provider && sl'.failed == sl.failed
    ensures Kept(sl, a, o, inFree, inUse, Quiet(sl', a, rest))
  {
    HeldWith(o, a.(todo := rest));
    hide OfOps, With, Beside, SlotInv;
    assert rest != [] ==> Middle(rest[0]);
  }

  /** Going on with one more operation before rest. */
  lemma ToMore(sl: Slot, a: Agent, op: Op, rest: seq<Op>, o: Tally, inFree: nat, inUse: bool, sl': Slot, more: Op)
    requires AroundHeld(sl, a, op, rest, o, inFree, inUse) && Middle(more) && rest != []
    requires var b := Beside(o, rest);
       SlotInv(sl', b.(owns := b.owns + One(Owns, more), retirers := b.retirers + One(Retirers, more),
                      announces := b.announces + One(Announces, more)), inFree, inUse)
    requires sl'.token == sl.token && sl'.seen == sl.seen && sl'.kind == sl.kind && sl'.provider == sl.provider
    requires sl'.failed == sl.failed
    ensures Kept(sl, a, o, inFree, inUse, Quiet(sl', a, [more] + rest))
  {
    HeldCons(more, rest);
    HeldWith(o, a.(todo := [more] + rest));
    BesideCons(o, more, rest);
    hide OfOps, With, Beside, SlotInv;
    assert ([more] + rest)[0] == more;
  }

  lemma HoldStep(sl: Slot, a: Agent, job: Job, rest: seq<Op>, o: Tally, inFree: nat, inUse: bool)
    requires AroundHeld(sl, a, Hold(job), rest, o, inFree, inUse)
    ensures Kept(sl, a, o, inFree, inUse, Quiet(sl.(holds := sl.holds + 1), a, [Enqueue(job)] + rest))
  {
    OwnsLast(rest);
    hide OfOps;
    ToMore(sl, a, Hold(job), rest, o, inFree, inUse, sl.(holds := sl.holds + 1), Enqueue(job));
  }

  lemma EnqueueStep(sl: Slot, a: Agent, job: Job, c: Choice, rest: seq<Op>, o: Tally, inFree: nat, inUse: bool)
    requires AroundHeld(sl, a, Enqueue(job), rest, o, inFree, inUse)
    ensures Kept(sl, a, o, inFree, inUse, ExecEnqueue(sl, a, job, c, rest))
  {
    hide OfOps;
    if c.yes {
      var b := Agent(a.slot, a.token, false, [Run(job), Release]);
      HeldWith(o, a.(todo := rest));
      TaskWith(Beside(o, rest), b);
      hide With, Beside;
      assert rest != [] ==> Middle(rest[0]);
    } else {
      DropAnnounce(sl, Beside(o, rest), job, inFree, inUse);
      ToMore(sl, a, Enqueue(job), rest, o, inFree, inUse, sl, Release);
    }
  }

  /** A completion routine that will not run counts no more. */
  lemma DropAnnounce(sl: Slot, t: Tally, job: Job, inFree: nat, inUse: bool)
    requires SlotInv(sl, t.(owns := t.owns + 1, announces := t.announces + Num(job == Announce)), inFree, inUse)
    ensures SlotInv(sl, t.(owns := t.owns + 1), inFree, inUse)
  {
  }

  lemma RunStep(sl: Slot, a: Agent, job: Job, callbacks: set<nat>, c: Choice, rest: seq<Op>, o: Tally, inFree: nat,
                inUse: bool)
    requires AroundHeld(sl, a, Run(job), rest, o, inFree, inUse)
    ensures Kept(sl, a, o, inFree, inUse, ExecRun(sl, a, job, callbacks, c, rest))
  {
    hide OfOps, Beside, Kept;
    if job == Announce {
      var sl' := if sl.block.Some? && sl.block.value in callbacks then sl.(calls := sl.calls + 1) else sl;
      ToRest(sl, a, Run(job), rest, o, inFree, inUse, sl');
    } else if c.canceled {
      ToMore(sl, a, Run(job), rest, o, inFree, inUse, sl, Finish(E_ABORT, 0));
    } else if job == Perform {
      ToMore(sl, a, Run(job), rest, o, inFree, inUse, sl,
        Finish(c.status, if Succeeded(c.status) then c.size else 0));
    } else if c.status != PENDING && c.status != S_OK {
      ToMore(sl, a, Run(job), rest, o, inFree, inUse, sl, Finish(c.status, 0));
    } else {
      ToRest(sl, a, Run(job), rest, o, inFree, inUse, sl);
    }
  }

  lemma FinishStep(sl: Slot, a: Agent, status: int, size: nat, callbacks: set<nat>, rest: seq<Op>, o: Tally,
                   inFree: nat, inUse: bool)
    requires AroundHeld(sl, a, Finish(status, size), rest, o, inFree, inUse)
    ensures Kept(sl, a, o, inFree, inUse, ExecFinish(sl, a, status, size, callbacks, rest))
  {
    hide OfOps, Beside, Kept;
    var sl' := sl.(status := status, size := size, completed := true, writes := sl.writes + 1);
    if sl.completed {
      ToRest(sl, a, Finish(status, size), rest, o, inFree, inUse, sl);
    } else if sl.block.Some? && sl.block.value in callbacks {
      ToMore(sl, a, Finish(status, size), rest, o, inFree, inUse, sl', Hold(Announce));
    } else {
      ToRest(sl, a, Finish(status, size), rest, o, inFree, inUse, sl');
    }
  }

  lemma CheckStep(sl: Slot, a: Agent, op: Op, c: Choice, rest: seq<Op>, o: Tally, inFree: nat, inUse: bool)
    requires AroundHeld(sl, a, op, rest, o, inFree, inUse)
    ensures op.TakeCheck? ==>
      Kept(sl, a, o, inFree, inUse, Quiet(sl, a, if sl.completed && c.yes then [Retire] + rest else rest))
    ensures op.CancelCheck? ==>
      Kept(sl, a, o, inFree, inUse, Quiet(sl, a, if !sl.completed then [Finish(E_ABORT, 0)] + rest else rest))
    ensures op.Look? ==> Kept(sl, a, o, inFree, inUse, Quiet(sl, a, rest))
  {
    hide OfOps, Beside, Kept;
    if op.TakeCheck? && sl.completed && c.yes {
      ToMore(sl, a, op, rest, o, inFree, inUse, sl, Retire);
    } else if op.CancelCheck? && !sl.completed {
      ToMore(sl, a, op, rest, o, inFree, inUse, sl, Finish(E_ABORT, 0));
    } else if op.TakeCheck? || op.CancelCheck? || op.Look? {
      ToRest(sl, a, op, rest, o, inFree, inUse, sl);
    }
  }

  lemma RetireStep(sl: Slot, a: Agent, rest: seq<Op>, o: Tally, inFree: nat, inUse: bool)
    requires AroundHeld(sl, a, Retire, rest, o, inFree, inUse)
    ensures Kept(sl, a, o, inFree, inUse, ExecRetire(sl, a, rest))
  {
    hide OfOps, Beside;
    assert a.(begins := false) == a;
    if sl.retired {
      ToRest(sl, a, Retire, rest, o, inFree, inUse, sl);
    } else {
      ToMore(sl, a, Retire, rest, o, inFree, inUse, sl.(retired := true, block := None, beginning := false), Release);
      hide SlotInv, Shape, Refers, With;
    }
  }

  lemma DisposeWith(o: Tally, a: Agent)
    requires !a.begins && Disposing(a.todo)
    ensures With(o, a) == o.(transits := o.transits + 1, cleans := o.cleans + Num(a.todo[0].Cleanup?))
  {
    forall m
      ensures Weight(m, a) == Num(m == Transits || (m == Cleans && a.todo[0].Cleanup?))
    {
      if |a.todo| == 1 {
        Ops1(m, Free);
      } else {
        assert a.todo == [a.todo[0], Free];
        Ops2(m, a.todo[0], Free);
      }
    }
    hide Weight;
  }

  /** release: only the last hold disposes of the slot, and its owner has nothing left to
      do then. */
  lemma ReleaseStep(sl: Slot, a: Agent, rest: seq<Op>, o: Tally, inFree: nat, inUse: bool)
    requires AroundHeld(sl, a, Release, rest, o, inFree, inUse)
    ensures sl.holds > 0 && Kept(sl, a, o, inFree, inUse, ExecRelease(sl, a, rest))
  {
    hide OfOps;
    if rest != [] {
      OwnsLast(rest);
    } else {
      NoOps(Owns);
      NoOps(Retirers);
      NoOps(Announces);
    }
    if sl.holds == 1 {
      assert rest == [] && [TakeProvider, Free] + rest == [TakeProvider, Free];
      DisposeWith(o, a.(todo := [TakeProvider, Free]));
      hide With;
    } else {
      ToRest(sl, a, Release, rest, o, inFree, inUse, sl.(holds := sl.holds - 1));
    }
  }

  /** dispose. */
  lemma DisposeStep(sl: Slot, a: Agent, o: Tally, inFree: nat, inUse: bool, callbacks: set<nat>, c: Choice)
    requires Around(sl, a, o, inFree, inUse) && !a.begins && Disposing(a.todo)
    ensures Kept(sl, a, o, inFree, inUse, Exec(sl, a, callbacks, c))
  {
    hide With, OfOps;
    var e := Exec(sl, a, callbacks, c);
    DisposeWith(o, a);
    assert a.todo[0].TakeProvider? && sl.provider ==> e.agent.todo == [Cleanup, Free];
    assert a.todo[0].TakeProvider? && !sl.provider ==> e.agent.todo == [Free];
    assert a.todo[0].Cleanup? ==> e.agent.todo == [Free];
    assert a.todo[0].Free? ==> e.agent.todo == [];
    if a.todo[0].Free? {
      DoneWith(o, e.agent);
    } else {
      DisposeWith(o, e.agent);
    }
  }
}
