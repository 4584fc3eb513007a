/** The invariant of the protocol of gdk/async.cxx over all runs. */
module AsyncInvariant {
  import opened Wrappers
  import opened AsyncModel
  import opened AsyncProof

  /** All that is to be done on slot i. */
  function Totals(agents: seq<Agent>, i: nat): Tally {
    Tally(Total(Owns, agents, i), Total(Transits, agents, i), Total(Begins, agents, i),
          Total(Retirers, agents, i), Total(Announces, agents, i), Total(Cleans, agents, i))
  }

  function OthersOf(agents: seq<Agent>, k: nat, i: nat): Tally
    requires k < |agents|
  {
    Tally(Others(Owns, agents, k, i), Others(Transits, agents, k, i), Others(Begins, agents, k, i),
          Others(Retirers, agents, k, i), Others(Announces, agents, k, i), Others(Cleans, agents, k, i))
  }

  ghost predicate Known(owner: seq<nat>, slot: nat, token: nat) {
    0 < token < |owner| && owner[token] == slot
  }

  /** An agent is well shaped, its slot exists, and it got its token for that slot. */
  ghost predicate AgentInv(s: State, a: Agent) {
    && Shape(a) && a.slot < |s.slots|
    && (a.todo != [] ==> Refers(a, s.slots[a.slot]) && Known(s.owner, a.slot, a.token))
  }

  ghost predicate SlotOk(s: State, i: nat)
    requires i < |s.slots|
  {
    && SlotInv(s.slots[i], Totals(s.agents, i), multiset(s.free)[i], i < s.used)
    && s.slots[i].seen < |s.owner| && (s.slots[i].token != 0 ==> Known(s.owner, i, s.slots[i].token))
  }

  ghost predicate Inv(s: State) {
    && |s.slots| == MAX_OPERATIONS && s.used <= MAX_OPERATIONS && |s.owner| > 0
    && (forall k :: 0 <= k < |s.free| ==> s.free[k] < MAX_OPERATIONS)
    && (forall j :: 0 <= j < |s.agents| ==> AgentInv(s, s.agents[j]))
    && (forall i :: 0 <= i < MAX_OPERATIONS ==> SlotOk(s, i))
    && (forall b :: 0 <= b < |s.blocks| && s.blocks[b].Cookie? ==> Known(s.owner, s.blocks[b].slot, s.blocks[b].token))
  }

  // ---- Initially ----

  lemma InitialInv(s: State)
    requires Initial(s)
    ensures Inv(s)
  {
    forall i | 0 <= i < MAX_OPERATIONS
      ensures SlotOk(s, i)
    {
      FreshSlot(s, i);
    }
    hide SlotOk;
  }

  lemma FreshSlot(s: State, i: nat)
    requires Initial(s) && i < MAX_OPERATIONS
    ensures SlotOk(s, i)
  {
    assert s.slots[i] == FRESH;
    assert Totals(s.agents, i) == Tally(0, 0, 0, 0, 0, 0);
    assert multiset(s.free)[i] == 0;
    hide Totals;
  }

  // ---- Adding a call ----

  lemma TotalsSnoc(agents: seq<Agent>, a: Agent, i: nat)
    ensures Totals(agents + [a], i) == if a.slot == i then With(Totals(agents, i), a) else Totals(agents, i)
  {
    TotalSnoc(Owns, agents, a, i);
    TotalSnoc(Transits, agents, a, i);
    TotalSnoc(Begins, agents, a, i);
    TotalSnoc(Retirers, agents, a, i);
    TotalSnoc(Announces, agents, a, i);
    TotalSnoc(Cleans, agents, a, i);
    hide Total, Weight;
  }

  lemma TotalsAt(agents: seq<Agent>, k: nat, b: Agent, i: nat)
    requires k < |agents| && agents[k].slot == b.slot
    ensures agents[k].slot == i ==> Totals(agents, i) == With(OthersOf(agents, k, i), agents[k])
    ensures agents[k].slot == i ==> Totals(agents[k := b], i) == With(OthersOf(agents, k, i), b)
    ensures agents[k].slot != i ==> Totals(agents[k := b], i) == Totals(agents, i)
  {
    forall m
      ensures Total(m, agents, i) == Others(m, agents, k, i) + On(m, agents[k], i)
      ensures Total(m, agents[k := b], i) == Others(m, agents, k, i) + On(m, b, i)
    {
      TotalOthers(m, agents, k, i, b);
    }
    hide Total, Others, Weight;
  }

  lemma StartingWith(o: Tally, a: Agent)
    requires a.begins && Starting(a.todo)
    ensures With(o, a) == o.(transits := o.transits + 1)
  {
    var b := a.(todo := [Hold(Perform), BeginDone]);
    forall m
      ensures Weight(m, a) == Num(m == Transits)
    {
      StartWeights(m, a, b, Local);
    }
    hide Weight;
  }

  lemma CallWith(o: Tally, a: Agent, call: Call)
    requires !a.begins && a.todo == Ops(call)
    ensures Held(a.todo)
    ensures With(o, a) == o.(owns := o.owns + 1,
      retirers := o.retirers + (if call == TakeResult then 1 else if call == Cancel then 2 else 0))
  {
    HeldWith(o, a);
    forall m | m == Owns || m == Retirers || m == Announces
      ensures OfOps(m, a.todo) == match m
        case Owns => 1
        case Retirers => if call == TakeResult then 1 else if call == Cancel then 2 else 0
        case _ => 0
    {
      CallOps(m, call);
    }
    hide OfOps, With;
  }

  lemma CallOps(m: Measure, call: Call)
    requires m == Owns || m == Retirers || m == Announces
    ensures OfOps(m, Ops(call)) == match m
      case Owns => 1
      case Retirers => if call == TakeResult then 1 else if call == Cancel then 2 else 0
      case _ => 0
  {
    if call == Cancel {
      Ops3(m, CancelCheck, Retire, Release);
    } else {
      Ops2(m, Ops(call)[0], Release);
    }
    hide OfOps;
  }

  lemma LastOfFree(free: seq<nat>)
    requires free != []
    ensures multiset(free)[free[|free| - 1]] > 0
    ensures multiset(free) == multiset(free[..|free| - 1]) + multiset{free[|free| - 1]}
  {
    assert free == free[..|free| - 1] + [free[|free| - 1]];
  }

  lemma FreeSnoc(free: seq<nat>, x: nat, i: nat)
    ensures multiset(free + [x])[i] == multiset(free)[i] + Num(x == i)
  {
  }

  lemma OwnerGrows(owner: seq<nat>, slot: nat, token: nat, x: nat)
    requires Known(owner, slot, token)
    ensures Known(owner + [x], slot, token)
  {
  }

  lemma AcquireKeeps(s: State, block: nat, kind: Kind)
    requires Inv(s) && Enabled(s, Acquire(block, kind))
    ensures Inv(AcquireStep(s, block, kind))
  {
    var t := AcquireStep(s, block, kind);
    var slot := if s.free != [] then s.free[|s.free| - 1] else s.used;
    forall i | 0 <= i < MAX_OPERATIONS
      ensures SlotOk(t, i)
    {
      AcquireSlot(s, block, kind, i);
    }
    assert SlotOk(s, slot);
    if s.free != [] {
      LastOfFree(s.free);
    }
    AcquiredKnown(s.owner, slot);
    hide Totals, With, Known, SlotOk;
    forall j | 0 <= j < |t.agents|
      ensures AgentInv(t, t.agents[j])
    {
      if j < |s.agents| {
        assert AgentInv(s, s.agents[j]);
        if s.agents[j].todo != [] {
          OwnerGrows(s.owner, s.agents[j].slot, s.agents[j].token, slot);
        }
      }
    }
    forall b | 0 <= b < |t.blocks| && t.blocks[b].Cookie?
      ensures Known(t.owner, t.blocks[b].slot, t.blocks[b].token)
    {
      OwnerGrows(s.owner, s.blocks[b].slot, s.blocks[b].token, slot);
    }
  }

  lemma AcquireSlot(s: State, block: nat, kind: Kind, i: nat)
    requires Inv(s) && Enabled(s, Acquire(block, kind)) && i < MAX_OPERATIONS
    ensures SlotOk(AcquireStep(s, block, kind), i)
  {
    var t := AcquireStep(s, block, kind);
    var slot := if s.free != [] then s.free[|s.free| - 1] else s.used;
    var a := Agent(slot, NextToken(s), true, [Init(block, kind)]);
    var free := multiset(s.free)[i];
    assert multiset(t.free)[i] == if s.free != [] && i == slot then free - 1 else free by {
      if s.free != [] {
        LastOfFree(s.free);
      }
    }
    assert SlotOk(s, i);
    hide Totals, With, Known, Inv, SlotInv;
    TotalsSnoc(s.agents, a, i);
    StartingWith(Totals(s.agents, i), a);
    if i == slot {
      TakenSlot(s.slots[i], Totals(s.agents, i), free, s.used, t.used, i, s.free != []);
    }
    if s.slots[i].token != 0 {
      OwnerGrows(s.owner, i, s.slots[i].token, slot);
    }
  }

  /** The slot acquire takes passes into the hands of its call. */
  lemma TakenSlot(sl: Slot, t: Tally, free: nat, used: nat, used': nat, i: nat, recycled: bool)
    requires SlotInv(sl, t, free, i < used)
    requires (if recycled then free > 0 && used' == used else i == used && used' == used + 1)
    ensures SlotInv(sl, t.(transits := t.transits + 1), if recycled then free - 1 else free, i < used')
  {
  }

  lemma AcquiredKnown(owner: seq<nat>, slot: nat)
    requires |owner| > 0
    ensures Known(owner + [slot], slot, |owner|)
  {
  }

  lemma FindKeeps(s: State, block: nat, call: Call)
    requires Inv(s) && Enabled(s, Find(block, call))
    ensures Inv(FindStep(s, block, call))
  {
    var t := FindStep(s, block, call);
    var x := s.blocks[block].slot;
    var a := Agent(x, s.blocks[block].token, false, Ops(call));
    assert SlotOk(s, x);
    hide Totals, With, Ops, Held;
    CallWith(Totals(s.agents, x), a, call);
    forall i | 0 <= i < MAX_OPERATIONS
      ensures SlotOk(t, i)
    {
      assert SlotOk(s, i);
      TotalsSnoc(s.agents, a, i);
    }
    FoundRefers(a, t.slots[x], call);
    forall j | 0 <= j < |t.agents|
      ensures AgentInv(t, t.agents[j])
    {
      if j < |s.agents| {
        assert AgentInv(s, s.agents[j]);
      }
    }
  }

  lemma FoundRefers(a: Agent, sl: Slot, call: Call)
    requires a.todo == Ops(call) && a.token == sl.token != 0 && !a.begins && Held(a.todo)
    ensures Shape(a) && Refers(a, sl)
  {
  }

  // ---- A step of a call ----

  /** Every step of every call keeps its slot's invariant. */
  lemma StepKept(sl: Slot, a: Agent, o: Tally, inFree: nat, inUse: bool, callbacks: set<nat>, c: Choice)
    requires Around(sl, a, o, inFree, inUse) && a.todo != []
    ensures Kept(sl, a, o, inFree, inUse, Exec(sl, a, callbacks, c))
  {
    hide Kept, Around;
    var op, rest := a.todo[0], a.todo[1..];
    ShapeCases(sl, a, o, inFree, inUse);
    if a.begins && Starting(a.todo) {
      StartStep(sl, a, o, inFree, inUse, op.block, op.kind);
    } else if a.begins {
      BeginStep(sl, a, o, inFree, inUse, callbacks, c);
    } else if Disposing(a.todo) {
      DisposeStep(sl, a, o, inFree, inUse, callbacks, c);
    } else {
      HeldStep(sl, a, op, rest, o, inFree, inUse, callbacks, c);
    }
  }

  lemma ShapeCases(sl: Slot, a: Agent, o: Tally, inFree: nat, inUse: bool)
    requires Around(sl, a, o, inFree, inUse)
    ensures Shape(a)
  {
  }

  lemma HeldStep(sl: Slot, a: Agent, op: Op, rest: seq<Op>, o: Tally, inFree: nat, inUse: bool, callbacks: set<nat>,
                 c: Choice)
    requires Around(sl, a, o, inFree, inUse) && !a.begins && Held(a.todo) && op == a.todo[0] && rest == a.todo[1..]
    ensures Kept(sl, a, o, inFree, inUse, Exec(sl, a, callbacks, c))
  {
    hide Kept, AroundHeld, Around;
    assert a.todo == [op] + rest;
    HeldRest(op, rest);
    ToHeld(sl, a, op, rest, o, inFree, inUse);
    match op
    case Hold(job) => HoldStep(sl, a, job, rest, o, inFree, inUse);
    case Enqueue(job) => EnqueueStep(sl, a, job, c, rest, o, inFree, inUse);
    case Run(job) => RunStep(sl, a, job, callbacks, c, rest, o, inFree, inUse);
    case Finish(status, size) => FinishStep(sl, a, status, size, callbacks, rest, o, inFree, inUse);
    case Retire => RetireStep(sl, a, rest, o, inFree, inUse);
    case Release => ReleaseStep(sl, a, rest, o, inFree, inUse);
    case _ => CheckStep(sl, a, op, c, rest, o, inFree, inUse);
  }

  lemma OthersIdle(s: State, k: nat, x: nat)
    requires Inv(s) && k < |s.agents|
    ensures var o := OthersOf(s.agents, k, x); o.owns == o.transits == o.begins == 0 ==> None0(o)
  {
    var o := OthersOf(s.agents, k, x);
    assert Shaped(s.agents) by {
      forall j | 0 <= j < |s.agents|
        ensures Shape(s.agents[j])
      {
        assert AgentInv(s, s.agents[j]);
      }
    }
    hide Others, Inv;
    if o.owns == o.transits == o.begins == 0 {
      IdleOthers(Retirers, s.agents, k, x);
      IdleOthers(Announces, s.agents, k, x);
      IdleOthers(Cleans, s.agents, k, x);
    }
  }

  /** In a good state every call finds its slot in order. */
  lemma AroundAgent(s: State, k: nat)
    requires Inv(s) && k < |s.agents| && s.agents[k].todo != []
    ensures var a := s.agents[k];
      && a.slot < MAX_OPERATIONS
      && Around(s.slots[a.slot], a, OthersOf(s.agents, k, a.slot), multiset(s.free)[a.slot], a.slot < s.used)
  {
    var a := s.agents[k];
    assert AgentInv(s, a);
    assert SlotOk(s, a.slot);
    OthersIdle(s, k, a.slot);
    TotalsAt(s.agents, k, a, a.slot);
    hide Totals, With, Inv, SlotInv, OthersOf, Shape, Refers;
  }

  ghost predicate TokenKept(sl: Slot, a: Agent, e: Effect) {
    e.slot.token == sl.token && e.slot.seen == sl.seen
  }

  lemma FinishToken(sl: Slot, a: Agent, callbacks: set<nat>, rest: seq<Op>, status: int, size: nat)
    ensures TokenKept(sl, a, ExecFinish(sl, a, status, size, callbacks, rest))
  {
  }

  lemma TaskToken(sl: Slot, a: Agent, callbacks: set<nat>, c: Choice, rest: seq<Op>, job: Job)
    ensures TokenKept(sl, a, ExecEnqueue(sl, a, job, c, rest))
    ensures TokenKept(sl, a, ExecRun(sl, a, job, callbacks, c, rest))
  {
  }

  lemma ReleaseToken(sl: Slot, a: Agent, rest: seq<Op>)
    ensures TokenKept(sl, a, ExecRetire(sl, a, rest))
    ensures TokenKept(sl, a, ExecRelease(sl, a, rest))
  {
  }

  /** Tokens come from acquire alone and go when the slot is freed. */
  lemma ExecToken(sl: Slot, a: Agent, callbacks: set<nat>, c: Choice)
    requires a.todo != []
    ensures var e := Exec(sl, a, callbacks, c);
      || TokenKept(sl, a, e)
      || (e.slot.token == 0 && e.slot.seen == sl.seen && a.todo[0].Free?)
      || (e.slot.token == a.token && e.slot.seen == a.token && a.todo[0].Init?)
  {
    hide ExecFinish, ExecEnqueue, ExecRun, ExecRetire, ExecRelease;
    var rest := a.todo[1..];
    match a.todo[0]
    case Finish(status, size) => FinishToken(sl, a, callbacks, rest, status, size);
    case Enqueue(job) => TaskToken(sl, a, callbacks, c, rest, job);
    case Run(job) => TaskToken(sl, a, callbacks, c, rest, job);
    case Retire => ReleaseToken(sl, a, rest);
    case Release => ReleaseToken(sl, a, rest);
    case _ =>
  }

  lemma GoSlot(s: State, k: nat, c: Choice, i: nat)
    requires Inv(s) && Enabled(s, Go(k, c)) && i < MAX_OPERATIONS
    ensures SlotOk(GoStep(s, k, c), i)
  {
    if i == s.agents[k].slot {
      GoOwnSlot(s, k, c);
    } else {
      GoOtherSlot(s, k, c, i);
    }
  }

  lemma TotalsAfter(agents: seq<Agent>, k: nat, e: Effect, i: nat)
    requires k < |agents| && agents[k].slot == e.agent.slot && |e.spawned| <= 1
    requires e.spawned != [] ==> e.spawned[0].slot == agents[k].slot
    ensures var o := OthersOf(agents, k, i);
      Totals(agents[k := e.agent] + e.spawned, i) ==
        if agents[k].slot != i then Totals(agents, i)
        else if e.spawned == [] then With(o, e.agent) else With(With(o, e.agent), e.spawned[0])
  {
    hide Totals, With, OthersOf;
    TotalsAt(agents, k, e.agent, i);
    if e.spawned != [] {
      assert e.spawned == [e.spawned[0]];
      TotalsSnoc(agents[k := e.agent], e.spawned[0], i);
    } else {
      assert agents[k := e.agent] + e.spawned == agents[k := e.agent];
    }
  }

  lemma GoOwnSlot(s: State, k: nat, c: Choice)
    requires Inv(s) && Enabled(s, Go(k, c)) && s.agents[k].slot < MAX_OPERATIONS
    ensures SlotOk(GoStep(s, k, c), s.agents[k].slot)
  {
    var a := s.agents[k];
    var x, sl, o := a.slot, s.slots[a.slot], OthersOf(s.agents, k, a.slot);
    var e := Exec(sl, a, s.callbacks, c);
    assert AgentInv(s, a);
    assert SlotOk(s, x);
    AroundAgent(s, k);
    hide Exec, Totals, With, OthersOf, Inv, SlotInv, Shape, Refers, Around;
    StepKept(sl, a, o, multiset(s.free)[x], x < s.used, s.callbacks, c);
    ExecToken(sl, a, s.callbacks, c);
    TotalsAfter(s.agents, k, e, x);
    FreeSnoc(s.free, x, x);
  }

  lemma GoOtherSlot(s: State, k: nat, c: Choice, i: nat)
    requires Inv(s) && Enabled(s, Go(k, c)) && i < MAX_OPERATIONS && i != s.agents[k].slot
    ensures SlotOk(GoStep(s, k, c), i)
  {
    var a := s.agents[k];
    var x, sl, o := a.slot, s.slots[a.slot], OthersOf(s.agents, k, a.slot);
    var e := Exec(sl, a, s.callbacks, c);
    assert SlotOk(s, i);
    AroundAgent(s, k);
    hide Exec, Totals, With, OthersOf, Inv, SlotInv, Shape, Refers, Around;
    StepKept(sl, a, o, multiset(s.free)[x], x < s.used, s.callbacks, c);
    TotalsAfter(s.agents, k, e, i);
    FreeSnoc(s.free, x, i);
  }

  /** Another call on the same slot still finds it as it was. */
  lemma OtherAgent(s: State, k: nat, c: Choice, j: nat)
    requires Inv(s) && Enabled(s, Go(k, c)) && j < |s.agents| && j != k
    ensures AgentInv(GoStep(s, k, c), s.agents[j])
  {
    var a, b := s.agents[k], s.agents[j];
    var x, sl, o := a.slot, s.slots[a.slot], OthersOf(s.agents, k, a.slot);
    var e := Exec(sl, a, s.callbacks, c);
    AroundAgent(s, k);
    StepKept(sl, a, o, multiset(s.free)[x], x < s.used, s.callbacks, c);
    assert AgentInv(s, b);
    PartOfOthers(Owns, s.agents, k, j, x);
    PartOfOthers(Transits, s.agents, k, j, x);
    PartOfOthers(Begins, s.agents, k, j, x);
    hide Exec, Totals, With, Inv, SlotInv, Around, Others;
    if b.todo != [] && b.slot == x {
      ActiveCounts(b);
      OtherRefers(b, sl, e.slot, o);
    }
  }

  lemma OtherRefers(b: Agent, sl: Slot, sl': Slot, o: Tally)
    requires Shape(b) && b.todo != [] && Refers(b, sl)
    requires Weight(Owns, b) <= o.owns && Weight(Transits, b) <= o.transits && Weight(Begins, b) <= o.begins
    requires Weight(Owns, b) + Weight(Transits, b) + Weight(Begins, b) > 0
    requires sl'.token != sl.token || sl'.seen != sl.seen || sl'.kind != sl.kind ==> None0(o)
    requires sl'.failed != sl.failed ==> o.begins == 0
    requires sl'.provider && !sl.provider ==> o.transits == 0
    ensures Refers(b, sl')
  {
    assert b.todo[0].Cleanup? || b.todo[0].Free? ==> Weight(Transits, b) == 1;
    assert b.todo[0].SetProvider? || b.todo[0].CallBegin? ==> Weight(Begins, b) == 1;
    hide Weight;
  }

  lemma GoAgent(s: State, k: nat, c: Choice, j: nat)
    requires Inv(s) && Enabled(s, Go(k, c)) && j < |GoStep(s, k, c).agents|
    ensures AgentInv(GoStep(s, k, c), GoStep(s, k, c).agents[j])
  {
    hide Exec, Inv, AgentInv;
    if j != k && j < |s.agents| {
      OtherAgent(s, k, c, j);
    } else {
      OwnAgents(s, k, c);
    }
  }

  /** The call that took the step, and the task it put into a queue. */
  lemma OwnAgents(s: State, k: nat, c: Choice)
    requires Inv(s) && Enabled(s, Go(k, c))
    ensures var t := GoStep(s, k, c);
      && AgentInv(t, t.agents[k]) && |t.agents| <= |s.agents| + 1
      && (|t.agents| > |s.agents| ==> AgentInv(t, t.agents[|s.agents|]))
  {
    var a := s.agents[k];
    var x, sl, o := a.slot, s.slots[a.slot], OthersOf(s.agents, k, a.slot);
    var e := Exec(sl, a, s.callbacks, c);
    assert AgentInv(s, a);
    AroundAgent(s, k);
    hide Exec, SlotOk, With, SlotInv, Around, OthersOf, Inv, Shape, Refers;
    StepKept(sl, a, o, multiset(s.free)[x], x < s.used, s.callbacks, c);
    if e.spawned != [] {
      TaskShape(e.spawned[0], a);
    }
  }

  lemma GoKeeps(s: State, k: nat, c: Choice)
    requires Inv(s) && Enabled(s, Go(k, c))
    ensures Inv(GoStep(s, k, c))
  {
    var t := GoStep(s, k, c);
    assert AgentInv(s, s.agents[k]);
    forall i | 0 <= i < MAX_OPERATIONS
      ensures SlotOk(t, i)
    {
      GoSlot(s, k, c, i);
    }
    forall j | 0 <= j < |t.agents|
      ensures AgentInv(t, t.agents[j])
    {
      GoAgent(s, k, c, j);
    }
    hide Exec, SlotOk, AgentInv;
  }

  lemma TaskShape(b: Agent, a: Agent)
    requires IsTask(b, a)
    ensures Shape(b)
  {
  }

  // ---- All runs ----

  lemma StepKeeps(s: State, step: Step)
    requires Inv(s) && Enabled(s, step)
    ensures Inv(Take(s, step))
  {
    match step
    case Acquire(block, kind) => AcquireKeeps(s, block, kind);
    case Find(block, call) => FindKeeps(s, block, call);
    case Go(i, c) => GoKeeps(s, i, c);
    case CopyBlock(from, to) => CopyKeeps(s, from, to);
  }

  lemma CopyKeeps(s: State, from: nat, to: nat)
    requires Inv(s) && from < |s.blocks| && to < |s.blocks|
    ensures Inv(s.(blocks := s.blocks[to := s.blocks[from]]))
  {
    var t := s.(blocks := s.blocks[to := s.blocks[from]]);
    forall i | 0 <= i < MAX_OPERATIONS
      ensures SlotOk(t, i)
    {
      assert SlotOk(s, i);
    }
    forall j | 0 <= j < |t.agents|
      ensures AgentInv(t, t.agents[j])
    {
      assert AgentInv(s, s.agents[j]);
    }
  }

  /** Every state of every run is good. */
  lemma {:induction false} RunInv(run: seq<State>, i: nat)
    requires IsRun(run) && i < |run|
    ensures Inv(run[i])
  {
    if i == 0 {
      InitialInv(run[0]);
    } else {
      RunInv(run, i - 1);
      hide Inv, Enabled, Take;
      assert Next(run[i - 1], run[i - 1 + 1]);
      var step :| Enabled(run[i - 1], step) && run[i] == Take(run[i - 1], step);
      StepKeeps(run[i - 1], step);
    }
  }
}
