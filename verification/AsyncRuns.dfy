/** What holds over every run of the protocol of gdk/async.cxx. */
module AsyncRuns {
  import opened Wrappers
  import opened AsyncModel
  import opened AsyncProof
  import opened AsyncInvariant

  // ---- Holds ----

  /** A guard or a queued or running task. */
  function Holder(a: Agent): nat {
    Num(a.todo != [] && !a.begins && !InTransit(a.todo[0]))
  }

  /** Holds a call is just handing over: taken for a task not yet in its queue, or dropped
      from the operation or a refused task and about to be given back. */
  function HandedOver(a: Agent): nat {
    if Holder(a) == 1 then OfOps(Owns, a.todo[..|a.todo| - 1]) else if a.todo == [] then 0 else OfOps(Owns, a.todo)
  }

  function Holders(agents: seq<Agent>, x: nat): nat {
    if agents == [] then 0
    else Holders(agents[..|agents| - 1], x) + if agents[|agents| - 1].slot == x then Holder(agents[|agents| - 1]) else 0
  }

  function HandOvers(agents: seq<Agent>, x: nat): nat {
    if agents == [] then 0
    else
      var k := |agents| - 1;
      HandOvers(agents[..k], x) + if agents[k].slot == x then HandedOver(agents[k]) else 0
  }

  lemma {:induction false} LastOwns(todo: seq<Op>)
    requires todo != [] && todo[|todo| - 1] == Release
    ensures OfOps(Owns, todo) == OfOps(Owns, todo[..|todo| - 1]) + 1
  {
    if |todo| > 1 {
      LastOwns(todo[1..]);
      assert todo[1..][..|todo| - 2] == todo[..|todo| - 1][1..];
    }
  }

  lemma OwnsSplit(a: Agent)
    requires Shape(a)
    ensures Weight(Owns, a) == Holder(a) + HandedOver(a)
  {
    if Holder(a) == 1 {
      assert Held(a.todo);
      LastOwns(a.todo);
    }
    hide OfOps;
  }

  lemma {:induction false} TotalSplit(agents: seq<Agent>, x: nat)
    requires Shaped(agents)
    ensures Total(Owns, agents, x) == Holders(agents, x) + HandOvers(agents, x)
  {
    hide Shape, Weight, Holder, HandedOver;
    if agents != [] {
      TotalSplit(agents[..|agents| - 1], x);
      OwnsSplit(agents[|agents| - 1]);
    }
  }

  lemma AllShaped(s: State)
    requires Inv(s)
    ensures Shaped(s.agents)
  {
    forall j | 0 <= j < |s.agents|
      ensures Shape(s.agents[j])
    {
      assert AgentInv(s, s.agents[j]);
    }
  }

  /** A live slot's holds: one if the operation is not retired, one for each guard, one
      for each queued or running task, and those being handed over. */
  lemma HoldCount(run: seq<State>, i: nat, x: nat)
    requires IsRun(run) && i < |run| && x < MAX_OPERATIONS
    ensures |run[i].slots| == MAX_OPERATIONS
    ensures run[i].slots[x].token != 0 ==>
      run[i].slots[x].holds == Num(!run[i].slots[x].retired) + Holders(run[i].agents, x) + HandOvers(run[i].agents, x)
  {
    RunInv(run, i);
    assert SlotOk(run[i], x);
    AllShaped(run[i]);
    TotalSplit(run[i].agents, x);
  }

  /** No guard and no task refers to a freed slot: whoever still works on a slot, and is
      not the one setting it up or disposing of it, finds it live under its own token. */
  lemma NoDangling(run: seq<State>, i: nat, j: nat)
    requires IsRun(run) && i < |run| && j < |run[i].agents| && run[i].agents[j].todo != []
    ensures var s, a := run[i], run[i].agents[j];
      && a.slot < |s.slots| && a.slot !in s.free
      && (!InTransit(a.todo[0]) ==> s.slots[a.slot].token == a.token && Live(s.slots[a.slot]))
  {
    var s, a := run[i], run[i].agents[j];
    RunInv(run, i);
    assert AgentInv(s, a);
    assert SlotOk(s, a.slot);
    ActiveCounts(a);
    PartOfTotal(Owns, s.agents, j, a.slot);
    PartOfTotal(Transits, s.agents, j, a.slot);
    PartOfTotal(Begins, s.agents, j, a.slot);
    hide Total, OfOps, Inv, Known;
  }

  lemma {:induction false} SomeAgent(m: Measure, agents: seq<Agent>, x: nat) returns (j: nat)
    requires Total(m, agents, x) > 0
    ensures j < |agents| && agents[j].slot == x && agents[j].todo != [] && Weight(m, agents[j]) > 0
  {
    var k := |agents| - 1;
    if On(m, agents[k], x) > 0 {
      j := k;
    } else {
      j := SomeAgent(m, agents[..k], x);
    }
  }

  /** Every slot below `used` is exactly one of live, on the free list once, or in the
      hands of exactly one call that sets it up or disposes of it; no other slot is any. */
  lemma Partition(run: seq<State>, i: nat, x: nat)
    requires IsRun(run) && i < |run| && x < MAX_OPERATIONS
    ensures |run[i].slots| == MAX_OPERATIONS
    ensures multiset(run[i].free)[x] + Total(Transits, run[i].agents, x) + Num(Live(run[i].slots[x])) ==
      Num(x < run[i].used)
    ensures x in run[i].free ==> run[i].slots[x].token == 0
    ensures x in run[i].free ==> Total(Owns, run[i].agents, x) == Total(Begins, run[i].agents, x) == 0
  {
    RunInv(run, i);
    assert SlotOk(run[i], x);
    assert x in run[i].free ==> multiset(run[i].free)[x] > 0;
  }

  /** Disposal is under way exactly when the holds of a published slot have reached zero. */
  lemma DisposedAtZero(run: seq<State>, i: nat, x: nat)
    requires IsRun(run) && i < |run| && x < MAX_OPERATIONS
    ensures |run[i].slots| == MAX_OPERATIONS
    ensures run[i].slots[x].token != 0 && run[i].slots[x].holds == 0 <==>
      exists j :: 0 <= j < |run[i].agents| && run[i].agents[j].slot == x && Disposing(run[i].agents[j].todo)
  {
    var s := run[i];
    RunInv(run, i);
    assert SlotOk(s, x);
    if s.slots[x].token != 0 && s.slots[x].holds == 0 {
      var j := SomeAgent(Transits, s.agents, x);
      assert AgentInv(s, s.agents[j]);
      assert Held(s.agents[j].todo) ==> Middle(s.agents[j].todo[0]);
    }
    forall j | 0 <= j < |s.agents| && s.agents[j].slot == x && Disposing(s.agents[j].todo)
      ensures s.slots[x].token != 0 && s.slots[x].holds == 0
    {
      assert AgentInv(s, s.agents[j]);
      PartOfTotal(Transits, s.agents, j, x);
    }
  }

  // ---- The packed word ----

  /** The atomic word of a slot. */
  function Word(sl: Slot): nat { SlotState(sl.token, sl.holds) }

  /** How a slot's word may change in one step: not at all, by one hold more or less, from
      zero to a new token with one hold, or, with no hold left, to zero. */
  ghost predicate WordMoves(a: Slot, b: Slot) {
    if b.token == a.token then Word(b) == Word(a) || Word(b) == Word(a) + 1 || Word(b) + 1 == Word(a)
    else if b.token == 0 then a.holds == 0 && Word(b) == 0
    else Word(a) == 0 && Word(b) == SlotState(b.token, 1)
  }

  /** One hold more or less, or as many as before. */
  ghost predicate HoldMoves(a: Slot, b: Slot) {
    b.token == a.token && (b.holds == a.holds || b.holds == a.holds + 1 || b.holds + 1 == a.holds)
  }

  lemma FinishHolds(sl: Slot, a: Agent, callbacks: set<nat>, c: Choice, rest: seq<Op>, status: int, size: nat, job: Job)
    ensures HoldMoves(sl, ExecFinish(sl, a, status, size, callbacks, rest).slot)
    ensures HoldMoves(sl, ExecRun(sl, a, job, callbacks, c, rest).slot)
    ensures HoldMoves(sl, ExecEnqueue(sl, a, job, c, rest).slot)
  {
  }

  lemma LeaveHolds(sl: Slot, a: Agent, rest: seq<Op>)
    ensures HoldMoves(sl, ExecRetire(sl, a, rest).slot) && HoldMoves(sl, ExecRelease(sl, a, rest).slot)
  {
  }

  lemma ExecHolds(sl: Slot, a: Agent, callbacks: set<nat>, c: Choice)
    requires a.todo != []
    ensures var b := Exec(sl, a, callbacks, c).slot;
      match a.todo[0]
      case Init(_, _) => b.token == a.token && b.holds == 1
      case Free => b.token == 0 && b.holds == sl.holds
      case _ => HoldMoves(sl, b)
  {
    hide ExecFinish, ExecEnqueue, ExecRun, ExecRetire, ExecRelease;
    var rest := a.todo[1..];
    LeaveHolds(sl, a, rest);
    match a.todo[0]
    case Finish(status, size) => FinishHolds(sl, a, callbacks, c, rest, status, size, Perform);
    case Run(job) => FinishHolds(sl, a, callbacks, c, rest, 0, 0, job);
    case Enqueue(job) => FinishHolds(sl, a, callbacks, c, rest, 0, 0, job);
    case _ =>
  }

  lemma ExecWord(sl: Slot, a: Agent, callbacks: set<nat>, c: Choice)
    requires a.todo != [] && a.token > 0 && (a.todo[0].Init? ==> sl.token == 0 && sl.holds == 0)
    requires (a.todo[0].Free? ==> sl.holds == 0)
    ensures WordMoves(sl, Exec(sl, a, callbacks, c).slot)
  {
    ExecHolds(sl, a, callbacks, c);
    hide Exec;
  }

  /** Every step of every run changes a slot's word as one atomic operation of the source
      does. As long as tokens stay below 2^48 and holds below 65536, the word fits 64 bits,
      and token and holds can be read off it: no hold ever carries into the token. */
  lemma PackedRun(run: seq<State>, i: nat, x: nat)
    requires IsRun(run) && i + 1 < |run| && x < MAX_OPERATIONS
    ensures |run[i].slots| == |run[i + 1].slots| == MAX_OPERATIONS
    ensures WordMoves(run[i].slots[x], run[i + 1].slots[x])
    ensures var sl := run[i].slots[x];
      sl.token < 0x1_0000_0000_0000 && sl.holds < HOLD_BITS_SIZE ==>
        Word(sl) < 0x1_0000_0000_0000_0000 && TokenOf(Word(sl)) == sl.token && HoldsOf(Word(sl)) == sl.holds
  {
    var s, t := run[i], run[i + 1];
    RunInv(run, i);
    RunInv(run, i + 1);
    assert Next(run[i], run[i + 1]);
    var sl := s.slots[x];
    if sl.holds < HOLD_BITS_SIZE {
      PackedWord(sl.token, sl.holds);
    }
    WordStep(s, t, x);
  }

  lemma WordStep(s: State, t: State, x: nat)
    requires Inv(s) && Next(s, t) && x < MAX_OPERATIONS
    ensures |t.slots| == MAX_OPERATIONS && WordMoves(s.slots[x], t.slots[x])
  {
    var step :| Enabled(s, step) && t == Take(s, step);
    if step.Go? {
      var a := s.agents[step.agent];
      assert AgentInv(s, a);
      assert SlotOk(s, a.slot);
      assert Held(a.todo) ==> Middle(a.todo[0]);
      PartOfTotal(Transits, s.agents, step.agent, a.slot);
      ExecWord(s.slots[a.slot], a, s.callbacks, step.choice);
      hide Exec, Total, Known, WordMoves;
      SameWord(s.slots[x]);
    }
  }

  lemma SameWord(sl: Slot)
    ensures WordMoves(sl, sl)
  {
  }

  // ---- Tokens ----

  /** One step changes a slot's token from zero to one never seen there, or to zero. */
  lemma TokenStep(s: State, t: State, x: nat)
    requires Inv(s) && Next(s, t) && x < MAX_OPERATIONS
    ensures |t.slots| == MAX_OPERATIONS && s.slots[x].seen <= t.slots[x].seen && t.slots[x].token <= t.slots[x].seen
    ensures t.slots[x].token == s.slots[x].token || t.slots[x].token == 0
      || (s.slots[x].token == 0 && t.slots[x].token > s.slots[x].seen)
  {
    var step :| Enabled(s, step) && t == Take(s, step);
    StepKeeps(s, step);
    assert SlotOk(t, x) && SlotOk(s, x);
    if step.Go? {
      var a := s.agents[step.agent];
      assert AgentInv(s, a);
      InitStarts(a);
      ExecToken(s.slots[a.slot], a, s.callbacks, step.choice);
      hide Exec;
    }
  }

  lemma InitStarts(a: Agent)
    requires Shape(a) && a.todo != []
    ensures a.todo[0].Init? ==> Starting(a.todo)
  {
    assert Held(a.todo) ==> Middle(a.todo[0]);
  }

  lemma {:induction false} SeenGrows(run: seq<State>, i: nat, k: nat, x: nat)
    requires IsRun(run) && i <= k < |run| && x < MAX_OPERATIONS
    ensures |run[i].slots| == |run[k].slots| == MAX_OPERATIONS
    ensures run[i].slots[x].seen <= run[k].slots[x].seen && run[i].slots[x].token <= run[i].slots[x].seen
    decreases k - i
  {
    RunInv(run, i);
    assert SlotOk(run[i], x);
    if i < k {
      assert Next(run[i], run[i + 1]);
      TokenStep(run[i], run[i + 1], x);
      SeenGrows(run, i + 1, k, x);
    }
  }

  /** A token that has left a slot never comes back to it. */
  lemma {:induction false} TokenNeverReturns(run: seq<State>, i: nat, j: nat, k: nat, x: nat)
    requires IsRun(run) && i <= j <= k < |run| && x < MAX_OPERATIONS
    requires |run[i].slots| == |run[j].slots| == MAX_OPERATIONS && run[i].slots[x].token != 0
    requires run[j].slots[x].token != run[i].slots[x].token
    ensures |run[k].slots| == MAX_OPERATIONS && run[k].slots[x].token != run[i].slots[x].token
    decreases k - j
  {
    if j < k {
      SeenGrows(run, i, j, x);
      RunInv(run, j);
      assert Next(run[j], run[j + 1]);
      TokenStep(run[j], run[j + 1], x);
      TokenNeverReturns(run, i, j + 1, k, x);
    }
  }

  /** A token belongs to one slot for ever. */
  lemma TokenOfOneSlot(run: seq<State>, i: nat, k: nat, x: nat, y: nat)
    requires IsRun(run) && i <= k < |run| && x < MAX_OPERATIONS && y < MAX_OPERATIONS
    requires |run[i].slots| == |run[k].slots| == MAX_OPERATIONS
    requires run[i].slots[x].token != 0 && run[k].slots[y].token == run[i].slots[x].token
    ensures x == y
  {
    RunInv(run, i);
    RunInv(run, k);
    OwnerKept(run, i, k);
    assert SlotOk(run[i], x);
    assert SlotOk(run[k], y);
  }

  lemma {:induction false} OwnerKept(run: seq<State>, i: nat, k: nat)
    requires IsRun(run) && i <= k < |run|
    ensures run[i].owner <= run[k].owner
    decreases k - i
  {
    if i < k {
      assert Next(run[i], run[i + 1]);
      var step :| Enabled(run[i], step) && run[i + 1] == Take(run[i], step);
      hide Exec;
      OwnerKept(run, i + 1, k);
    }
  }

  lemma FreeCount(free: seq<nat>, x: nat)
    ensures x in free <==> multiset(free)[x] > 0
  {
  }

  /** A cookie of an operation whose slot has been freed resolves to nothing, in this block
      or any copy of it, however the slot is used later. */
  lemma StaleCookie(run: seq<State>, i: nat, j: nat, k: nat, b: nat, x: nat)
    requires IsRun(run) && i <= j <= k < |run| && x < MAX_OPERATIONS
    requires |run[i].slots| == |run[j].slots| == MAX_OPERATIONS && run[i].slots[x].token != 0
    requires run[j].slots[x].token != run[i].slots[x].token
    requires b < |run[k].blocks| && run[k].blocks[b] == Cookie(x, run[i].slots[x].token)
    ensures !Resolves(run[k], b)
  {
    TokenNeverReturns(run, i, j, k, x);
  }

  /** What a lookup does resolve to is the operation the block was begun with. */
  lemma ResolvesToOwn(run: seq<State>, k: nat, b: nat)
    requires IsRun(run) && k < |run| && Resolves(run[k], b)
    ensures var c := run[k].blocks[b];
      Known(run[k].owner, c.slot,
        c.token) && c.slot < |run[k].slots| && run[k].slots[c.slot].token == c.token && c.slot !in run[k].free
  {
    RunInv(run, k);
    var c := run[k].blocks[b];
    assert SlotOk(run[k], c.slot);
    FreeCount(run[k].free, c.slot);
  }

  // ---- Completion, completion routines, cleanup ----

  /** A step that leaves a slot's token in place leaves a completed operation's status and
      size as they are. */
  lemma StatusStep(s: State, t: State, x: nat)
    requires Inv(s) && Next(s, t) && x < MAX_OPERATIONS
    ensures |t.slots| == MAX_OPERATIONS
    ensures s.slots[x].token == t.slots[x].token != 0 && s.slots[x].completed ==>
      t.slots[x].completed && t.slots[x].status == s.slots[x].status && t.slots[x].size == s.slots[x].size
  {
    var step :| Enabled(s, step) && t == Take(s, step);
    StepKeeps(s, step);
    assert SlotOk(t, x) && SlotOk(s, x);
    if step.Go? {
      var a := s.agents[step.agent];
      assert AgentInv(s, a);
      ExecStatus(s.slots[a.slot], a, s.callbacks, step.choice);
      assert a.todo[0].Init? ==> Starting(a.todo) by {
        assert Held(a.todo) ==> Middle(a.todo[0]);
      }
      hide Exec;
    }
  }

  ghost predicate StatusKept(sl: Slot, e: Effect) {
    sl.completed ==> e.slot.completed && e.slot.status == sl.status && e.slot.size == sl.size
  }

  lemma FinishStatus(sl: Slot, a: Agent, callbacks: set<nat>, rest: seq<Op>, status: int, size: nat)
    ensures StatusKept(sl, ExecFinish(sl, a, status, size, callbacks, rest))
  {
  }

  lemma TaskStatus(sl: Slot, a: Agent, callbacks: set<nat>, c: Choice, rest: seq<Op>, job: Job)
    ensures StatusKept(sl, ExecEnqueue(sl, a, job, c, rest))
    ensures StatusKept(sl, ExecRun(sl, a, job, callbacks, c, rest))
  {
  }

  lemma ReleaseStatus(sl: Slot, a: Agent, rest: seq<Op>)
    ensures StatusKept(sl, ExecRetire(sl, a, rest))
    ensures StatusKept(sl, ExecRelease(sl, a, rest))
  {
  }

  lemma ExecStatus(sl: Slot, a: Agent, callbacks: set<nat>, c: Choice)
    requires a.todo != []
    ensures a.todo[0].Init? || StatusKept(sl, Exec(sl, a, callbacks, c))
  {
    hide ExecFinish, ExecEnqueue, ExecRun, ExecRetire, ExecRelease;
    var rest := a.todo[1..];
    match a.todo[0]
    case Finish(status, size) => FinishStatus(sl, a, callbacks, rest, status, size);
    case Enqueue(job) => TaskStatus(sl, a, callbacks, c, rest, job);
    case Run(job) => TaskStatus(sl, a, callbacks, c, rest, job);
    case Retire => ReleaseStatus(sl, a, rest);
    case Release => ReleaseStatus(sl, a, rest);
    case _ =>
  }

  /** The first finish wins: once completed, an operation keeps its status and size for as
      long as it has its slot. */
  lemma {:induction false} FirstFinishWins(run: seq<State>, i: nat, k: nat, x: nat)
    requires IsRun(run) && i <= k < |run| && x < MAX_OPERATIONS
    requires |run[i].slots| == |run[k].slots| == MAX_OPERATIONS
    requires run[i].slots[x].token == run[k].slots[x].token != 0 && run[i].slots[x].completed
    ensures run[k].slots[x].completed && run[k].slots[x].status == run[i].slots[x].status
    ensures run[k].slots[x].size == run[i].slots[x].size
    decreases k - i
  {
    if i < k {
      RunInv(run, i);
      assert Next(run[i], run[i + 1]);
      TokenStep(run[i], run[i + 1], x);
      StatusStep(run[i], run[i + 1], x);
      if run[i + 1].slots[x].token != run[i].slots[x].token {
        TokenNeverReturns(run, i, i + 1, k, x);
      }
      FirstFinishWins(run, i + 1, k, x);
    }
  }

  /** Status is written once and the completion routine runs at most once, and only after
      completion. */
  lemma WrittenAndAnnouncedOnce(run: seq<State>, i: nat, x: nat)
    requires IsRun(run) && i < |run| && x < MAX_OPERATIONS
    ensures |run[i].slots| == MAX_OPERATIONS
    ensures run[i].slots[x].writes == Num(run[i].slots[x].completed)
    ensures run[i].slots[x].calls + Total(Announces, run[i].agents, x) <= Num(run[i].slots[x].completed)
  {
    RunInv(run, i);
    assert SlotOk(run[i], x);
  }

  /** When its slot is back on the free list, a provider has had cleanup exactly once if
      and only if its begin had not failed; it has had it twice otherwise. */
  lemma CleanedUp(run: seq<State>, i: nat, x: nat)
    requires IsRun(run) && i < |run| && x < MAX_OPERATIONS && x in run[i].free
    ensures |run[i].slots| == MAX_OPERATIONS
    ensures var sl := run[i].slots[x];
      && sl.cleanups == Cleanups(sl)
      && (sl.kind == Provider ==> (sl.cleanups == 1 <==> !sl.failed) && (sl.failed ==> sl.cleanups == 2))
  {
    var s := run[i];
    RunInv(run, i);
    assert SlotOk(s, x);
    assert multiset(s.free)[x] > 0;
    AllShaped(s);
    IdleTotal(Cleans, s.agents, x);
  }

  // ---- A provider whose begin fails ----

  const NO := Choice(false, false, 0, 0)

  /** One call on slot 0, and nothing else going on. */
  ghost predicate Alone(s: State, sl: Slot, begins: bool, todo: seq<Op>) {
    && |s.slots| == MAX_OPERATIONS && s.slots[0] == sl && s.agents == [Agent(0, 1, begins, todo)] && s.callbacks == {}
  }

  lemma GoOn(s: State, sl: Slot, begins: bool, todo: seq<Op>, e: Effect) returns (t: State)
    requires Alone(s, sl, begins, todo) && todo != [] && e == Exec(sl, Agent(0, 1, begins, todo), {}, NO)
    requires e.spawned == []
    requires e.agent.slot == 0 && e.agent.token == 1
    ensures Next(s, t) && Alone(t, e.slot, e.agent.begins, e.agent.todo)
    ensures t.free == if e.freed then s.free + [0] else s.free
  {
    hide Exec, Cookies;
    t := GoStep(s, 0, NO);
    assert Enabled(s, Go(0, NO)) && t == Take(s, Go(0, NO));
    assert [e.agent] + e.spawned == [e.agent];
  }

  const BEGUN := FRESH.(token := 1, holds := 1, block := Some(0), beginning := true, kind := Provider, seen := 1)
  const FAILED := BEGUN.(provider := true, failed := true, cleanups := 1)
  const RETIRED := FAILED.(retired := true, block := None, beginning := false)

  lemma FailsToBegin(s0: State) returns (s1: State, s2: State, s3: State, s4: State)
    requires Alone(s0, FRESH, true, [Init(0, Provider)])
    ensures Next(s0, s1) && Next(s1, s2) && Next(s2, s3) && Next(s3, s4)
    ensures Alone(s4, FAILED, true, [Retire]) && s4.free == s0.free
  {
    hide Next;
    s1 := GoOn(s0, FRESH, true, [Init(0, Provider)], Exec(FRESH, Agent(0, 1, true, [Init(0, Provider)]), {}, NO));
    var t1 := [SetProvider, CallBegin, BeginDone];
    assert Alone(s1, BEGUN, true, t1);
    s2 := GoOn(s1, BEGUN, true, t1, Exec(BEGUN, Agent(0, 1, true, t1), {}, NO));
    s3 := FailsHere(s2);
    var f := BEGUN.(provider := true, failed := true);
    var t3 := [FailCleanup, Retire];
    s4 := GoOn(s3, f, true, t3, Exec(f, Agent(0, 1, true, t3), {}, NO));
  }

  lemma FailsHere(s: State) returns (t: State)
    requires Alone(s, BEGUN.(provider := true), true, [CallBegin, BeginDone])
    ensures Next(s, t) && Alone(t, BEGUN.(provider := true, failed := true), true, [FailCleanup, Retire])
    ensures t.free == s.free
  {
    hide Next;
    var sl := BEGUN.(provider := true);
    t := GoOn(s, sl, true, [CallBegin, BeginDone], Exec(sl, Agent(0, 1, true, [CallBegin, BeginDone]), {}, NO));
  }

  lemma RetiresFailed(s4: State) returns (s5: State, s6: State)
    requires Alone(s4, FAILED, true, [Retire])
    ensures Next(s4, s5) && Next(s5, s6)
    ensures Alone(s6, RETIRED.(holds := 0), false, [TakeProvider, Free]) && s6.free == s4.free
  {
    hide Next;
    var e := Exec(FAILED, Agent(0, 1, true, [Retire]), {}, NO);
    assert e.agent.todo == [Release];
    s5 := GoOn(s4, FAILED, true, [Retire], e);
    var e' := Exec(RETIRED, Agent(0, 1, false, [Release]), {}, NO);
    assert e'.agent.todo == [TakeProvider, Free];
    s6 := GoOn(s5, RETIRED, false, [Release], e');
  }

  lemma DisposesFailed(s6: State) returns (s7: State, s8: State, s9: State)
    requires Alone(s6, RETIRED.(holds := 0), false, [TakeProvider, Free])
    ensures Next(s6, s7) && Next(s7, s8) && Next(s8, s9)
    ensures s9.free == s6.free + [0] && |s9.slots| == MAX_OPERATIONS && s9.slots[0].cleanups == 2
  {
    hide Next;
    var sl := RETIRED.(holds := 0);
    var e := Exec(sl, Agent(0, 1, false, [TakeProvider, Free]), {}, NO);
    assert e.agent.todo == [Cleanup, Free];
    s7 := GoOn(s6, sl, false, [TakeProvider, Free], e);
    var sl' := sl.(provider := false);
    s8 := GoOn(s7, sl', false, [Cleanup, Free], Exec(sl', Agent(0, 1, false, [Cleanup, Free]), {}, NO));
    var sl'' := sl'.(cleanups := 2);
    s9 := GoOn(s8, sl'', false, [Free], Exec(sl'', Agent(0, 1, false, [Free]), {}, NO));
  }

  /** There is a run on which a provider's cleanup is called twice: its begin fails, gets
      the explicit cleanup, and disposal calls it again. */
  lemma CleanedTwice() returns (run: seq<State>, i: nat)
    ensures IsRun(run) && i < |run| && 0 in run[i].free && |run[i].slots| == MAX_OPERATIONS
    ensures run[i].slots[0].cleanups == 2
  {
    hide Alone, Next, Initial;
    var s, s0 := FirstAcquire();
    var s1, s2, s3, s4 := FailsToBegin(s0);
    var s5, s6 := RetiresFailed(s4);
    var s7, s8, s9 := DisposesFailed(s6);
    run, i := [s, s0, s1, s2, s3, s4, s5, s6, s7, s8, s9], 10;
  }

  lemma FirstAcquire() returns (s: State, s0: State)
    ensures Initial(s) && Next(s, s0) && Alone(s0, FRESH, true, [Init(0, Provider)]) && s0.free == []
  {
    s := State(seq(MAX_OPERATIONS, _ => FRESH), [], 0, [NoCookie], {}, [], [0]);
    s0 := AcquireStep(s, 0, Provider);
    assert Enabled(s, Acquire(0, Provider)) && s0 == Take(s, Acquire(0, Provider));
    hide Exec, GoStep, FindStep;
  }
}
