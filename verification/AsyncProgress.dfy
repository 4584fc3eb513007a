/** gdk/async.cxx: that no operation is forgotten, no completion routine lost and no scheduled work
    dropped, but for what a queue refuses. */
module AsyncProgress {
  import opened Wrappers
  import opened AsyncModel
  import opened AsyncProof
  import opened AsyncInvariant
  import opened AsyncRuns
  import opened AsyncOutcomes

  // ---- A local operation is always on its way ----

  /** An operation that has neither completed nor been retired. */
  predicate Waiting(s: State, x: nat) {
    && x < |s.slots|
    && var sl := s.slots[x]; sl.token != 0 && sl.kind == Local && !sl.completed && !sl.retired
  }

  predicate Submitting(a: Agent) {
    a.begins && a.todo != [] && (a.todo[0] == Hold(Perform) || a.todo[0] == Enqueue(Perform))
  }

  /** The call or task is going to complete the operation, to retire it, or to submit the task
      that will. */
  ghost predicate WorksOn(s: State, k: nat, x: nat) {
    && k < |s.agents| && x < |s.slots|
    && var a := s.agents[k];
       && a.slot == x && a.token == s.slots[x].token
       && (Owed(ToComplete, a.todo) || Owed(ToRetire, a.todo) || Submitting(a))
  }

  ghost predicate OnItsWay(s: State, x: nat) {
    exists k :: WorksOn(s, k, x)
  }

  lemma ExecSubmits(sl: Slot, a: Agent, callbacks: set<nat>, c: Choice)
    requires Shape(a) && Submitting(a)
    ensures var e := Exec(sl, a, callbacks, c);
      || Submitting(e.agent) || Owed(ToRetire, e.agent.todo)
      || (|e.spawned| == 1 && e.spawned[0] == Agent(a.slot, a.token, false, [Run(Perform), Release]))
  {
    assert Beginning(a.todo);
    assert Serves(ToRetire, [Release, Retire][1]);
  }

  lemma TaskOwes()
    ensures Owed(ToComplete, [Run(Perform), Release])
  {
    assert Serves(ToComplete, [Run(Perform), Release][0]);
  }

  /** The one that works on it took a step, and it or the task it submitted still does. */
  lemma WorkGoesOn(s: State, t: State, k: nat, x: nat, c: Choice)
    requires Inv(s) && Enabled(s, Go(k, c)) && t == Take(s, Go(k, c)) && WorksOn(s, k, x) && Waiting(t, x)
    requires s.slots[x].token == t.slots[x].token
    ensures OnItsWay(t, x)
  {
    var a := s.agents[k];
    assert AgentInv(s, a);
    var e := Exec(s.slots[x], a, s.callbacks, c);
    AgentIdentity(s.slots[x], a, s.callbacks, c);
    hide Exec, Inv, Owed, Shape;
    if Owed(ToComplete, a.todo) {
      ExecOwes(ToComplete, s.slots[x], a, s.callbacks, c);
      assert WorksOn(t, k, x);
    } else if Owed(ToRetire, a.todo) {
      ExecOwes(ToRetire, s.slots[x], a, s.callbacks, c);
      assert WorksOn(t, k, x);
    } else {
      ExecSubmits(s.slots[x], a, s.callbacks, c);
      TaskOwes();
      if |e.spawned| == 1 && e.spawned[0].todo == [Run(Perform), Release] {
        assert t.agents[|s.agents|] == e.spawned[0];
        assert WorksOn(t, |s.agents|, x);
      } else {
        assert WorksOn(t, k, x);
      }
    }
  }

  lemma ExecStarts(sl: Slot, a: Agent, callbacks: set<nat>, c: Choice)
    requires a.todo != [] && a.begins && a.todo[0].Init?
    ensures var e := Exec(sl, a, callbacks, c);
      e.slot.token == a.token && (e.slot.kind == Local ==> Submitting(e.agent))
  {
  }

  /** A slot gets a token when its operation is set up, and then the task is about to be
      submitted. */
  lemma StartsWork(s: State, t: State, x: nat)
    requires Inv(s) && Next(s, t) && Waiting(t, x) && x < |s.slots| && s.slots[x].token != t.slots[x].token
    ensures OnItsWay(t, x)
  {
    var step :| Enabled(s, step) && t == Take(s, step);
    var k := step.agent;
    var a := s.agents[k];
    assert AgentInv(s, a);
    InitStarts(a);
    ExecToken(s.slots[x], a, s.callbacks, step.choice);
    AgentIdentity(s.slots[x], a, s.callbacks, step.choice);
    hide Exec, Inv;
    assert a.begins;
    ExecStarts(s.slots[x], a, s.callbacks, step.choice);
    assert WorksOn(t, k, x);
  }

  lemma WayStep(s: State, t: State, x: nat)
    requires Inv(s) && Next(s, t) && x < MAX_OPERATIONS && Waiting(t, x) && (Waiting(s, x) ==> OnItsWay(s, x))
    ensures OnItsWay(t, x)
  {
    hide Inv, Next, OnItsWay, WorksOn;
    InvSlots(s);
    SlotOnward(s, t, x);
    if s.slots[x].token != t.slots[x].token {
      StartsWork(s, t, x);
    } else {
      var k := Worker(s, x);
      KeepsWork(s, t, k, x);
    }
  }

  lemma Worker(s: State, x: nat) returns (k: nat)
    requires OnItsWay(s, x)
    ensures WorksOn(s, k, x) && k < |s.agents|
  {
    k :| WorksOn(s, k, x);
  }

  lemma KeepsWork(s: State, t: State, k: nat, x: nat)
    requires Inv(s) && Next(s, t) && WorksOn(s, k, x) && Waiting(t, x) && s.slots[x].token == t.slots[x].token
    ensures OnItsWay(t, x)
  {
    AgentStays(s, t, k);
    var step := AgentStep(s, t, k);
    hide Exec, Inv;
    if t.agents[k] != s.agents[k] {
      WorkGoesOn(s, t, k, x, step.choice);
    } else {
      assert WorksOn(t, k, x);
    }
  }

  lemma NoneWaits(s: State, x: nat)
    requires Initial(s)
    ensures !Waiting(s, x)
  {
  }

  /** On every run: while a local operation is neither completed nor retired, some call or task
      is still there that will complete it, retire it, or submit the task that will. */
  lemma {:induction false} NotForgotten(run: seq<State>, i: nat, x: nat)
    requires IsRun(run) && i < |run| && x < MAX_OPERATIONS && Waiting(run[i], x)
    ensures OnItsWay(run[i], x)
  {
    hide OnItsWay, Next, Inv;
    if i == 0 {
      NoneWaits(run[0], x);
    } else {
      hide IsRun;
      RunInv(run, i - 1);
      InvSlots(run[i - 1]);
      StepOfRun(run, i - 1);
      if Waiting(run[i - 1], x) {
        NotForgotten(run, i - 1, x);
      }
      WayStep(run[i - 1], run[i], x);
    }
  }

  // ---- The completion routine ----

  /** How often the completion routine was called, and will be. */
  function Announced(s: State, x: nat): nat
    requires x < |s.slots|
  {
    s.slots[x].calls + Total(Announces, s.agents, x)
  }

  /** The queue does not take the task that calls it. */
  ghost predicate Refuses(s: State, t: State, x: nat) {
    exists k :: 0 <= k < |s.agents| == |t.agents| && s.agents[k].slot == x && t.agents[k] != s.agents[k]
      && s.agents[k].todo != [] && s.agents[k].todo[0] == Enqueue(Announce)
  }

  function Spawned(spawned: seq<Agent>): nat {
    if spawned == [] then 0 else Weight(Announces, spawned[0])
  }

  lemma {:induction false} OfCat(m: Measure, pre: seq<Op>, rest: seq<Op>)
    ensures OfOps(m, pre + rest) == OfOps(m, pre) + OfOps(m, rest)
    decreases |pre|
  {
    if pre == [] {
      assert pre + rest == rest;
    } else {
      assert (pre + rest)[1..] == pre[1..] + rest;
      OfCat(m, pre[1..], rest);
    }
  }

  lemma NoneAtBegin(a: Agent)
    requires a.begins && Shape(a) && a.todo != []
    ensures OfOps(Announces, a.todo) == 0
  {
    if Starting(a.todo) {
      assert a.todo == [a.todo[0]];
      Ops1(Announces, a.todo[0]);
    } else {
      BeginWeights(Announces, a);
    }
  }

  lemma NoneAtEnd(a: Agent)
    requires !a.begins && Disposing(a.todo)
    ensures OfOps(Announces, a.todo) == 0
  {
    Ops2(Announces, TakeProvider, Free);
    Ops2(Announces, Cleanup, Free);
    Ops1(Announces, Free);
  }

  /** A step of a guard or a task. */
  lemma HeldAnnounces(sl: Slot, a: Agent, callbacks: set<nat>, c: Choice)
    requires !a.begins && Held(a.todo) && sl.block.Some? && sl.block.value in callbacks
    ensures var e := Exec(sl, a, callbacks, c);
      || (a.todo[0] == Enqueue(Announce) && e.spawned == [] && e.agent != a)
      || e.slot.calls + OfOps(Announces, e.agent.todo) + Spawned(e.spawned) >= sl.calls + OfOps(Announces, a.todo)
  {
    var op, rest := a.todo[0], a.todo[1..];
    var e := Exec(sl, a, callbacks, c);
    assert OfOps(Announces, a.todo) == One(Announces, op) + OfOps(Announces, rest);
    assert Middle(op);
    RestStays(sl, a, callbacks, c);
    var pre :| e.agent.todo == pre + rest;
    OfCat(Announces, pre, rest);
    hide Held;
    if One(Announces, op) == 1 {
      AnnounceMoves(sl, a, callbacks, c, op, rest);
    } else {
      CallsStay(sl, a, callbacks, c);
    }
  }

  lemma CallsStay(sl: Slot, a: Agent, callbacks: set<nat>, c: Choice)
    requires a.todo != [] && Middle(a.todo[0])
    ensures Exec(sl, a, callbacks, c).slot.calls >= sl.calls
  {
    hide Exec;
    AnyCalls(sl, a, callbacks, c);
  }

  lemma AnnounceMoves(sl: Slot, a: Agent, callbacks: set<nat>, c: Choice, op: Op, rest: seq<Op>)
    requires a.todo != [] && !a.begins && op == a.todo[0] && rest == a.todo[1..] && One(Announces, op) == 1
    requires sl.block.Some? && sl.block.value in callbacks
    ensures var e := Exec(sl, a, callbacks, c);
      || (op == Enqueue(Announce) && e.spawned == [] && e.agent != a)
      || e.slot.calls + OfOps(Announces, e.agent.todo) + Spawned(e.spawned) >= sl.calls + 1 + OfOps(Announces, rest)
  {
    Ops2(Announces, Run(Announce), Release);
    Cons(Announces, Enqueue(Announce), rest);
    hide OfOps;
    if op == Enqueue(Announce) && !c.yes {
      assert Exec(sl, a, callbacks, c).agent.todo[0] == Release;
    }
  }

  lemma ExecAnnounces(sl: Slot, a: Agent, callbacks: set<nat>, c: Choice)
    requires Shape(a) && a.todo != [] && sl.block.Some? && sl.block.value in callbacks
    requires !a.todo[0].Init?
    ensures var e := Exec(sl, a, callbacks, c);
      || (a.todo[0] == Enqueue(Announce) && e.spawned == [] && e.agent != a)
      || e.slot.calls + Weight(Announces, e.agent) + Spawned(e.spawned) >= sl.calls + Weight(Announces, a)
  {
    var e := Exec(sl, a, callbacks, c);
    NothingThere(e.agent);
    if a.begins {
      NoneAtBegin(a);
      AnyCalls(sl, a, callbacks, c);
    } else if Held(a.todo) {
      HeldAnnounces(sl, a, callbacks, c);
    } else {
      NoneAtEnd(a);
      AnyCalls(sl, a, callbacks, c);
    }
  }

  lemma NothingThere(a: Agent)
    ensures Weight(Announces, a) == OfOps(Announces, a.todo)
  {
  }

  lemma AnyCalls(sl: Slot, a: Agent, callbacks: set<nat>, c: Choice)
    requires a.todo != [] && !a.todo[0].Init?
    ensures Exec(sl, a, callbacks, c).slot.calls >= sl.calls
  {
    hide ExecFinish, ExecEnqueue, ExecRun, ExecRetire, ExecRelease;
    var rest := a.todo[1..];
    match a.todo[0]
    case Finish(status, size) => EndCalls(sl, a, callbacks, rest, status, size);
    case Enqueue(job) => TaskCalls(sl, a, callbacks, c, rest, job);
    case Run(job) => TaskCalls(sl, a, callbacks, c, rest, job);
    case Retire => EndCalls(sl, a, callbacks, rest, 0, 0);
    case Release => EndCalls(sl, a, callbacks, rest, 0, 0);
    case _ =>
  }

  lemma TaskCalls(sl: Slot, a: Agent, callbacks: set<nat>, c: Choice, rest: seq<Op>, job: Job)
    ensures ExecEnqueue(sl, a, job, c, rest).slot.calls >= sl.calls
    ensures ExecRun(sl, a, job, callbacks, c, rest).slot.calls >= sl.calls
  {
  }

  lemma EndCalls(sl: Slot, a: Agent, callbacks: set<nat>, rest: seq<Op>, status: int, size: nat)
    ensures ExecFinish(sl, a, status, size, callbacks, rest).slot.calls >= sl.calls
    ensures ExecRetire(sl, a, rest).slot.calls >= sl.calls && ExecRelease(sl, a, rest).slot.calls >= sl.calls
  {
  }

  /** A step loses no call of the routine, unless the queue refuses it. */
  lemma AnnounceStep(s: State, t: State, x: nat)
    requires Inv(s) && Next(s, t) && x < MAX_OPERATIONS && !Refuses(s, t, x)
    requires |s.slots| == |t.slots| == MAX_OPERATIONS && s.slots[x].token == t.slots[x].token != 0
    requires s.slots[x].block.Some? && s.slots[x].block.value in s.callbacks
    ensures Announced(t, x) >= Announced(s, x)
  {
    var step :| Enabled(s, step) && t == Take(s, step);
    match step
    case Acquire(block, kind) =>
      TotalSnoc(Announces, s.agents, t.agents[|s.agents|], x);
    case Find(block, call) =>
      TotalSnoc(Announces, s.agents, t.agents[|s.agents|], x);
    case Go(k, c) =>
      AnnounceGo(s, t, x, k, c);
    case CopyBlock(from, to) =>
  }

  lemma AnnounceGo(s: State, t: State, x: nat, k: nat, c: Choice)
    requires Inv(s) && Enabled(s, Go(k, c)) && t == Take(s, Go(k, c)) && x < MAX_OPERATIONS && !Refuses(s, t, x)
    requires |s.slots| == |t.slots| == MAX_OPERATIONS && s.slots[x].token == t.slots[x].token != 0
    requires s.slots[x].block.Some? && s.slots[x].block.value in s.callbacks
    ensures Announced(t, x) >= Announced(s, x)
  {
    var a := s.agents[k];
    assert AgentInv(s, a);
    InitStarts(a);
    var e := Exec(s.slots[a.slot], a, s.callbacks, c);
    SpawnedRuns(s.slots[a.slot], a, s.callbacks, c);
    AgentIdentity(s.slots[a.slot], a, s.callbacks, c);
    assert a.slot == x ==> !a.todo[0].Init?;
    hide Exec, Inv, Weight;
    TotalOthers(Announces, s.agents, k, x, e.agent);
    if e.spawned != [] {
      assert e.spawned == [e.spawned[0]];
      TotalSnoc(Announces, s.agents[k := e.agent], e.spawned[0], x);
    } else {
      assert t.agents == s.agents[k := e.agent];
    }
    if a.slot == x {
      ExecAnnounces(s.slots[x], a, s.callbacks, c);
      RefusalIs(s, t, x, k, e);
    }
  }

  lemma RefusalIs(s: State, t: State, x: nat, k: nat, e: Effect)
    requires k < |s.agents| && s.agents[k].slot == x && s.agents[k].todo != []
    requires t.agents == s.agents[k := e.agent] + e.spawned
    ensures s.agents[k].todo[0] == Enqueue(Announce) && e.spawned == [] && e.agent != s.agents[k] ==> Refuses(s, t, x)
  {
    assert t.agents[k] == e.agent;
  }

  ghost predicate NoRefusal(run: seq<State>, i: nat, m: nat, x: nat) {
    forall p :: i <= p < m && p + 1 < |run| ==> !Refuses(run[p], run[p + 1], x)
  }

  lemma {:induction false} CallbacksStay(run: seq<State>, i: nat, m: nat)
    requires IsRun(run) && i <= m < |run|
    ensures run[m].callbacks == run[i].callbacks
    decreases m - i
  {
    if i < m {
      CallbacksStay(run, i, m - 1);
      StepOfRun(run, m - 1);
      hide Exec;
    }
  }

  /** The slot is the operation's from i to m, and unretired. */
  ghost predicate Same(run: seq<State>, i: nat, m: nat, x: nat, token: nat) {
    && token != 0
    && forall p :: i <= p <= m && p < |run| ==>
         x < |run[p].slots| && run[p].slots[x].token == token && !run[p].slots[x].retired
  }

  lemma {:induction false} BlockStays(run: seq<State>, i: nat, m: nat, x: nat, token: nat)
    requires IsRun(run) && i <= m < |run| && x < MAX_OPERATIONS && Same(run, i, m, x, token)
    ensures run[m].slots[x].block == run[i].slots[x].block
    decreases m - i
  {
    hide IsRun, Inv, Next;
    if i < m {
      BlockStays(run, i, m - 1, x, token);
      RunInv(run, m - 1);
      StepOfRun(run, m - 1);
      SlotOnward(run[m - 1], run[m], x);
      hide Same;
    }
  }

  lemma {:induction false} AnnouncedKept(run: seq<State>, i: nat, m: nat, x: nat, token: nat)
    requires IsRun(run) && i <= m < |run| && x < MAX_OPERATIONS && Same(run, i, m, x, token) && NoRefusal(run, i, m, x)
    requires run[i].slots[x].block.Some? && run[i].slots[x].block.value in run[i].callbacks
    ensures Announced(run[m], x) >= Announced(run[i], x)
    decreases m - i
  {
    hide IsRun, Inv, Next, Announced, Refuses;
    if i < m {
      AnnouncedKept(run, i, m - 1, x, token);
      RunInv(run, m - 1);
      StepOfRun(run, m - 1);
      SameSlots(run, m - 1);
      BlockStays(run, i, m - 1, x, token);
      CallbacksStay(run, i, m - 1);
      AnnounceStep(run[m - 1], run[m], x);
    }
  }

  /** Once an operation whose block has a completion routine is completed, the routine has been
      called exactly once or is still going to be, exactly once, as long as the operation is not
      retired, unless the queue refuses it. */
  lemma AnnouncedOnce(run: seq<State>, i: nat, m: nat, x: nat, token: nat)
    requires IsRun(run) && i + 1 <= m < |run| && x < MAX_OPERATIONS
    requires |run[i].slots| == |run[i + 1].slots| == MAX_OPERATIONS
    requires !run[i].slots[x].completed && run[i + 1].slots[x].completed
    requires run[i].slots[x].block.Some? && run[i].slots[x].block.value in run[i].callbacks
    requires Same(run, i, m, x, token) && NoRefusal(run, i + 1, m, x)
    ensures x < |run[m].slots| && Announced(run[m], x) == 1
  {
    hide IsRun;
    AtLeastOne(run, i, x);
    BlockStays(run, i, i + 1, x, token);
    CallbacksStay(run, i, i + 1);
    AnnouncedKept(run, i + 1, m, x, token);
    WrittenAndAnnouncedOnce(run, m, x);
  }

  lemma AtLeastOne(run: seq<State>, i: nat, x: nat)
    requires IsRun(run) && i + 1 < |run| && x < MAX_OPERATIONS
    requires |run[i].slots| == |run[i + 1].slots| == MAX_OPERATIONS
    requires !run[i].slots[x].completed && run[i + 1].slots[x].completed
    requires run[i].slots[x].block.Some? && run[i].slots[x].block.value in run[i].callbacks
    ensures Announced(run[i + 1], x) >= 1
  {
    hide IsRun, Brings;
    var k, j := CompletedWith(run, i, x);
    AgentKept(run, i, i + 1, k);
    PartOfTotal(Announces, run[i + 1].agents, k, x);
    HoldCounts(run[i + 1].agents[k]);
  }

  lemma HoldCounts(a: Agent)
    requires a.todo != [] && a.todo[0] == Hold(Announce)
    ensures Weight(Announces, a) >= 1
  {
  }

  // ---- Scheduled work ----

  /** Call k puts its provider's work into the queue, or the queue refuses it. */
  ghost predicate Places(s: State, t: State, k: nat) {
    && k < |s.agents| && k < |t.agents| && t.agents[k] != s.agents[k]
    && s.agents[k].todo != [] && s.agents[k].todo[0] == Enqueue(Work)
    && (|t.agents| > |s.agents| ==>
          t.agents[|s.agents|] == Agent(s.agents[k].slot, s.agents[k].token, false, [Run(Work), Release]))
  }

  predicate Scheduling(todo: seq<Op>) {
    todo == [Hold(Work), Release] || todo == [Enqueue(Work), Release]
  }

  lemma ScheduleStep(s: State, t: State, k: nat)
    requires Inv(s) && Next(s, t) && k < |s.agents| && k < |t.agents|
    requires Scheduling(s.agents[k].todo) && !Scheduling(t.agents[k].todo)
    ensures Places(s, t, k)
  {
    var step := AgentStep(s, t, k);
    var a := s.agents[k];
    SpawnedRuns(s.slots[a.slot], a, s.callbacks, step.choice);
    hide Inv;
    assert t.agents == s.agents[k := t.agents[k]] + Exec(s.slots[a.slot], a, s.callbacks, step.choice).spawned;
  }

  lemma {:induction false} WasPlaced(run: seq<State>, j: nat, i: nat, k: nat) returns (m: nat)
    requires IsRun(run) && j <= i < |run| && k < |run[j].agents| && Scheduling(run[j].agents[k].todo)
    requires k < |run[i].agents| && !Scheduling(run[i].agents[k].todo)
    ensures j <= m < i && Places(run[m], run[m + 1], k)
    decreases i - j
  {
    hide IsRun, Inv, Next, Places, Scheduling;
    AgentKept(run, j, i - 1, k);
    if Scheduling(run[i - 1].agents[k].todo) {
      m := i - 1;
      RunInv(run, i - 1);
      StepOfRun(run, i - 1);
      ScheduleStep(run[i - 1], run[i], k);
    } else {
      m := WasPlaced(run, j, i - 1, k);
    }
  }

  /** A schedule that has returned has put the provider's work into the queue, on the operation's
      slot and under its token, or the queue refused it. */
  lemma ScheduleReturns(run: seq<State>, j: nat, i: nat, block: nat) returns (m: nat)
    requires IsRun(run) && Calls(run, j, block, Schedule) && j < i < |run|
    requires |run[j].agents| < |run[i].agents| && run[i].agents[|run[j].agents|].todo == []
    ensures j < m < i && Places(run[m], run[m + 1], |run[j].agents|)
  {
    var k := |run[j].agents|;
    assert run[j + 1].agents[k].todo == [Hold(Work), Release];
    hide IsRun, Calls;
    m := WasPlaced(run, j + 1, i, k);
  }
}
