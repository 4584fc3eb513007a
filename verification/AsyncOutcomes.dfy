/** gdk/async.cxx: what operations end with, and what calls have done when they return. */
module AsyncOutcomes {
  import opened Wrappers
  import opened AsyncModel
  import opened AsyncProof
  import opened AsyncInvariant
  import opened AsyncRuns

  // ---- Steps of a run ----

  /** How call k changes in a step: not at all, by a step of its own, or it is new. */
  lemma AgentStep(s: State, t: State, k: nat) returns (step: Step)
    requires Inv(s) && Next(s, t) && k < |t.agents|
    ensures Enabled(s, step) && t == Take(s, step)
    ensures k < |s.agents| && t.agents[k] != s.agents[k] ==> step.Go? && step.agent == k
    ensures |s.agents| <= |t.agents|
    ensures step.Go? && k < |s.agents| && step.agent == k ==>
      t.agents[k] == Exec(s.slots[s.agents[k].slot], s.agents[k], s.callbacks, step.choice).agent
  {
    hide Exec, Inv;
    step :| Enabled(s, step) && t == Take(s, step);
  }

  /** Calls keep their slot and token, and none goes away. */
  lemma {:induction false} AgentKept(run: seq<State>, j: nat, i: nat, k: nat)
    requires IsRun(run) && j <= i < |run| && k < |run[j].agents|
    ensures k < |run[i].agents|
    ensures run[i].agents[k].slot == run[j].agents[k].slot && run[i].agents[k].token == run[j].agents[k].token
    decreases i - j
  {
    hide IsRun, Next;
    if j < i {
      AgentKept(run, j, i - 1, k);
      StepOfRun(run, i - 1);
      AgentStays(run[i - 1], run[i], k);
    }
  }

  lemma StepOfRun(run: seq<State>, i: nat)
    requires IsRun(run) && i + 1 < |run|
    ensures Next(run[i], run[i + 1])
  {
  }

  lemma AgentStays(s: State, t: State, k: nat)
    requires Next(s, t) && k < |s.agents|
    ensures |s.agents| <= |t.agents|
    ensures t.agents[k].slot == s.agents[k].slot && t.agents[k].token == s.agents[k].token
  {
    var step :| Enabled(s, step) && t == Take(s, step);
    hide Exec;
    if step.Go? {
      var a := s.agents[step.agent];
      AgentIdentity(s.slots[a.slot], a, s.callbacks, step.choice);
    }
  }

  lemma AgentIdentity(sl: Slot, a: Agent, callbacks: set<nat>, c: Choice)
    requires a.todo != []
    ensures var b := Exec(sl, a, callbacks, c).agent; b.slot == a.slot && b.token == a.token
  {
  }

  // ---- Where a finish comes from ----

  /** The finishing call brings this status and size: the arguments of Complete, what the work
      came to, or the abort of a cancel. */
  ghost predicate Brings(s: State, t: State, k: nat, status: int, size: nat) {
    || (exists block :: k == |s.agents| && Enabled(s, Find(block, Complete(status, size)))
          && t == Take(s, Find(block, Complete(status, size))))
    || (exists c :: Enabled(s, Go(k, c)) && t == Take(s, Go(k, c)) && Outcome(s, k, c, status, size))
  }

  /** What a task that runs in this step comes to. */
  ghost predicate Outcome(s: State, k: nat, c: Choice, status: int, size: nat)
    requires Enabled(s, Go(k, c))
  {
    match s.agents[k].todo[0]
    case Run(job) =>
      if job != Announce && c.canceled then status == E_ABORT && size == 0
      else if job == Perform then status == c.status && size == if 0 <= c.status < 0x8000_0000 then c.size else 0
      else job == Work && status == c.status && status != PENDING && status != 0 && size == 0
    case CancelCheck => !s.slots[s.agents[k].slot].completed && status == E_ABORT && size == 0
    case _ => false
  }

  predicate NoFinish(ops: seq<Op>) {
    forall p :: 0 <= p < |ops| ==> !ops[p].Finish?
  }

  /** A call finishes the operation at once or not at all. */
  predicate FinishFirst(todo: seq<Op>) {
    todo == [] || NoFinish(todo[1..])
  }

  lemma RestFirst(rest: seq<Op>)
    requires NoFinish(rest)
    ensures FinishFirst(rest) && forall x :: FinishFirst([x] + rest)
    ensures FinishFirst([TakeProvider, Free] + rest)
  {
    forall x
      ensures FinishFirst([x] + rest)
    {
      assert ([x] + rest)[1..] == rest;
    }
    assert ([TakeProvider, Free] + rest)[1..] == [Free] + rest;
  }

  lemma FixedFirst()
    ensures FinishFirst([Hold(Perform), BeginDone]) && FinishFirst([SetProvider, CallBegin, BeginDone])
    ensures FinishFirst([FailCleanup, Retire]) && FinishFirst([Release, Retire])
  {
  }

  ghost predicate GoesOn(e: Effect) {
    FinishFirst(e.agent.todo) && forall p :: 0 <= p < |e.spawned| ==> FinishFirst(e.spawned[p].todo)
  }

  lemma TasksGoOn(sl: Slot, a: Agent, callbacks: set<nat>, c: Choice, rest: seq<Op>, job: Job)
    requires NoFinish(rest)
    ensures GoesOn(ExecEnqueue(sl, a, job, c, rest)) && GoesOn(ExecRun(sl, a, job, callbacks, c, rest))
  {
    RestFirst(rest);
    FixedFirst();
    hide NoFinish;
    assert [Run(job), Release][1..] == [Release];
    assert NoFinish([Release]) by {
      OneRelease();
    }
  }

  lemma OneRelease()
    ensures NoFinish([Release])
  {
  }

  lemma EndsGoOn(sl: Slot, a: Agent, callbacks: set<nat>, rest: seq<Op>, status: int, size: nat)
    requires NoFinish(rest)
    ensures GoesOn(ExecFinish(sl, a, status, size, callbacks, rest))
    ensures GoesOn(ExecRetire(sl, a, rest)) && GoesOn(ExecRelease(sl, a, rest))
  {
    RestFirst(rest);
    hide FinishFirst, NoFinish;
  }

  lemma QuietGoesOn(sl: Slot, a: Agent)
    ensures forall sl', todo :: FinishFirst(todo) ==> GoesOn(Quiet(sl', a, todo))
    ensures forall sl', todo :: FinishFirst(todo) ==> GoesOn(Quiet(sl', a, todo).(freed := true))
  {
  }

  lemma InitGoesOn(sl: Slot, a: Agent, block: nat, kind: Kind)
    ensures GoesOn(ExecInit(sl, a, block, kind))
  {
    FixedFirst();
    hide FinishFirst;
  }

  predicate Complex(op: Op) {
    op.Init? || op.Finish? || op.Enqueue? || op.Run? || op.Retire? || op.Release?
  }

  lemma SimpleGoesOn(sl: Slot, a: Agent, callbacks: set<nat>, c: Choice, rest: seq<Op>)
    requires a.todo != [] && rest == a.todo[1..] && NoFinish(rest) && !Complex(a.todo[0])
    ensures GoesOn(Exec(sl, a, callbacks, c))
  {
    RestFirst(rest);
    FixedFirst();
    QuietGoesOn(sl, a);
    hide FinishFirst, NoFinish, Quiet, GoesOn;
    match a.todo[0]
    case CallBegin =>
    case Hold(job) =>
    case TakeCheck =>
    case CancelCheck =>
    case TakeProvider =>
    case Free =>
    case _ =>
  }

  lemma ComplexGoesOn(sl: Slot, a: Agent, callbacks: set<nat>, c: Choice, rest: seq<Op>)
    requires a.todo != [] && rest == a.todo[1..] && NoFinish(rest) && Complex(a.todo[0])
    ensures GoesOn(Exec(sl, a, callbacks, c))
  {
    hide ExecInit, ExecFinish, ExecEnqueue, ExecRun, ExecRetire, ExecRelease, FinishFirst, NoFinish, Quiet, GoesOn;
    match a.todo[0]
    case Init(block, kind) => InitGoesOn(sl, a, block, kind);
    case Finish(status, size) => EndsGoOn(sl, a, callbacks, rest, status, size);
    case Enqueue(job) => TasksGoOn(sl, a, callbacks, c, rest, job);
    case Run(job) => TasksGoOn(sl, a, callbacks, c, rest, job);
    case Retire => EndsGoOn(sl, a, callbacks, rest, 0, 0);
    case Release => EndsGoOn(sl, a, callbacks, rest, 0, 0);
  }

  lemma ExecFinishFirst(sl: Slot, a: Agent, callbacks: set<nat>, c: Choice)
    requires a.todo != [] && FinishFirst(a.todo)
    ensures GoesOn(Exec(sl, a, callbacks, c))
  {
    hide Exec, GoesOn;
    if Complex(a.todo[0]) {
      ComplexGoesOn(sl, a, callbacks, c, a.todo[1..]);
    } else {
      SimpleGoesOn(sl, a, callbacks, c, a.todo[1..]);
    }
  }

  lemma OpsFirst(call: Call)
    ensures FinishFirst(Ops(call))
  {
  }

  lemma {:induction false} AllFinishFirst(run: seq<State>, i: nat, k: nat)
    requires IsRun(run) && i < |run| && k < |run[i].agents|
    ensures FinishFirst(run[i].agents[k].todo)
    decreases i
  {
    if i > 0 {
      RunInv(run, i - 1);
      StepOfRun(run, i - 1);
      var s, t := run[i - 1], run[i];
      var step := AgentStep(s, t, k);
      hide Inv, FinishFirst, IsRun, Next;
      if k < |s.agents| {
        AllFinishFirst(run, i - 1, k);
      }
      if step.Go? {
        AllFinishFirst(run, i - 1, step.agent);
      }
      StepFirst(s, t, step, k);
    }
  }

  lemma StepFirst(s: State, t: State, step: Step, k: nat)
    requires Enabled(s, step) && t == Take(s, step) && k < |t.agents|
    requires k < |s.agents| ==> FinishFirst(s.agents[k].todo)
    requires step.Go? ==> FinishFirst(s.agents[step.agent].todo)
    ensures FinishFirst(t.agents[k].todo)
  {
    hide Exec, FinishFirst;
    match step
    case Acquire(block, kind) =>
      assert FinishFirst([Init(block, kind)]) by {
        OnlyInit(block, kind);
      }
    case Find(block, call) => OpsFirst(call);
    case Go(i, c) =>
      ExecFinishFirst(s.slots[s.agents[i].slot], s.agents[i], s.callbacks, c);
    case CopyBlock(from, to) =>
  }

  lemma OnlyInit(block: nat, kind: Kind)
    ensures FinishFirst([Init(block, kind)])
  {
  }

  /** A step after which a call is about to finish. */
  lemma ExecBrings(s: State, k: nat, c: Choice, status: int, size: nat)
    requires Enabled(s, Go(k, c)) && FinishFirst(s.agents[k].todo)
    requires var e := Exec(s.slots[s.agents[k].slot], s.agents[k], s.callbacks, c);
      e.agent.todo != [] && e.agent.todo[0] == Finish(status, size)
    ensures Outcome(s, k, c, status, size)
  {
    var todo := s.agents[k].todo;
    if |todo| > 1 {
      assert todo[1..][0] == todo[1];
    }
  }

  ghost predicate Finishing(s: State, k: nat) {
    k < |s.agents| && s.agents[k].todo != [] && s.agents[k].todo[0].Finish?
  }

  /** A call that is about to finish got its status and size at some step. */
  lemma {:induction false} Origin(run: seq<State>, i: nat, k: nat) returns (j: nat)
    requires IsRun(run) && i < |run| && Finishing(run[i], k)
    ensures j < i && Brings(run[j], run[j + 1], k, run[i].agents[k].todo[0].status, run[i].agents[k].todo[0].size)
    decreases i
  {
    hide Next, Brings;
    assert i > 0;
    hide IsRun;
    var s, t := run[i - 1], run[i];
    if k < |s.agents| && t.agents[k] == s.agents[k] {
      j := Origin(run, i - 1, k);
    } else {
      j := i - 1;
      RunInv(run, i - 1);
      StepOfRun(run, i - 1);
      if k < |s.agents| {
        AllFinishFirst(run, i - 1, k);
      }
      StepBrings(s, t, k);
    }
  }

  lemma StepBrings(s: State, t: State, k: nat)
    requires Inv(s) && Next(s, t) && Finishing(t, k)
    requires k < |s.agents| ==> t.agents[k] != s.agents[k] && FinishFirst(s.agents[k].todo)
    ensures Brings(s, t, k, t.agents[k].todo[0].status, t.agents[k].todo[0].size)
  {
    hide Inv, Exec, Outcome;
    var step := AgentStep(s, t, k);
    var op := t.agents[k].todo[0];
    if k < |s.agents| {
      ExecBrings(s, k, step.choice, op.status, op.size);
    } else {
      NewFinishes(s, t, step, k);
    }
  }

  lemma NewFinishes(s: State, t: State, step: Step, k: nat)
    requires Enabled(s, step) && t == Take(s, step) && |s.agents| <= k < |t.agents|
    requires t.agents[k].todo != [] && t.agents[k].todo[0].Finish?
    ensures Brings(s, t, k, t.agents[k].todo[0].status, t.agents[k].todo[0].size)
  {
    match step
    case Acquire(block, kind) =>
    case Find(block, call) =>
      assert call.Complete?;
    case Go(i, c) =>
      SpawnedRuns(s.slots[s.agents[i].slot], s.agents[i], s.callbacks, c);
    case CopyBlock(from, to) =>
  }

  lemma SpawnedRuns(sl: Slot, a: Agent, callbacks: set<nat>, c: Choice)
    requires a.todo != []
    ensures var e := Exec(sl, a, callbacks, c);
      e.spawned == [] ||
      (a.todo[0].Enqueue? && e.spawned == [Agent(a.slot, a.token, false, [Run(a.todo[0].job), Release])])
  {
  }

  // ---- The step that completes an operation ----

  lemma FinishCompletes(sl: Slot, a: Agent, callbacks: set<nat>, rest: seq<Op>, status: int, size: nat)
    requires !sl.completed
    ensures var e := ExecFinish(sl, a, status, size, callbacks, rest);
      && e.slot.status == status && e.slot.size == size
      && (sl.block.Some? && sl.block.value in callbacks ==> e.agent.todo != [] && e.agent.todo[0] == Hold(Announce))
  {
  }

  lemma OthersDoNot(sl: Slot, a: Agent, callbacks: set<nat>, c: Choice, rest: seq<Op>, job: Job, block: nat, kind: Kind)
    requires !sl.completed
    ensures !ExecInit(sl, a, block, kind).slot.completed && !ExecRetire(sl, a, rest).slot.completed
    ensures !ExecRelease(sl, a, rest).slot.completed
    ensures !ExecEnqueue(sl, a, job, c, rest).slot.completed && !ExecRun(sl, a, job, callbacks, c, rest).slot.completed
  {
  }

  lemma ExecCompletes(sl: Slot, a: Agent, callbacks: set<nat>, c: Choice)
    requires a.todo != [] && !sl.completed && Exec(sl, a, callbacks, c).slot.completed
    ensures a.todo[0].Finish?
    ensures var e := Exec(sl, a, callbacks, c);
      && e.slot.status == a.todo[0].status && e.slot.size == a.todo[0].size
      && (sl.block.Some? && sl.block.value in callbacks ==> e.agent.todo != [] && e.agent.todo[0] == Hold(Announce))
  {
    var rest := a.todo[1..];
    hide ExecInit, ExecFinish, ExecEnqueue, ExecRun, ExecRetire, ExecRelease;
    match a.todo[0]
    case Init(block, kind) => OthersDoNot(sl, a, callbacks, c, rest, Perform, block, kind);
    case Finish(status, size) => FinishCompletes(sl, a, callbacks, rest, status, size);
    case Enqueue(job) => OthersDoNot(sl, a, callbacks, c, rest, job, 0, Local);
    case Run(job) => OthersDoNot(sl, a, callbacks, c, rest, job, 0, Local);
    case Retire => OthersDoNot(sl, a, callbacks, c, rest, Perform, 0, Local);
    case Release => OthersDoNot(sl, a, callbacks, c, rest, Perform, 0, Local);
    case _ =>
  }

  /** When an operation is completed, its status and size are those that the finishing call k
      brought, at step j; and that call goes on to submit the completion routine if the block
      has one. */
  lemma CompletedWith(run: seq<State>, i: nat, x: nat) returns (k: nat, j: nat)
    requires IsRun(run) && i + 1 < |run| && x < |run[i].slots| == |run[i + 1].slots|
    requires !run[i].slots[x].completed && run[i + 1].slots[x].completed
    ensures k < |run[i].agents| && run[i].agents[k].slot == x && j < i
    ensures Brings(run[j], run[j + 1], k, run[i + 1].slots[x].status, run[i + 1].slots[x].size)
    ensures var b := run[i].slots[x].block; b.Some? && b.value in run[i].callbacks ==>
      k < |run[i + 1].agents| && run[i + 1].agents[k].todo != [] && run[i + 1].agents[k].todo[0] == Hold(Announce)
  {
    var s, t := run[i], run[i + 1];
    RunInv(run, i);
    StepOfRun(run, i);
    var step :| Enabled(s, step) && t == Take(s, step);
    hide Exec, Inv, Brings;
    k := step.agent;
    ExecCompletes(s.slots[x], s.agents[k], s.callbacks, step.choice);
    j := Origin(run, i, k);
  }

  // ---- What a call has done when it returns ----

  /** What a call or a task is there for. */
  datatype Duty = ToComplete | ToRetire

  predicate Serves(d: Duty, op: Op) {
    match d
    case ToComplete => op.Finish? || op == Run(Perform) || op.CancelCheck?
    case ToRetire => op.Retire?
  }

  predicate Owed(d: Duty, todo: seq<Op>) {
    exists p :: 0 <= p < |todo| && Serves(d, todo[p])
  }

  predicate Met(d: Duty, sl: Slot) {
    match d
    case ToComplete => sl.completed
    case ToRetire => sl.retired
  }

  lemma OwedCat(d: Duty, pre: seq<Op>, rest: seq<Op>)
    requires Owed(d, rest)
    ensures Owed(d, pre + rest)
  {
    var p :| 0 <= p < |rest| && Serves(d, rest[p]);
    assert (pre + rest)[|pre| + p] == rest[p];
  }

  lemma OwedHead(d: Duty, x: Op, rest: seq<Op>)
    requires Serves(d, x)
    ensures Owed(d, [x] + rest)
  {
    assert ([x] + rest)[0] == x;
  }

  lemma OwedRest(d: Duty, todo: seq<Op>)
    requires Owed(d, todo) && !Serves(d, todo[0])
    ensures Owed(d, todo[1..])
  {
    var p :| 0 <= p < |todo| && Serves(d, todo[p]);
    assert todo[1..][p - 1] == todo[p];
  }

  /** A guard's or a task's own operation. */
  lemma HeadServes(d: Duty, sl: Slot, a: Agent, callbacks: set<nat>, c: Choice)
    requires a.todo != [] && Serves(d, a.todo[0])
    ensures var e := Exec(sl, a, callbacks, c); Met(d, e.slot) || Owed(d, e.agent.todo)
  {
    var rest := a.todo[1..];
    OwedHead(ToComplete, Finish(E_ABORT, 0), rest);
    OwedHead(ToComplete, Finish(c.status, if Succeeded(c.status) then c.size else 0), rest);
    hide Owed;
  }

  /** The rest of what a guard or a task has to do stays. */
  lemma RestStays(sl: Slot, a: Agent, callbacks: set<nat>, c: Choice)
    requires !a.begins && Held(a.todo)
    ensures exists pre :: Exec(sl, a, callbacks, c).agent.todo == pre + a.todo[1..]
  {
    var rest := a.todo[1..];
    assert [] + rest == rest;
    assert Middle(a.todo[0]);
    hide Held;
    match a.todo[0]
    case Hold(job) =>
    case Enqueue(job) => EnqueuePre(sl, a, job, c, rest);
    case Run(job) => RunPre(sl, a, job, callbacks, c, rest);
    case Finish(status, size) => FinishPre(sl, a, status, size, callbacks, rest);
    case Retire => RetirePre(sl, a, rest);
    case Release => ReleasePre(sl, a, rest);
    case TakeCheck =>
      if !(sl.completed && c.yes) {
        assert Exec(sl, a, callbacks, c).agent.todo == [] + rest;
      }
    case CancelCheck =>
      if sl.completed {
        assert Exec(sl, a, callbacks, c).agent.todo == [] + rest;
      }
    case Look => assert Exec(sl, a, callbacks, c).agent.todo == [] + rest;
  }

  lemma EnqueuePre(sl: Slot, a: Agent, job: Job, c: Choice, rest: seq<Op>)
    requires !a.begins
    ensures exists pre :: ExecEnqueue(sl, a, job, c, rest).agent.todo == pre + rest
  {
    assert ExecEnqueue(sl, a, job, c, rest).agent.todo == (if c.yes then [] else [Release]) + rest;
  }

  lemma RunPre(sl: Slot, a: Agent, job: Job, callbacks: set<nat>, c: Choice, rest: seq<Op>)
    ensures exists pre :: ExecRun(sl, a, job, callbacks, c, rest).agent.todo == pre + rest
  {
    var todo := ExecRun(sl, a, job, callbacks, c, rest).agent.todo;
    assert todo == [] + rest || todo == [todo[0]] + rest;
  }

  lemma FinishPre(sl: Slot, a: Agent, status: int, size: nat, callbacks: set<nat>, rest: seq<Op>)
    ensures exists pre :: ExecFinish(sl, a, status, size, callbacks, rest).agent.todo == pre + rest
  {
    var todo := ExecFinish(sl, a, status, size, callbacks, rest).agent.todo;
    assert todo == [] + rest || todo == [Hold(Announce)] + rest;
  }

  lemma RetirePre(sl: Slot, a: Agent, rest: seq<Op>)
    ensures exists pre :: ExecRetire(sl, a, rest).agent.todo == pre + rest
  {
    var todo := ExecRetire(sl, a, rest).agent.todo;
    assert todo == [] + rest || todo == [Release] + rest;
  }

  lemma ReleasePre(sl: Slot, a: Agent, rest: seq<Op>)
    ensures exists pre :: ExecRelease(sl, a, rest).agent.todo == pre + rest
  {
    var todo := ExecRelease(sl, a, rest).agent.todo;
    assert todo == [] + rest || todo == [TakeProvider, Free] + rest;
  }

  /** A begin call only ever owes a retirement, and pays it. */
  lemma BeginOwes(d: Duty, sl: Slot, a: Agent, callbacks: set<nat>, c: Choice)
    requires a.begins && Shape(a) && Owed(d, a.todo)
    ensures var e := Exec(sl, a, callbacks, c); Met(d, e.slot) || Owed(d, e.agent.todo)
  {
    var p :| 0 <= p < |a.todo| && Serves(d, a.todo[p]);
    if a.todo[0].Retire? {
      HeadServes(d, sl, a, callbacks, c);
    } else {
      assert a.todo == [FailCleanup, Retire] || a.todo == [Release, Retire];
      assert a.todo[1..] == [Retire];
      OwedHead(d, Retire, []);
      assert [Retire] + [] == [Retire];
      OwedCat(d, [TakeProvider, Free], [Retire]);
      hide Owed;
    }
  }

  lemma ExecOwes(d: Duty, sl: Slot, a: Agent, callbacks: set<nat>, c: Choice)
    requires Shape(a) && Owed(d, a.todo)
    ensures var e := Exec(sl, a, callbacks, c); Met(d, e.slot) || Owed(d, e.agent.todo)
  {
    hide Exec;
    if a.begins {
      BeginOwes(d, sl, a, callbacks, c);
    } else if Serves(d, a.todo[0]) {
      HeadServes(d, sl, a, callbacks, c);
    } else {
      OwedRest(d, a.todo);
      assert Held(a.todo);
      RestStays(sl, a, callbacks, c);
      var e := Exec(sl, a, callbacks, c);
      var pre :| e.agent.todo == pre + a.todo[1..];
      OwedCat(d, pre, a.todo[1..]);
    }
  }

  /** What a slot keeps while it is one operation's. */
  ghost predicate Onward(sl: Slot, t: Slot) {
    && (sl.completed ==> t.completed) && (sl.retired ==> t.retired)
    && (!t.retired ==> t.block == sl.block) && t.kind == sl.kind
  }

  lemma TaskOnward(sl: Slot, a: Agent, callbacks: set<nat>, c: Choice, rest: seq<Op>, job: Job)
    ensures Onward(sl, ExecEnqueue(sl, a, job, c, rest).slot)
    ensures Onward(sl, ExecRun(sl, a, job, callbacks, c, rest).slot)
  {
  }

  lemma FinishOnward(sl: Slot, a: Agent, callbacks: set<nat>, rest: seq<Op>, status: int, size: nat)
    ensures Onward(sl, ExecFinish(sl, a, status, size, callbacks, rest).slot)
  {
  }

  lemma EndOnward(sl: Slot, a: Agent, rest: seq<Op>)
    ensures Onward(sl, ExecRetire(sl, a, rest).slot) && Onward(sl, ExecRelease(sl, a, rest).slot)
  {
  }

  lemma ExecOnward(sl: Slot, a: Agent, callbacks: set<nat>, c: Choice)
    requires a.todo != []
    ensures a.todo[0].Init? || Onward(sl, Exec(sl, a, callbacks, c).slot)
  {
    hide ExecFinish, ExecEnqueue, ExecRun, ExecRetire, ExecRelease;
    var rest := a.todo[1..];
    match a.todo[0]
    case Finish(status, size) => FinishOnward(sl, a, callbacks, rest, status, size);
    case Enqueue(job) => TaskOnward(sl, a, callbacks, c, rest, job);
    case Run(job) => TaskOnward(sl, a, callbacks, c, rest, job);
    case Retire => EndOnward(sl, a, rest);
    case Release => EndOnward(sl, a, rest);
    case _ =>
  }

  /** While a slot keeps its token, it goes only onward. */
  lemma SlotOnward(s: State, t: State, x: nat)
    requires Inv(s) && Next(s, t) && x < MAX_OPERATIONS
    ensures |t.slots| == MAX_OPERATIONS
    ensures s.slots[x].token == t.slots[x].token != 0 ==> Onward(s.slots[x], t.slots[x])
  {
    var step :| Enabled(s, step) && t == Take(s, step);
    if step.Go? {
      var a := s.agents[step.agent];
      assert AgentInv(s, a);
      InitStarts(a);
      ExecOnward(s.slots[a.slot], a, s.callbacks, step.choice);
      hide Exec;
      assert SlotOk(s, a.slot);
    }
  }

  /** Call k still has to do its duty, or it is done, as long as the slot is the operation's. */
  ghost predicate OnDuty(s: State, k: nat, d: Duty) {
    && k < |s.agents| && s.agents[k].slot < |s.slots|
    && var sl := s.slots[s.agents[k].slot];
       sl.token == s.agents[k].token ==> Met(d, sl) || Owed(d, s.agents[k].todo)
  }

  lemma DutyStep(s: State, t: State, k: nat, d: Duty)
    requires Inv(s) && Next(s, t) && OnDuty(s, k, d) && s.agents[k].token != 0 && |t.slots| == |s.slots|
    requires var x, token := s.agents[k].slot, s.agents[k].token;
      t.slots[x].token == token ==> s.slots[x].token == token
    ensures OnDuty(t, k, d)
  {
    var a := s.agents[k];
    assert AgentInv(s, a);
    AgentStays(s, t, k);
    SlotOnward(s, t, a.slot);
    var step := AgentStep(s, t, k);
    hide Exec, Inv, Owed, Shape;
    if t.agents[k] != a && Owed(d, a.todo) {
      ExecOwes(d, s.slots[a.slot], a, s.callbacks, step.choice);
    }
  }

  lemma {:induction false} DutyKept(run: seq<State>, j: nat, i: nat, k: nat, d: Duty)
    requires IsRun(run) && j <= i < |run| && k < |run[j].agents| && OnDuty(run[j], k, d)
    requires run[j].agents[k].slot < |run[j].slots| && run[j].agents[k].token != 0
    requires run[j].slots[run[j].agents[k].slot].token == run[j].agents[k].token
    ensures OnDuty(run[i], k, d)
    decreases i - j
  {
    hide OnDuty, IsRun, Next, Inv;
    if j < i {
      DutyKept(run, j, i - 1, k, d);
      RunInv(run, j);
      InvSlots(run[j]);
      RunInv(run, i - 1);
      StepOfRun(run, i - 1);
      AgentKept(run, j, i - 1, k);
      NoReturn(run, j, i - 1, k);
      SameSlots(run, i - 1);
      DutyStep(run[i - 1], run[i], k, d);
    }
  }

  lemma SameSlots(run: seq<State>, i: nat)
    requires IsRun(run) && i + 1 < |run|
    ensures |run[i].slots| == |run[i + 1].slots| == MAX_OPERATIONS
  {
    hide Inv, IsRun;
    RunInv(run, i);
    RunInv(run, i + 1);
    InvSlots(run[i]);
    InvSlots(run[i + 1]);
  }

  lemma InvSlots(s: State)
    requires Inv(s)
    ensures |s.slots| == MAX_OPERATIONS && forall k :: 0 <= k < |s.agents| ==> s.agents[k].slot < MAX_OPERATIONS
  {
    forall k | 0 <= k < |s.agents|
      ensures s.agents[k].slot < MAX_OPERATIONS
    {
      assert AgentInv(s, s.agents[k]);
    }
  }

  lemma NoReturn(run: seq<State>, j: nat, i: nat, k: nat)
    requires IsRun(run) && j <= i && i + 1 < |run| && k < |run[j].agents|
    requires |run[j].slots| == MAX_OPERATIONS && run[j].agents[k].slot < MAX_OPERATIONS
    requires run[j].slots[run[j].agents[k].slot].token == run[j].agents[k].token != 0
    ensures |run[i].slots| == |run[i + 1].slots| == MAX_OPERATIONS
    ensures var x, token := run[j].agents[k].slot, run[j].agents[k].token;
      run[i + 1].slots[x].token == token ==> run[i].slots[x].token == token
  {
    hide IsRun;
    SameSlots(run, i);
    var x, token := run[j].agents[k].slot, run[j].agents[k].token;
    if run[i].slots[x].token != token {
      TokenNeverReturns(run, j, i, i + 1, x);
    }
  }

  /** A call or a task that had to complete or to retire an operation has done so once it has
      nothing more to do, as long as the slot is the operation's. */
  lemma DutyDone(run: seq<State>, j: nat, i: nat, k: nat, d: Duty)
    requires IsRun(run) && j <= i < |run| && k < |run[j].agents| && !run[j].agents[k].begins
    requires Owed(d, run[j].agents[k].todo)
    ensures k < |run[i].agents| && |run[i].slots| == MAX_OPERATIONS && run[j].agents[k].slot < MAX_OPERATIONS
    ensures var x := run[j].agents[k].slot;
      run[i].agents[k].todo == [] && run[i].slots[x].token == run[j].agents[k].token ==> Met(d, run[i].slots[x])
  {
    var a := run[j].agents[k];
    RunInv(run, j);
    RunInv(run, i);
    InvSlots(run[j]);
    InvSlots(run[i]);
    assert AgentInv(run[j], a);
    assert !Starting(a.todo) by {
      var p :| 0 <= p < |a.todo| && Serves(d, a.todo[p]);
    }
    AgentKept(run, j, i, k);
    hide IsRun, Inv, Owed;
    DutyKept(run, j, i, k, d);
    assert !Owed(d, []) by {
      NothingOwed(d);
    }
  }

  lemma NothingOwed(d: Duty)
    ensures !Owed(d, [])
  {
  }

  /** The call that a lookup begins. */
  ghost predicate Calls(run: seq<State>, j: nat, block: nat, call: Call) {
    j + 1 < |run| && Enabled(run[j], Find(block, call)) && run[j + 1] == Take(run[j], Find(block, call))
  }

  /** A cancel that has returned has completed and retired the operation; a complete has
      completed it. */
  lemma CallReturns(run: seq<State>, j: nat, i: nat, block: nat, call: Call)
    requires IsRun(run) && Calls(run, j, block, call) && j < i < |run|
    requires |run[j].agents| < |run[i].agents| && run[i].agents[|run[j].agents|].todo == []
    ensures |run[i].slots| == MAX_OPERATIONS
    ensures var c := run[j].blocks[block];
      c.slot < MAX_OPERATIONS && (run[i].slots[c.slot].token == c.token ==>
        && (call == Cancel || call.Complete? ==> run[i].slots[c.slot].completed)
        && (call == Cancel ==> run[i].slots[c.slot].retired))
  {
    var k := |run[j].agents|;
    SameSlots(run, j);
    hide IsRun, Owed;
    RunInv(run, i);
    InvSlots(run[i]);
    if call == Cancel || call.Complete? {
      CallOwes(call);
      DutyDone(run, j + 1, i, k, ToComplete);
      if call == Cancel {
        DutyDone(run, j + 1, i, k, ToRetire);
      }
    }
  }

  lemma CallOwes(call: Call)
    ensures call == Cancel || call.Complete? ==> Owed(ToComplete, Ops(call))
    ensures call == Cancel ==> Owed(ToRetire, Ops(call))
  {
    if call == Cancel {
      assert Serves(ToComplete, Ops(call)[0]) && Serves(ToRetire, Ops(call)[1]);
    } else if call.Complete? {
      assert Serves(ToComplete, Ops(call)[0]);
    }
  }

  /** The task of a local operation that has run has completed it. */
  lemma PerformReturns(run: seq<State>, j: nat, i: nat, k: nat)
    requires IsRun(run) && j <= i < |run| && k < |run[j].agents| && k < |run[i].agents|
    requires run[j].agents[k].todo != [] && run[j].agents[k].todo[0] == Run(Perform) && run[i].agents[k].todo == []
    ensures |run[i].slots| == MAX_OPERATIONS
    ensures var x := run[j].agents[k].slot;
      x < MAX_OPERATIONS && (run[i].slots[x].token == run[j].agents[k].token ==> run[i].slots[x].completed)
  {
    var a := run[j].agents[k];
    RunInv(run, j);
    assert AgentInv(run[j], a);
    assert Serves(ToComplete, a.todo[0]);
    hide IsRun;
    DutyDone(run, j, i, k, ToComplete);
  }
}
