/** gdk/async.cxx: the lifetime protocol of asynchronous operations, as a state and the
    atomic steps of the calls that run concurrently on it. */
module AsyncModel {
  import opened Wrappers

  const MAX_OPERATIONS := 128
  const PENDING := 0x8000000A
  const E_ABORT := 0x80004004
  const S_OK := 0

  // ---- The packed state word ----

  const HOLD_BITS_SIZE := 0x1_0000

  function TokenOf(w: nat): nat { w / HOLD_BITS_SIZE }

  function HoldsOf(w: nat): nat { w % HOLD_BITS_SIZE }

  function SlotState(token: nat, holds: nat): nat { token * HOLD_BITS_SIZE + holds }

  /** The word carries both numbers, and adding or taking one touches the holds alone,
      as long as they stay below 65535 and above zero. */
  lemma PackedWord(token: nat, holds: nat)
    requires holds < HOLD_BITS_SIZE
    ensures TokenOf(SlotState(token, holds)) == token && HoldsOf(SlotState(token, holds)) == holds
    ensures holds < HOLD_BITS_SIZE - 1 ==> SlotState(token, holds) + 1 == SlotState(token, holds + 1)
    ensures holds > 0 ==> SlotState(token, holds) - 1 == SlotState(token, holds - 1)
  {
  }

  // ---- State ----

  datatype Kind = Local | Provider

  /** What a task runs: an operation's work, a provider's work, a completion routine. */
  datatype Job = Perform | Work | Announce

  /** One atomic step of a call. `Hold` and `Enqueue` are the two halves of submit;
      `TakeProvider`, `Cleanup` and `Free` are dispose. */
  datatype Op =
    | Init(block: nat, kind: Kind)
    | SetProvider | CallBegin | FailCleanup | BeginDone
    | Hold(job: Job) | Enqueue(job: Job) | Run(job: Job)
    | Finish(status: int, size: nat)
    | Look | TakeCheck | CancelCheck | Retire | Release
    | TakeProvider | Cleanup | Free

  /** A call or a task under way: the slot it works on, the token it knows the slot by,
      and what it still has to do. `begins` marks the call that created the operation. */
  datatype Agent = Agent(slot: nat, token: nat, begins: bool, todo: seq<Op>)

  /** A slot. The last fields record its history since it was last acquired: whether the
      begin call is still running, whether it was a provider's, whether that begin failed,
      how often status was written, the completion routine ran and cleanup was called;
      `seen` is the greatest token the slot ever had. */
  datatype Slot = Slot(
    token: nat, holds: nat, completed: bool, status: int, size: nat,
    retired: bool, block: Option<nat>, provider: bool,
    beginning: bool, kind: Kind, failed: bool,
    writes: nat, calls: nat, cleanups: nat, seen: nat)

  /** What acquire writes into a block. */
  datatype Cookie = NoCookie | Cookie(slot: nat, token: nat)

  /** `callbacks` are the blocks with a completion routine; `owner[t]` is the slot token t
      was issued for. */
  datatype State = State(
    slots: seq<Slot>, free: seq<nat>, used: nat,
    blocks: seq<Cookie>, callbacks: set<nat>,
    agents: seq<Agent>, owner: seq<nat>)

  /** The next token: one more than all tokens issued; token 0 is never issued. */
  function NextToken(s: State): nat { |s.owner| }

  const FRESH := Slot(0, 0, false, PENDING, 0, false, None, false, false, Local, false, 0, 0, 0, 0)

  ghost predicate Initial(s: State) {
    && |s.slots| == MAX_OPERATIONS && (forall i :: 0 <= i < MAX_OPERATIONS ==> s.slots[i] == FRESH)
    && s.free == [] && s.used == 0 && s.agents == [] && s.owner == [0]
    && forall b :: 0 <= b < |s.blocks| ==> s.blocks[b] == NoCookie
  }

  // ---- One step of a call ----

  /** What a step cannot know: whether a port takes a task, whether a provider succeeds,
      whether a task is canceled, and what status and size come out. */
  datatype Choice = Choice(yes: bool, canceled: bool, status: int, size: nat)

  /** SUCCEEDED: the sign bit of the 32-bit status is clear. */
  predicate Succeeded(status: int) {
    0 <= status < 0x8000_0000
  }

  /** The slot and the call after the step; a task put into a queue; a block whose cookie
      is cleared; whether the slot went back to the free list. */
  datatype Effect = Effect(slot: Slot, agent: Agent, spawned: seq<Agent>, cleared: Option<nat>, freed: bool)

  /** Only these fields of the slot and the call change. */
  function Quiet(sl: Slot, a: Agent, todo: seq<Op>): Effect {
    Effect(sl, a.(todo := todo), [], None, false)
  }

  /** acquire: the slot is set up and published under its token with one hold. */
  function ExecInit(sl: Slot, a: Agent, block: nat, kind: Kind): Effect {
    Quiet(FRESH.(token := a.token, holds := 1, block := Some(block), beginning := true, kind := kind, seen := a.token),
      a,
          if kind == Local then [Hold(Perform), BeginDone] else [SetProvider, CallBegin, BeginDone])
  }

  /** finish: the first one writes; it submits the completion routine if there is one. */
  function ExecFinish(sl: Slot, a: Agent, status: int, size: nat, callbacks: set<nat>, rest: seq<Op>): Effect {
    if sl.completed then Quiet(sl, a, rest)
    else Quiet(sl.(status := status, size := size, completed := true, writes := sl.writes + 1), a,
               if sl.block.Some? && sl.block.value in callbacks then [Hold(Announce)] + rest else rest)
  }

  /** The second half of submit: the port takes the task, or the hold is given back. A
      begin call whose task is refused retires the operation. */
  function ExecEnqueue(sl: Slot, a: Agent, job: Job, c: Choice, rest: seq<Op>): Effect {
    if c.yes then Quiet(sl, a, rest).(spawned := [Agent(a.slot, a.token, false, [Run(job), Release])])
    else if a.begins then Quiet(sl, a, [Release, Retire])
    else Quiet(sl, a, [Release] + rest)
  }

  /** Running a task: perform always finishes, with a size only if it succeeds; a provider's
      work finishes unless it is pending or done with; announce calls the completion routine
      unless the operation is retired. */
  function ExecRun(sl: Slot, a: Agent, job: Job, callbacks: set<nat>, c: Choice, rest: seq<Op>): Effect {
    match job
    case Perform =>
      Quiet(sl, a, [if c.canceled then Finish(E_ABORT, 0)
                    else Finish(c.status, if Succeeded(c.status) then c.size else 0)] + rest)
    case Work =>
      if c.canceled then Quiet(sl, a, [Finish(E_ABORT, 0)] + rest)
      else Quiet(sl, a, if c.status != PENDING && c.status != S_OK then [Finish(c.status, 0)] + rest else rest)
    case Announce =>
      if sl.block.Some? && sl.block.value in callbacks then Quiet(sl.(calls := sl.calls + 1), a, rest)
      else Quiet(sl, a, rest)
  }

  /** retire: the first one clears the block and drops the operation's own hold. */
  function ExecRetire(sl: Slot, a: Agent, rest: seq<Op>): Effect {
    if sl.retired then Quiet(sl, a, rest)
    else Quiet(sl.(retired := true, block := None, beginning := false), a.(begins := false), [Release] + rest)
           .(cleared := sl.block)
  }

  /** release: the one that reaches zero disposes of the slot. */
  function ExecRelease(sl: Slot, a: Agent, rest: seq<Op>): Effect {
    if sl.holds == 0 then Quiet(sl, a, rest)
    else Quiet(sl.(holds := sl.holds - 1), a, if sl.holds == 1 then [TakeProvider, Free] + rest else rest)
  }

  function Exec(sl: Slot, a: Agent, callbacks: set<nat>, c: Choice): Effect
    requires a.todo != []
  {
    var rest := a.todo[1..];
    match a.todo[0]
    case Init(block, kind) => ExecInit(sl, a, block, kind)
    case SetProvider => Quiet(sl.(provider := true), a, rest)
    case CallBegin => if c.yes then Quiet(sl, a, rest) else Quiet(sl.(failed := true), a, [FailCleanup, Retire])
    case FailCleanup => Quiet(sl.(cleanups := sl.cleanups + 1), a, rest)
    case BeginDone => Quiet(sl.(beginning := false), a, rest)
    case Hold(job) => Quiet(sl.(holds := sl.holds + 1), a, [Enqueue(job)] + rest)
    case Enqueue(job) => ExecEnqueue(sl, a, job, c, rest)
    case Run(job) => ExecRun(sl, a, job, callbacks, c, rest)
    case Finish(status, size) => ExecFinish(sl, a, status, size, callbacks, rest)
    case Look => Quiet(sl, a, rest)
    case TakeCheck => Quiet(sl, a, if sl.completed && c.yes then [Retire] + rest else rest)
    case CancelCheck => Quiet(sl, a, if !sl.completed then [Finish(E_ABORT, 0)] + rest else rest)
    case Retire => ExecRetire(sl, a, rest)
    case Release => ExecRelease(sl, a, rest)
    case TakeProvider => Quiet(sl.(provider := false), a, if sl.provider then [Cleanup] + rest else rest)
    case Cleanup => Quiet(sl.(cleanups := sl.cleanups + 1), a, rest)
    case Free => Quiet(sl.(token := 0), a, rest).(freed := true)
  }

  // ---- Steps of the system ----

  /** The calls that look an operation up by its block. */
  datatype Call = Status | TakeResult | Cancel | Schedule | Complete(status: int, size: nat)

  function Ops(call: Call): seq<Op> {
    match call
    case Status => [Look, Release]
    case TakeResult => [TakeCheck, Release]
    case Cancel => [CancelCheck, Retire, Release]
    case Schedule => [Hold(Work), Release]
    case Complete(status, size) => [Finish(status, size), Release]
  }

  datatype Step =
    | Acquire(block: nat, kind: Kind)
    | Find(block: nat, call: Call)
    | Go(agent: nat, choice: Choice)
    | CopyBlock(from: nat, to: nat)

  /** held_state::find would return the slot of the block's cookie. */
  predicate Resolves(s: State, block: nat) {
    block < |s.blocks| && s.blocks[block].Cookie? && s.blocks[block].slot < |s.slots| && s.blocks[block].token != 0 &&
    s.slots[s.blocks[block].slot].token == s.blocks[block].token
  }

  /** When a step can be taken. A lookup is one step, and none falls between the release
      that reaches zero and the store of zero; a result is taken and an operation is
      canceled only once its begin call has returned; a task is scheduled only with a
      provider. */
  ghost predicate Enabled(s: State, step: Step) {
    match step
    case Acquire(block, kind) => block < |s.blocks| && (s.free != [] || s.used < MAX_OPERATIONS)
    case Find(block, call) =>
      && Resolves(s, block)
      && var sl := s.slots[s.blocks[block].slot];
         && sl.holds > 0
         && ((call == TakeResult || call == Cancel) ==> !sl.beginning)
         && (call == Schedule ==> sl.provider)
    case Go(i, c) => i < |s.agents| && s.agents[i].todo != [] && s.agents[i].slot < |s.slots|
    case CopyBlock(from, to) => from < |s.blocks| && to < |s.blocks|
  }

  /** acquire under the pool's lock: the slot last freed, else a slot never used. */
  function AcquireStep(s: State, block: nat, kind: Kind): State
    requires s.free != [] || s.used < MAX_OPERATIONS
  {
    var slot := if s.free != [] then s.free[|s.free| - 1] else s.used;
    s.(free := if s.free != [] then s.free[..|s.free| - 1] else s.free,
       used := if s.free != [] then s.used else s.used + 1,
       owner := s.owner + [slot],
       agents := s.agents + [Agent(slot, NextToken(s), true, [Init(block, kind)])])
  }

  function FindStep(s: State, block: nat, call: Call): State
    requires Resolves(s, block)
  {
    var cookie := s.blocks[block];
    var sl := s.slots[cookie.slot];
    s.(slots := s.slots[cookie.slot := sl.(holds := sl.holds + 1)],
       agents := s.agents + [Agent(cookie.slot, cookie.token, false, Ops(call))])
  }

  /** The cookie a step writes or clears. */
  function Cookies(s: State, a: Agent, e: Effect): seq<Cookie>
    requires a.todo != []
  {
    if a.todo[0].Init? && a.todo[0].block < |s.blocks| then s.blocks[a.todo[0].block := Cookie(a.slot, a.token)]
    else if e.cleared.Some? && e.cleared.value < |s.blocks| then s.blocks[e.cleared.value := NoCookie]
    else s.blocks
  }

  function GoStep(s: State, i: nat, c: Choice): State
    requires i < |s.agents| && s.agents[i].todo != [] && s.agents[i].slot < |s.slots|
  {
    var a := s.agents[i];
    var e := Exec(s.slots[a.slot], a, s.callbacks, c);
    s.(slots := s.slots[a.slot := e.slot],
       agents := s.agents[i := e.agent] + e.spawned,
       free := if e.freed then s.free + [a.slot] else s.free,
       blocks := Cookies(s, a, e))
  }

  function Take(s: State, step: Step): State
    requires Enabled(s, step)
  {
    match step
    case Acquire(block, kind) => AcquireStep(s, block, kind)
    case Find(block, call) => FindStep(s, block, call)
    case Go(i, c) => GoStep(s, i, c)
    case CopyBlock(from, to) => s.(blocks := s.blocks[to := s.blocks[from]])
  }

  ghost predicate Next(s: State, t: State) {
    exists step :: Enabled(s, step) && t == Take(s, step)
  }

  /** A run: states one step apart, from an initial one. */
  ghost predicate IsRun(run: seq<State>) {
    && run != [] && Initial(run[0])
    && forall i :: 0 <= i < |run| - 1 ==> Next(run[i], run[i + 1])
  }
}
