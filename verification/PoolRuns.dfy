/** Runs of the pool of gdk/task-queue.cxx: any interleaving of creating and releasing queues,
    each lock section one step, with a log of what becomes of the ports. */
module PoolRuns {
  import opened Wrappers
  import opened QueuePool

  /** A port is taken for a new queue, stopped, and returned. */
  datatype Entry = Opened(port: nat) | Stopped(port: nat) | Returned(port: nat)

  datatype State = State(made: seq<Queue>, ports: seq<PortSlot>, stopping: set<nat>, log: seq<Entry>)

  /** Nothing is a create that fails, or the release of a queue that is not in use. */
  datatype Action =
    | Create(i: nat, wi: nat, ci: nat)
    | Composite(i: nat, wi: nat, ci: nat)
    | Release(i: nat)
    | Return(j: nat)
    | Nothing

  ghost predicate Enabled(s: State, a: Action) {
    && |s.made| == MAX_QUEUES && |s.ports| == MAX_PORTS
    && match a
       case Create(i, wi, ci) =>
         && i < MAX_QUEUES && wi < MAX_PORTS && ci < MAX_PORTS && wi != ci
         && !s.made[i].used && !s.ports[wi].used && !s.ports[ci].used
       case Composite(i, wi, ci) => i < MAX_QUEUES && !s.made[i].used && Lives(s.ports, wi) && Lives(s.ports, ci)
       case Release(i) => i < MAX_QUEUES && s.made[i].used
       case Return(j) => j in s.stopping && j < MAX_PORTS
       case Nothing => true
  }

  /** The ports that the release of a queue stops, in order and once each. */
  ghost function Stops(made: seq<Queue>, q: Queue): seq<Entry> {
    (if q.work in Last(made, q) && q.work != q.completion then [Stopped(q.work)] else []) +
    (if q.completion in Last(made, q) then [Stopped(q.completion)] else [])
  }

  ghost function Take(s: State, a: Action): State
    requires Enabled(s, a)
  {
    match a
    case Create(i, wi, ci) =>
      State(s.made[i := Queue(true, true, wi, ci)], Created(s.ports, wi, ci), s.stopping,
        s.log + [Opened(wi), Opened(ci)])
    case Composite(i, wi, ci) =>
      s.(made := s.made[i := Queue(true, false, wi, ci)], ports := Borrowed(Borrowed(s.ports, wi), ci))
    case Release(i) =>
      var q := s.made[i];
      State(s.made[i := NO_QUEUE], LetGo(LetGo(s.ports, q.owns, q.work), q.owns, q.completion),
            s.stopping + Last(s.made, q), s.log + Stops(s.made, q))
    case Return(j) => State(s.made, s.ports[j := PortSlot(false, false, 0)], s.stopping - {j}, s.log + [Returned(j)])
    case Nothing => s
  }

  ghost predicate Next(s: State, t: State) {
    exists a :: Enabled(s, a) && t == Take(s, a)
  }

  ghost predicate Initial(s: State) {
    && |s.made| == MAX_QUEUES && |s.ports| == MAX_PORTS && s.stopping == {} && s.log == []
    && (forall i :: 0 <= i < MAX_QUEUES ==> s.made[i] == NO_QUEUE)
    && (forall j :: 0 <= j < MAX_PORTS ==> s.ports[j] == PortSlot(false, false, 0))
  }

  ghost predicate IsRun(run: seq<State>) {
    && run != [] && Initial(run[0])
    && forall i :: 0 <= i < |run| - 1 ==> Next(run[i], run[i + 1])
  }

  // ---- The life of a port ----

  datatype Phase = Free | Open | Stopping | Broken

  /** A port is opened, stopped and returned in turn; anything else breaks its life. */
  function PhaseOf(log: seq<Entry>, j: nat): Phase {
    if log == [] then Free
    else
      var k := |log| - 1;
      Moved(PhaseOf(log[..k], j), log[k], j)
  }

  function Moved(p: Phase, e: Entry, j: nat): Phase {
    if e.port != j then p
    else if e.Opened? && p == Free then Open
    else if e.Stopped? && p == Open then Stopping
    else if e.Returned? && p == Stopping then Free
    else Broken
  }

  lemma PhaseSnoc(log: seq<Entry>, e: Entry, j: nat)
    ensures PhaseOf(log + [e], j) == Moved(PhaseOf(log, j), e, j)
  {
    assert (log + [e])[..|log|] == log;
  }

  lemma PhaseTwo(log: seq<Entry>, d: Entry, e: Entry, j: nat)
    ensures PhaseOf(log + [d, e], j) == Moved(Moved(PhaseOf(log, j), d, j), e, j)
  {
    PhaseSnoc(log, d, j);
    PhaseSnoc(log + [d], e, j);
    assert log + [d, e] == log + [d] + [e];
  }

  /** The phase that the pool shows. */
  ghost function Shown(s: State, j: nat): Phase
    requires j < |s.ports|
  {
    if !s.ports[j].used then Free else if j in s.stopping then Stopping else Open
  }

  ghost predicate Inv(s: State) {
    && PoolOk(s.made, s.ports, s.stopping)
    && forall j :: 0 <= j < MAX_PORTS ==> PhaseOf(s.log, j) == Shown(s, j)
  }

  lemma InitialInv(s: State)
    requires Initial(s)
    ensures Inv(s)
  {
    EmptyPool(s.made, s.ports);
  }

  lemma CreateInv(s: State, i: nat, wi: nat, ci: nat)
    requires Inv(s) && Enabled(s, Create(i, wi, ci))
    ensures Inv(Take(s, Create(i, wi, ci)))
  {
    CreateKeeps(s.made, s.ports, s.stopping, i, wi, ci);
    var t := Take(s, Create(i, wi, ci));
    forall j | 0 <= j < MAX_PORTS
      ensures PhaseOf(t.log, j) == Shown(t, j)
    {
      PhaseTwo(s.log, Opened(wi), Opened(ci), j);
      assert PortOk(s.made, s.ports[j], j, s.stopping);
    }
  }

  lemma CompositeInv(s: State, i: nat, wi: nat, ci: nat)
    requires Inv(s) && Enabled(s, Composite(i, wi, ci))
    ensures Inv(Take(s, Composite(i, wi, ci)))
  {
    CompositeKeeps(s.made, s.ports, s.stopping, i, wi, ci);
  }

  lemma StopsPhase(s: State, i: nat, j: nat)
    requires Enabled(s, Release(i)) && j < MAX_PORTS
    ensures var p := PhaseOf(s.log, j); var q := s.made[i];
      PhaseOf(s.log + Stops(s.made, q), j) == if j in Last(s.made, q) then Moved(p, Stopped(j), j) else p
  {
    var q := s.made[i];
    var last := Last(s.made, q);
    LastAreIts(s.made, q);
    hide Last, PhaseOf;
    var a := if q.work in last && q.work != q.completion then [Stopped(q.work)] else [];
    var b := if q.completion in last then [Stopped(q.completion)] else [];
    PhaseSnoc(s.log, Stopped(q.work), j);
    PhaseSnoc(s.log + a, Stopped(q.completion), j);
    assert s.log + (a + b) == s.log + a + b;
    assert s.log + [] == s.log && s.log + a + [] == s.log + a;
  }

  lemma ReleaseInv(s: State, i: nat)
    requires Inv(s) && Enabled(s, Release(i))
    ensures Inv(Take(s, Release(i)))
  {
    var q := s.made[i];
    ReleaseKeeps(s.made, s.ports, s.stopping, i);
    var t := Take(s, Release(i));
    forall j | 0 <= j < MAX_PORTS
      ensures PhaseOf(t.log, j) == Shown(t, j)
    {
      StopsPhase(s, i, j);
      UsedStays(s.ports, q, j);
      assert PortOk(t.made, t.ports[j], j, t.stopping);
      hide AllRefs, Last, LetGo, PhaseOf, Stops;
    }
  }

  lemma UsedStays(ports: seq<PortSlot>, q: Queue, j: nat)
    requires j < |ports|
    ensures LetGo(LetGo(ports, q.owns, q.work), q.owns, q.completion)[j].used == ports[j].used
  {
  }

  lemma ReturnInv(s: State, j: nat)
    requires Inv(s) && Enabled(s, Return(j))
    ensures Inv(Take(s, Return(j)))
  {
    ReturnKeeps(s.made, s.ports, s.stopping, j);
    var t := Take(s, Return(j));
    forall k | 0 <= k < MAX_PORTS
      ensures PhaseOf(t.log, k) == Shown(t, k)
    {
      PhaseSnoc(s.log, Returned(j), k);
    }
  }

  lemma StepInv(s: State, a: Action)
    requires Inv(s) && Enabled(s, a)
    ensures Inv(Take(s, a))
  {
    hide Inv, Take;
    match a
    case Create(i, wi, ci) => CreateInv(s, i, wi, ci);
    case Composite(i, wi, ci) => CompositeInv(s, i, wi, ci);
    case Release(i) => ReleaseInv(s, i);
    case Return(j) => ReturnInv(s, j);
    case Nothing => NothingTaken(s);
  }

  lemma NothingTaken(s: State)
    requires Enabled(s, Nothing)
    ensures Take(s, Nothing) == s
  {
  }

  lemma {:induction false} RunInv(run: seq<State>, n: nat)
    requires IsRun(run) && n < |run|
    ensures Inv(run[n])
  {
    hide Inv, Take, Enabled;
    if n == 0 {
      InitialInv(run[0]);
    } else {
      RunInv(run, n - 1);
      assert Next(run[n - 1], run[n - 1 + 1]);
      var a :| Enabled(run[n - 1], a) && run[n] == Take(run[n - 1], a);
      StepInv(run[n - 1], a);
    }
  }

  // ---- What holds on every run ----

  function Times(log: seq<Entry>, e: Entry): nat {
    if log == [] then 0 else Times(log[..|log| - 1], e) + if log[|log| - 1] == e then 1 else 0
  }

  lemma {:induction false} PhaseCounts(log: seq<Entry>, j: nat)
    ensures var p := PhaseOf(log, j);
      p != Broken ==>
        && Times(log, Opened(j)) == Times(log, Stopped(j)) + (if p == Open then 1 else 0)
        && Times(log, Stopped(j)) == Times(log, Returned(j)) + (if p == Stopping then 1 else 0)
  {
    if log != [] {
      PhaseCounts(log[..|log| - 1], j);
    }
  }

  /** On every run a port is stopped and returned once each time it is opened: while it is
      in use one stop and one return are still to come, while it is being stopped one
      return, and when it is free none. */
  lemma StoppedAndReturnedOnce(run: seq<State>, n: nat, j: nat)
    requires IsRun(run) && n < |run| && j < MAX_PORTS
    ensures |run[n].ports| == MAX_PORTS && PhaseOf(run[n].log, j) == Shown(run[n], j)
    ensures var s, p := run[n], Shown(run[n], j);
      && Times(s.log, Opened(j)) == Times(s.log, Stopped(j)) + (if p == Open then 1 else 0)
      && Times(s.log, Stopped(j)) == Times(s.log, Returned(j)) + (if p == Stopping then 1 else 0)
  {
    RunInv(run, n);
    PhaseCounts(run[n].log, j);
  }

  /** How many queues own or borrow port j. */
  function Holders(made: seq<Queue>, j: nat): nat {
    AllRefs(made, j, true) + AllRefs(made, j, false)
  }

  /** On every run a port is stopped exactly at the step that takes its last owner or
      borrower away. */
  lemma StoppedAtLastRelease(run: seq<State>, n: nat, j: nat)
    requires IsRun(run) && n + 1 < |run| && j < MAX_PORTS
    ensures var s, t := run[n], run[n + 1];
      Times(t.log, Stopped(j)) == Times(s.log, Stopped(j)) + if Holders(s.made, j) > 0 && Holders(t.made,
        j) == 0 then 1 else 0
  {
    hide Inv, IsRun, Take, Enabled, Holders, Times;
    RunInv(run, n);
    StepOf(run, n);
    var a :| Enabled(run[n], a) && run[n + 1] == Take(run[n], a);
    StepStops(run[n], a, j);
  }

  lemma StepOf(run: seq<State>, n: nat)
    requires IsRun(run) && n + 1 < |run|
    ensures Next(run[n], run[n + 1])
  {
  }

  lemma TimesCat(log: seq<Entry>, d: Entry, e: Entry)
    ensures Times(log + [d], e) == Times(log, e) + if d == e then 1 else 0
  {
    assert (log + [d])[..|log|] == log;
  }

  lemma StepStops(s: State, a: Action, j: nat)
    requires Inv(s) && Enabled(s, a) && j < MAX_PORTS
    ensures var t := Take(s, a);
      Times(t.log, Stopped(j)) == Times(s.log, Stopped(j)) + if Holders(s.made, j) > 0 && Holders(t.made,
        j) == 0 then 1 else 0
  {
    hide Times, AllRefs;
    var e := Stopped(j);
    match a
    case Create(i, wi, ci) =>
      TimesCat(s.log, Opened(wi), e);
      TimesCat(s.log + [Opened(wi)], Opened(ci), e);
      assert s.log + [Opened(wi), Opened(ci)] == s.log + [Opened(wi)] + [Opened(ci)];
      AddsHolders(s, i, Queue(true, true, wi, ci), j);
    case Composite(i, wi, ci) =>
      AddsHolders(s, i, Queue(true, false, wi, ci), j);
    case Release(i) =>
      ReleaseStops(s, i, j);
    case Return(k) =>
      TimesCat(s.log, Returned(k), e);
    case Nothing =>
  }

  lemma AddsHolders(s: State, i: nat, q: Queue, j: nat)
    requires Inv(s) && i < MAX_QUEUES && !s.made[i].used
    ensures Holders(s.made[i := q], j) >= Holders(s.made, j)
  {
    RefsUpdate(s.made, i, q, j, true);
    RefsUpdate(s.made, i, q, j, false);
  }

  lemma ReleaseStops(s: State, i: nat, j: nat)
    requires Inv(s) && Enabled(s, Release(i)) && j < MAX_PORTS
    ensures Times(s.log + Stops(s.made, s.made[i]), Stopped(j)) == Times(s.log, Stopped(j)) +
      if Holders(s.made, j) > 0 && Holders(s.made[i := NO_QUEUE], j) == 0 then 1 else 0
  {
    hide Last, Times, AllRefs, Stops;
    var q := s.made[i];
    RefsUpdate(s.made, i, NO_QUEUE, j, true);
    RefsUpdate(s.made, i, NO_QUEUE, j, false);
    LastMeans(s.made, q, j);
    StopsTimes(s.log, s.made, q, j);
  }

  /** A release stops each port that it leaves without holders once. */
  lemma StopsTimes(log: seq<Entry>, made: seq<Queue>, q: Queue, j: nat)
    requires q.used && j < MAX_PORTS
    ensures Times(log + Stops(made, q), Stopped(j)) == Times(log, Stopped(j)) + if j in Last(made, q) then 1 else 0
  {
    LastAreIts(made, q);
    var last, e := Last(made, q), Stopped(j);
    hide Last, Times, AllRefs;
    var a := if q.work in last && q.work != q.completion then [Stopped(q.work)] else [];
    var b := if q.completion in last then [Stopped(q.completion)] else [];
    TimesCat(log, Stopped(q.work), e);
    TimesCat(log + a, Stopped(q.completion), e);
    assert log + (a + b) == log + a + b;
    assert log + [] == log && log + a + [] == log + a;
  }

  /** The ports that a release leaves without holders. */
  lemma LastMeans(made: seq<Queue>, q: Queue, j: nat)
    requires q.used && j < MAX_PORTS && AllRefs(made, j, true) >= Refs(q, j, true)
    requires AllRefs(made, j, false) >= Refs(q, j, false)
    ensures j in Last(made, q) <==>
      Holders(made, j) > 0 && AllRefs(made, j, true) - Refs(q, j, true) + AllRefs(made, j, false) - Refs(q, j,
        false) == 0
  {
    hide AllRefs;
  }

  /** On every run the pool's own counts are right: borrows and owners are those of the
      live queues. */
  lemma CountsRight(run: seq<State>, n: nat, j: nat)
    requires IsRun(run) && n < |run| && j < MAX_PORTS
    ensures var s := run[n];
      && |s.ports| == MAX_PORTS && s.ports[j].borrows == AllRefs(s.made, j, false)
      && Num(s.ports[j].owned) == AllRefs(s.made, j, true)
      && (s.ports[j].used <==> Holders(s.made, j) > 0 || j in s.stopping)
  {
    RunInv(run, n);
    assert PortOk(run[n].made, run[n].ports[j], j, run[n].stopping);
  }

  // ---- The pool itself on a run ----

  /** The pool is in the state s. */
  ghost predicate InState(p: Pool, s: State)
    reads p, p.made, p.ports
  {
    p.Valid() && p.made[..] == s.made && p.ports[..] == s.ports && p.stopping == s.stopping
  }

  method DoCreate(p: Pool, ghost s: State) returns (i: nat, ghost t: State)
    requires InState(p, s)
    modifies p`portCount, p`queueCount, p.made, p.ports
    ensures InState(p, t) && Next(s, t)
  {
    hide PoolOk;
    Sizes(s.made, s.ports, s.stopping);
    ghost var a := Nothing;
    i := p.CreateQueue();
    if i < MAX_QUEUES {
      ghost var wi: nat, ci: nat :|
        && wi < MAX_PORTS && ci < MAX_PORTS && wi != ci && !s.ports[wi].used && !s.ports[ci].used
        && p.made[..] == s.made[i := Queue(true, true, wi, ci)] && p.ports[..] == Created(s.ports, wi, ci);
      a := Create(i, wi, ci);
    }
    assert Enabled(s, a);
    t := Take(s, a);
  }

  method DoComposite(p: Pool, wi: nat, ci: nat, ghost s: State) returns (i: nat, ghost t: State)
    requires InState(p, s) && Lives(s.ports, wi) && Lives(s.ports, ci)
    modifies p`queueCount, p.made, p.ports
    ensures InState(p, t) && Next(s, t)
  {
    hide PoolOk;
    Sizes(s.made, s.ports, s.stopping);
    i := p.CreateComposite(wi, ci);
    ghost var a := if i < MAX_QUEUES then Composite(i, wi, ci) else Nothing;
    assert Enabled(s, a);
    t := Take(s, a);
  }

  /** The first part of a release: what it is told to stop is what the log says. */
  method DoRelease(p: Pool, i: nat, ghost s: State) returns (done: seq<nat>, ghost t: State)
    requires InState(p, s) && i < MAX_QUEUES
    modifies p`queueCount, p`stopping, p.made, p.ports
    ensures InState(p, t) && Next(s, t)
    ensures |t.log| == |s.log| + |done| && forall k :: 0 <= k < |done| ==> t.log[|s.log| + k] == Stopped(done[k])
  {
    hide PoolOk, Last, LetGo;
    Sizes(s.made, s.ports, s.stopping);
    ghost var a := if s.made[i].used then Release(i) else Nothing;
    done := p.LetGoOf(i);
    assert Enabled(s, a);
    t := Take(s, a);
  }

  method DoReturn(p: Pool, j: nat, ghost s: State) returns (ghost t: State)
    requires InState(p, s) && j in s.stopping && j < MAX_PORTS
    modifies p`portCount, p`stopping, p.ports
    ensures InState(p, t) && Next(s, t)
  {
    hide PoolOk;
    Sizes(s.made, s.ports, s.stopping);
    p.Return(j);
    assert Enabled(s, Return(j));
    t := Take(s, Return(j));
  }
}
