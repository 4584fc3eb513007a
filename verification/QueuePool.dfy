/** gdk/task-queue.cxx: the pool of task queues and the ports they own or borrow. */
module QueuePool {
  import opened Wrappers

  const MAX_QUEUES := 64
  const MAX_PORTS := 32

  /** A queue: whether it owns its two ports or borrows them; MAX_PORTS stands for a port
      that is not the pool's. */
  datatype Queue = Queue(used: bool, owns: bool, work: nat, completion: nat)

  datatype PortSlot = PortSlot(used: bool, owned: bool, borrows: nat)

  const NO_QUEUE := Queue(false, false, MAX_PORTS, MAX_PORTS)

  /** How often a queue refers to port j, as an owner or as a borrower. */
  function Refs(q: Queue, j: nat, owning: bool): nat {
    if q.used && q.owns == owning then Num(q.work == j) + Num(q.completion == j) else 0
  }

  function AllRefs(made: seq<Queue>, j: nat, owning: bool): nat {
    if made == [] then 0 else AllRefs(made[..|made| - 1], j, owning) + Refs(made[|made| - 1], j, owning)
  }

  function UsedQueues(made: seq<Queue>): nat {
    if made == [] then 0 else UsedQueues(made[..|made| - 1]) + Num(made[|made| - 1].used)
  }

  function UsedPorts(ports: seq<PortSlot>): nat {
    if ports == [] then 0 else UsedPorts(ports[..|ports| - 1]) + Num(ports[|ports| - 1].used)
  }

  lemma {:induction false} RefsUpdate(made: seq<Queue>, i: nat, q: Queue, j: nat, owning: bool)
    requires i < |made|
    ensures AllRefs(made[i := q], j, owning) + Refs(made[i], j, owning) == AllRefs(made, j, owning) + Refs(q, j, owning)
    ensures AllRefs(made, j, owning) >= Refs(made[i], j, owning)
  {
    hide Refs;
    var k := |made| - 1;
    if i == k {
      assert made[i := q][..k] == made[..k];
    } else {
      RefsUpdate(made[..k], i, q, j, owning);
      assert made[i := q][..k] == made[..k][i := q];
    }
  }

  lemma {:induction false} QueuesUpdate(made: seq<Queue>, i: nat, q: Queue)
    requires i < |made|
    ensures UsedQueues(made[i := q]) + Num(made[i].used) == UsedQueues(made) + Num(q.used)
  {
    var k := |made| - 1;
    if i == k {
      assert made[i := q][..k] == made[..k];
    } else {
      QueuesUpdate(made[..k], i, q);
      assert made[i := q][..k] == made[..k][i := q];
    }
  }

  lemma {:induction false} PortsUpdate(ports: seq<PortSlot>, i: nat, p: PortSlot)
    requires i < |ports|
    ensures UsedPorts(ports[i := p]) + Num(ports[i].used) == UsedPorts(ports) + Num(p.used)
  {
    var k := |ports| - 1;
    if i == k {
      assert ports[i := p][..k] == ports[..k];
    } else {
      PortsUpdate(ports[..k], i, p);
      assert ports[i := p][..k] == ports[..k][i := p];
    }
  }

  // ---- The invariant ----

  ghost predicate QueueOk(q: Queue) {
    && q.work <= MAX_PORTS && q.completion <= MAX_PORTS
    && (q.owns ==> q.used && q.work < MAX_PORTS && q.completion < MAX_PORTS && q.work != q.completion)
    && (!q.used ==> q == NO_QUEUE)
  }

  /** A port is owned by at most one queue, borrowed as often as it says, and in use
      exactly when it is owned, borrowed or being stopped, which exclude each other as far
      as stopping goes. */
  ghost predicate PortOk(made: seq<Queue>, p: PortSlot, j: nat, stopping: set<nat>) {
    && Num(p.owned) == AllRefs(made, j, true) && p.borrows == AllRefs(made, j, false)
    && (p.used <==> p.owned || p.borrows > 0 || j in stopping)
    && (j in stopping ==> !p.owned && p.borrows == 0)
  }

  ghost predicate PoolOk(made: seq<Queue>, ports: seq<PortSlot>, stopping: set<nat>) {
    && |made| == MAX_QUEUES && |ports| == MAX_PORTS
    && (forall i :: 0 <= i < MAX_QUEUES ==> QueueOk(made[i]))
    && (forall j :: 0 <= j < MAX_PORTS ==> PortOk(made, ports[j], j, stopping))
  }

  predicate Spent(p: PortSlot) { p.used && !p.owned && p.borrows == 0 }

  // ---- What each operation does to the pool ----

  /** create_queue once two ports and a queue were found. */
  function Created(ports: seq<PortSlot>, wi: nat, ci: nat): seq<PortSlot>
    requires wi < |ports| && ci < |ports|
  {
    ports[wi := ports[wi].(used := true, owned := true)][ci := ports[ci].(used := true, owned := true)]
  }

  lemma CreateKeeps(made: seq<Queue>, ports: seq<PortSlot>, stopping: set<nat>, i: nat, wi: nat, ci: nat)
    requires PoolOk(made, ports, stopping) && i < MAX_QUEUES && wi < MAX_PORTS && ci < MAX_PORTS && wi != ci
    requires !made[i].used && !ports[wi].used && !ports[ci].used
    ensures PoolOk(made[i := Queue(true, true, wi, ci)], Created(ports, wi, ci), stopping)
  {
    var q := Queue(true, true, wi, ci);
    var ports' := Created(ports, wi, ci);
    assert QueueOk(made[i]);
    forall j | 0 <= j < MAX_PORTS
      ensures PortOk(made[i := q], ports'[j], j, stopping)
    {
      assert PortOk(made, ports[j], j, stopping);
      RefsUpdate(made, i, q, j, true);
      RefsUpdate(made, i, q, j, false);
    }
  }

  /** One more borrower, if the port is the pool's. */
  function Borrowed(ports: seq<PortSlot>, j: nat): (r: seq<PortSlot>)
    ensures |r| == |ports|
  {
    if j < |ports| then ports[j := ports[j].(borrows := ports[j].borrows + 1)] else ports
  }

  /** A composite may be built from the ports of live queues and from ports elsewhere. */
  ghost predicate Lives(ports: seq<PortSlot>, j: nat) {
    j == MAX_PORTS || (j < |ports| && (ports[j].owned || ports[j].borrows > 0))
  }

  lemma CompositeKeeps(made: seq<Queue>, ports: seq<PortSlot>, stopping: set<nat>, i: nat, wi: nat, ci: nat)
    requires PoolOk(made, ports, stopping) && i < MAX_QUEUES && !made[i].used && Lives(ports, wi) && Lives(ports, ci)
    ensures PoolOk(made[i := Queue(true, false, wi, ci)], Borrowed(Borrowed(ports, wi), ci), stopping)
  {
    var q := Queue(true, false, wi, ci);
    var ports' := Borrowed(Borrowed(ports, wi), ci);
    assert QueueOk(made[i]);
    forall j | 0 <= j < MAX_PORTS
      ensures PortOk(made[i := q], ports'[j], j, stopping)
    {
      assert PortOk(made, ports[j], j, stopping);
      RefsUpdate(made, i, q, j, true);
      RefsUpdate(made, i, q, j, false);
    }
  }

  /** A port after a queue has let go of it. */
  function LetGo(ports: seq<PortSlot>, owns: bool, j: nat): (r: seq<PortSlot>)
    ensures |r| == |ports|
  {
    if j >= |ports| then ports
    else if owns then ports[j := ports[j].(owned := false)]
    else if ports[j].borrows != 0 then ports[j := ports[j].(borrows := ports[j].borrows - 1)]
    else ports
  }

  /** The ports that the release of queue q leaves without owner and borrower. */
  ghost function Last(made: seq<Queue>, q: Queue): set<nat> {
    set j | 0 <= j < MAX_PORTS && (q.work == j || q.completion == j)
            && AllRefs(made, j, true) == Refs(q, j, true) && AllRefs(made, j, false) == Refs(q, j, false)
  }

  /** The same ports in order: work before completion, one port only once. */
  ghost function LastOf(made: seq<Queue>, q: Queue): seq<nat> {
    (if q.work in Last(made, q) && q.work != q.completion then [q.work] else []) +
    (if q.completion in Last(made, q) then [q.completion] else [])
  }

  lemma ReleasedPort(made: seq<Queue>, ports: seq<PortSlot>, stopping: set<nat>, i: nat, j: nat)
    requires PoolOk(made, ports, stopping) && i < MAX_QUEUES && made[i].used && j < MAX_PORTS
    ensures var q := made[i]; var ports' := LetGo(LetGo(ports, q.owns, q.work), q.owns, q.completion);
      PortOk(made[i := NO_QUEUE], ports'[j], j, stopping + Last(made, q))
  {
    var q := made[i];
    assert QueueOk(q);
    assert PortOk(made, ports[j], j, stopping);
    RefsUpdate(made, i, NO_QUEUE, j, true);
    RefsUpdate(made, i, NO_QUEUE, j, false);
    hide AllRefs;
  }

  lemma ReleaseKeeps(made: seq<Queue>, ports: seq<PortSlot>, stopping: set<nat>, i: nat)
    requires PoolOk(made, ports, stopping) && i < MAX_QUEUES && made[i].used
    ensures var q := made[i];
      PoolOk(made[i := NO_QUEUE], LetGo(LetGo(ports, q.owns, q.work), q.owns, q.completion), stopping + Last(made, q))
    ensures Last(made, made[i]) !! stopping
  {
    forall j | 0 <= j < MAX_PORTS
      ensures PortOk(made[i := NO_QUEUE],
        LetGo(LetGo(ports, made[i].owns, made[i].work), made[i].owns, made[i].completion)[j], j,
        stopping + Last(made, made[i]))
      ensures j in stopping ==> j !in Last(made, made[i])
    {
      ReleasedPort(made, ports, stopping, i, j);
      assert PortOk(made, ports[j], j, stopping);
      RefsUpdate(made, i, NO_QUEUE, j, true);
      RefsUpdate(made, i, NO_QUEUE, j, false);
    }
    hide PortOk, AllRefs;
  }

  /** A port that is let go of is spent exactly when nobody refers to it any more. */
  lemma SpentIsLast(made: seq<Queue>, ports: seq<PortSlot>, stopping: set<nat>, i: nat)
    requires PoolOk(made, ports, stopping) && i < MAX_QUEUES && made[i].used
    ensures var q := made[i]; var p1 := LetGo(ports, q.owns, q.work); var p2 := LetGo(p1, q.owns, q.completion);
      && (q.work < MAX_PORTS && q.work != q.completion ==> (Spent(p1[q.work]) <==> q.work in Last(made, q)))
      && (q.work < MAX_PORTS && q.work == q.completion ==> !Spent(p1[q.work]))
      && (q.completion < MAX_PORTS ==> (Spent(p2[q.completion]) <==> q.completion in Last(made, q)))
  {
    var q := made[i];
    assert QueueOk(q);
    if q.work < MAX_PORTS {
      SpentPort(made, ports, stopping, i, q.work);
    }
    if q.completion < MAX_PORTS {
      SpentPort(made, ports, stopping, i, q.completion);
    }
    hide AllRefs, PoolOk;
  }

  lemma SpentPort(made: seq<Queue>, ports: seq<PortSlot>, stopping: set<nat>, i: nat, j: nat)
    requires PoolOk(made, ports, stopping) && i < MAX_QUEUES && made[i].used && j < MAX_PORTS && j < |ports|
    requires made[i].work == j || made[i].completion == j
    ensures var q := made[i]; var p := ports[j]; var n := Num(q.work == j) + Num(q.completion == j);
      && p.used && (if q.owns then p.owned && n == 1 else p.borrows >= n)
      && (j in Last(made, q) <==> if q.owns then p.borrows == 0 else !p.owned && p.borrows == n)
  {
    var q := made[i];
    assert QueueOk(q);
    assert PortOk(made, ports[j], j, stopping);
    RefsUpdate(made, i, NO_QUEUE, j, true);
    RefsUpdate(made, i, NO_QUEUE, j, false);
    hide AllRefs;
  }

  // ---- The pool ----

  class Pool {
    const made: array<Queue>
    const ports: array<PortSlot>
    var portCount: nat
    var queueCount: nat
    /** Ports that a release is stopping and has not returned yet. */
    ghost var stopping: set<nat>

    ghost predicate Valid()
      reads this, made, ports
    {
      && PoolOk(made[..], ports[..], stopping)
      && portCount == UsedPorts(ports[..]) && queueCount == UsedQueues(made[..])
    }

    constructor ()
      ensures Valid() && stopping == {} && fresh(made) && fresh(ports)
      ensures forall i :: 0 <= i < MAX_QUEUES ==> !made[i].used
    {
      made := new Queue[MAX_QUEUES](_ => NO_QUEUE);
      ports := new PortSlot[MAX_PORTS](_ => PortSlot(false, false, 0));
      portCount, queueCount, stopping := 0, 0, {};
      new;
      EmptyPool(made[..], ports[..]);
    }

    /** take_port: the first port that is not in use. */
    method TakePort() returns (i: nat)
      requires ports.Length == MAX_PORTS && portCount == UsedPorts(ports[..])
      modifies this`portCount, ports
      ensures i <= MAX_PORTS && portCount == UsedPorts(ports[..])
      ensures forall j :: 0 <= j < i ==> old(ports[j]).used
      ensures if i == MAX_PORTS then ports[..] == old(ports[..])
        else !old(ports[i]).used && ports[..] == old(ports[..])[i := old(ports[i]).(used := true)]
    {
      i := 0;
      while i != MAX_PORTS
        invariant i <= MAX_PORTS && ports[..] == old(ports[..]) && portCount == old(portCount)
        invariant forall j :: 0 <= j < i ==> old(ports[j]).used
        decreases MAX_PORTS - i
      {
        if !ports[i].used {
          PortsUpdate(ports[..], i, ports[i].(used := true));
          ports[i] := ports[i].(used := true);
          portCount := portCount + 1;
          return;
        }
        i := i + 1;
      }
    }

    /** give_port. */
    method GivePort(i: nat)
      requires ports.Length == MAX_PORTS && portCount == UsedPorts(ports[..]) && i <= MAX_PORTS
      requires i < MAX_PORTS ==> ports[i].used
      modifies this`portCount, ports
      ensures portCount == UsedPorts(ports[..])
      ensures ports[..] == if i == MAX_PORTS then old(ports[..]) else old(ports[..])[i := old(ports[i]).(used := false)]
    {
      if i != MAX_PORTS {
        PortsUpdate(ports[..], i, ports[i].(used := false));
        ports[i] := ports[i].(used := false);
        portCount := portCount - 1;
      }
    }

    /** take_queue: the first queue that is not in use. */
    method TakeQueue() returns (i: nat)
      requires made.Length == MAX_QUEUES && queueCount == UsedQueues(made[..])
      modifies this`queueCount, made
      ensures i <= MAX_QUEUES && queueCount == UsedQueues(made[..])
      ensures forall j :: 0 <= j < i ==> old(made[j]).used
      ensures if i == MAX_QUEUES then made[..] == old(made[..])
        else !old(made[i]).used && made[..] == old(made[..])[i := old(made[i]).(used := true)]
    {
      i := 0;
      while i != MAX_QUEUES
        invariant i <= MAX_QUEUES && made[..] == old(made[..]) && queueCount == old(queueCount)
        invariant forall j :: 0 <= j < i ==> old(made[j]).used
        decreases MAX_QUEUES - i
      {
        if !made[i].used {
          QueuesUpdate(made[..], i, made[i].(used := true));
          made[i] := made[i].(used := true);
          queueCount := queueCount + 1;
          return;
        }
        i := i + 1;
      }
    }

    /** create_queue: a queue with two ports of its own. It fails, and leaves the pool as
        it was, exactly when two ports or a queue are missing. */
    method CreateQueue() returns (i: nat)
      requires Valid()
      modifies this`portCount, this`queueCount, made, ports
      ensures Valid() && stopping == old(stopping) && i <= MAX_QUEUES
      ensures i == MAX_QUEUES ==> made[..] == old(made[..]) && ports[..] == old(ports[..])
      ensures i == MAX_QUEUES ==> portCount == old(portCount) && queueCount == old(queueCount)
      ensures i == MAX_QUEUES ==>
        (forall a, b :: 0 <= a < b < MAX_PORTS ==> old(ports[a]).used || old(ports[b]).used)
        || (forall k :: 0 <= k < MAX_QUEUES ==> old(made[k]).used)
      ensures i < MAX_QUEUES ==> !old(made[i]).used && exists wi: nat, ci: nat ::
        wi < MAX_PORTS && ci < MAX_PORTS && wi != ci && !old(ports[wi]).used && !old(ports[ci]).used
        && made[..] == old(made[..])[i := Queue(true, true, wi, ci)] && ports[..] == Created(old(ports[..]), wi, ci)
    {
      hide PoolOk, UsedPorts, UsedQueues;
      Sizes(made[..], ports[..], stopping);
      ghost var ps, ms := ports[..], made[..];
      var wi := TakePort();
      var ci := TakePort();
      i := MAX_QUEUES;
      if wi != MAX_PORTS && ci != MAX_PORTS {
        i := TakeQueue();
      }
      if i == MAX_QUEUES {
        GivePort(wi);
        GivePort(ci);
        assert ports[..] == ps;
        return;
      }
      CreateKeeps(ms, ps, stopping, i, wi, ci);
      QueuesUpdate(made[..], i, Queue(true, true, wi, ci));
      made[i] := Queue(true, true, wi, ci);
      assert made[..] == ms[i := Queue(true, true, wi, ci)];
      PortsUpdate(ports[..], wi, ports[wi].(owned := true));
      ports[wi] := ports[wi].(owned := true);
      PortsUpdate(ports[..], ci, ports[ci].(owned := true));
      ports[ci] := ports[ci].(owned := true);
      assert ports[..] == Created(ps, wi, ci);
    }

    /** create_composite_queue: a queue that borrows its ports, which are ports of live
        queues or not the pool's. It fails only for want of a queue. */
    method CreateComposite(wi: nat, ci: nat) returns (i: nat)
      requires Valid() && Lives(ports[..], wi) && Lives(ports[..], ci)
      modifies this`queueCount, made, ports
      ensures Valid() && stopping == old(stopping) && i <= MAX_QUEUES
      ensures i == MAX_QUEUES ==> made[..] == old(made[..]) && ports[..] == old(ports[..])
      ensures i == MAX_QUEUES ==> queueCount == old(queueCount)
      ensures i == MAX_QUEUES ==> forall k :: 0 <= k < MAX_QUEUES ==> old(made[k]).used
      ensures i < MAX_QUEUES ==> !old(made[i]).used && made[..] == old(made[..])[i := Queue(true, false, wi, ci)]
      ensures i < MAX_QUEUES ==> ports[..] == Borrowed(Borrowed(old(ports[..]), wi), ci)
    {
      hide PoolOk, UsedPorts, UsedQueues, Borrowed;
      Sizes(made[..], ports[..], stopping);
      ghost var ps, ms := ports[..], made[..];
      i := TakeQueue();
      if i == MAX_QUEUES {
        return;
      }
      CompositeKeeps(ms, ps, stopping, i, wi, ci);
      QueuesUpdate(made[..], i, Queue(true, false, wi, ci));
      made[i] := Queue(true, false, wi, ci);
      assert made[..] == ms[i := Queue(true, false, wi, ci)];
      Borrow(wi);
      Borrow(ci);
    }

    method Borrow(j: nat)
      requires ports.Length == MAX_PORTS
      modifies ports
      ensures ports[..] == Borrowed(old(ports[..]), j) && UsedPorts(ports[..]) == old(UsedPorts(ports[..]))
    {
      if j < MAX_PORTS {
        PortsUpdate(ports[..], j, ports[j].(borrows := ports[j].borrows + 1));
        ports[j] := ports[j].(borrows := ports[j].borrows + 1);
      }
    }

    /** One port of a queue that is released; whether it is spent now. */
    method DropPort(owns: bool, j: nat) returns (spent: bool)
      requires ports.Length == MAX_PORTS && j < MAX_PORTS
      modifies ports
      ensures ports[..] == LetGo(old(ports[..]), owns, j) && UsedPorts(ports[..]) == old(UsedPorts(ports[..]))
      ensures spent == Spent(ports[j])
    {
      if owns {
        PortsUpdate(ports[..], j, ports[j].(owned := false));
        ports[j] := ports[j].(owned := false);
      } else if ports[j].borrows != 0 {
        PortsUpdate(ports[..], j, ports[j].(borrows := ports[j].borrows - 1));
        ports[j] := ports[j].(borrows := ports[j].borrows - 1);
      }
      spent := Spent(ports[j]);
    }

    /** release_queue under its first lock: the queue lets go of its ports, and those that
        nobody owns or borrows any more are set apart, once each, to be stopped. A queue
        that is not in use is left alone. */
    method LetGoOf(i: nat) returns (done: seq<nat>)
      requires Valid() && i < MAX_QUEUES
      modifies this`queueCount, this`stopping, made, ports
      ensures Valid()
      ensures !old(made[i]).used ==> done == [] && made[..] == old(made[..]) && ports[..] == old(ports[..])
      ensures !old(made[i]).used ==> stopping == old(stopping)
      ensures old(made[i]).used ==>
        && made[..] == old(made[..])[i := NO_QUEUE]
        && (var q := old(made[i]); ports[..] == LetGo(LetGo(old(ports[..]), q.owns, q.work), q.owns, q.completion))
        && done == LastOf(old(made[..]), old(made[i]))
        && (forall j :: j in done ==> j !in old(stopping))
        && stopping == old(stopping) + Last(old(made[..]), old(made[i]))
    {
      hide PoolOk, UsedPorts, UsedQueues, LetGo, Last;
      Sizes(made[..], ports[..], stopping);
      done := [];
      if !made[i].used {
        return;
      }
      ghost var ps, ms, q := ports[..], made[..], made[i];
      QueueIsOk(ms, ps, stopping, i);
      ReleaseKeeps(ms, ps, stopping, i);
      SpentIsLast(ms, ps, stopping, i);
      var owns, work, completion := made[i].owns, made[i].work, made[i].completion;
      OutsideIsNone(ps, owns);
      if work != MAX_PORTS {
        var spent := DropPort(owns, work);
        if spent {
          done := [work];
        }
      }
      assert ports[..] == LetGo(ps, owns, work);
      OutsideIsNone(ports[..], owns);
      if completion != MAX_PORTS {
        var spent := DropPort(owns, completion);
        if spent {
          done := done + [completion];
        }
      }
      LastAreIts(ms, q);
      QueuesUpdate(made[..], i, NO_QUEUE);
      made[i] := NO_QUEUE;
      assert made[..] == ms[i := NO_QUEUE];
      queueCount := queueCount - 1;
      stopping := stopping + Last(ms, q);
    }

    /** release_queue under its second lock: a stopped port goes back. */
    method Return(j: nat)
      requires Valid() && j in stopping && j < MAX_PORTS
      modifies this`portCount, this`stopping, ports
      ensures Valid() && stopping == old(stopping) - {j}
      ensures ports[..] == old(ports[..])[j := PortSlot(false, false, 0)]
    {
      Sizes(made[..], ports[..], stopping);
      ReturnKeeps(made[..], ports[..], stopping, j);
      GivePort(j);
      stopping := stopping - {j};
    }
  }

  lemma QueueIsOk(made: seq<Queue>, ports: seq<PortSlot>, stopping: set<nat>, i: nat)
    requires PoolOk(made, ports, stopping) && i < MAX_QUEUES
    ensures QueueOk(made[i])
  {
  }

  lemma OutsideIsNone(ports: seq<PortSlot>, owns: bool)
    requires |ports| == MAX_PORTS
    ensures LetGo(ports, owns, MAX_PORTS) == ports
  {
  }

  lemma LastAreIts(made: seq<Queue>, q: Queue)
    ensures forall j :: j in Last(made, q) ==> j < MAX_PORTS && (j == q.work || j == q.completion)
  {
  }

  lemma ReturnKeeps(made: seq<Queue>, ports: seq<PortSlot>, stopping: set<nat>, j: nat)
    requires PoolOk(made, ports, stopping) && j in stopping && j < MAX_PORTS
    ensures ports[j] == PortSlot(true, false, 0)
    ensures PoolOk(made, ports[j := ports[j].(used := false)], stopping - {j})
  {
    assert PortOk(made, ports[j], j, stopping);
    var ports', rest := ports[j := ports[j].(used := false)], stopping - {j};
    forall k | 0 <= k < MAX_PORTS
      ensures PortOk(made, ports'[k], k, rest)
    {
      assert PortOk(made, ports[k], k, stopping);
    }
    hide AllRefs;
  }

  lemma Sizes(made: seq<Queue>, ports: seq<PortSlot>, stopping: set<nat>)
    requires PoolOk(made, ports, stopping)
    ensures |made| == MAX_QUEUES && |ports| == MAX_PORTS
  {
  }

  lemma EmptyPool(made: seq<Queue>, ports: seq<PortSlot>)
    requires |made| == MAX_QUEUES && |ports| == MAX_PORTS
    requires forall i :: 0 <= i < MAX_QUEUES ==> made[i] == NO_QUEUE
    requires forall j :: 0 <= j < MAX_PORTS ==> ports[j] == PortSlot(false, false, 0)
    ensures PoolOk(made, ports, {}) && UsedPorts(ports) == 0 && UsedQueues(made) == 0
  {
    NoneUsed(made, ports);
    forall j | 0 <= j < MAX_PORTS
      ensures PortOk(made, ports[j], j, {})
    {
      NoRefs(made, j);
    }
  }

  lemma {:induction false} NoRefs(made: seq<Queue>, j: nat)
    requires forall i :: 0 <= i < |made| ==> made[i] == NO_QUEUE
    ensures AllRefs(made, j, true) == AllRefs(made, j, false) == 0
  {
    if made != [] {
      NoRefs(made[..|made| - 1], j);
    }
  }

  lemma {:induction false} NoneUsed(made: seq<Queue>, ports: seq<PortSlot>)
    requires forall i :: 0 <= i < |made| ==> !made[i].used
    requires forall j :: 0 <= j < |ports| ==> !ports[j].used
    ensures UsedPorts(ports) == 0 && UsedQueues(made) == 0
    decreases |made| + |ports|
  {
    if made != [] {
      NoneUsed(made[..|made| - 1], ports);
    } else if ports != [] {
      NoneUsed(made, ports[..|ports| - 1]);
    }
  }
}
