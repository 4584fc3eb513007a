/** gdk/task-queue.cxx: the ring of delayed callbacks behind a port. */
module TaskPort {
  import opened Wrappers

  const CAPACITY := 128

  datatype Mode = Manual | Async | ThreadPool | SerializedThreadPool | Immediate

  /** A callback and when it is due; `delay` is what it was submitted with. */
  datatype Item = Item(context: nat, due: nat, delay: nat)

  // ---- What the ring does to the callbacks in it ----

  /** The first callback that is due at t, or the number of callbacks if none is. */
  function FirstDue(items: seq<Item>, t: nat): (i: nat)
    ensures i <= |items| && (i < |items| ==> items[i].due <= t)
    ensures forall j :: 0 <= j < i ==> items[j].due > t
  {
    if items == [] then 0
    else if items[0].due <= t then 0
    else
      assert forall j :: 0 < j < |items| ==> items[j] == items[1..][j - 1];
      1 + FirstDue(items[1..], t)
  }

  /** What is left once callback i has changed places with the first one and left. */
  function Without(items: seq<Item>, i: nat): (r: seq<Item>)
    requires i < |items|
    ensures |r| == |items| - 1
  {
    items[i := items[0]][1..]
  }

  /** Which callback leaves next; a terminated port gives out all, in order. */
  function Candidate(items: seq<Item>, t: nat, terminated: bool): nat {
    if terminated then 0 else FirstDue(items, t)
  }

  /** The cell of the ring that holds callback i. */
  function Cell(head: nat, i: nat): (c: nat)
    ensures c < CAPACITY && (i == 0 && head < CAPACITY ==> c == head)
  {
    (head + i) % CAPACITY
  }

  /** The callbacks in the ring, from the head on. */
  function View(ring: seq<Item>, head: nat, count: nat): (r: seq<Item>)
    requires |ring| == CAPACITY
    ensures |r| == count
  {
    seq(count, i requires 0 <= i < count => ring[Cell(head, i)])
  }

  /** Different places of the ring are different cells. */
  lemma Apart(head: nat, i: nat, j: nat)
    requires head < CAPACITY && i < CAPACITY && j < CAPACITY && i != j
    ensures Cell(head, i) != Cell(head, j)
  {
  }

  lemma ViewPush(ring: seq<Item>, head: nat, count: nat, it: Item)
    requires |ring| == CAPACITY && head < CAPACITY && count < CAPACITY
    ensures View(ring[Cell(head, count) := it], head, count + 1) == View(ring, head, count) + [it]
  {
    hide Cell;
    forall i | 0 <= i < count
      ensures ring[Cell(head, count) := it][Cell(head, i)] == ring[Cell(head, i)]
    {
      Apart(head, i, count);
    }
  }

  lemma ViewPop(ring: seq<Item>, head: nat, count: nat)
    requires |ring| == CAPACITY && head < CAPACITY && 0 < count
    ensures View(ring, Cell(head, 1), count - 1) == View(ring, head, count)[1..]
  {
    hide Cell;
    forall i: nat | i < count - 1
      ensures Cell(Cell(head, 1), i) == Cell(head, i + 1)
    {
      NextCell(head, i);
    }
  }

  lemma NextCell(head: nat, i: nat)
    requires head < CAPACITY
    ensures Cell(Cell(head, 1), i) == Cell(head, i + 1)
  {
  }

  lemma HeadIs(ring: seq<Item>, head: nat, count: nat)
    requires |ring| == CAPACITY && head < CAPACITY && 0 < count
    ensures View(ring, head, count)[0] == ring[head]
  {
  }

  lemma ViewSwap(ring: seq<Item>, head: nat, count: nat, i: nat)
    requires |ring| == CAPACITY && head < CAPACITY && 0 < i < count <= CAPACITY
    ensures var c := Cell(head, i);
      var was := View(ring, head, count);
      View(ring[head := ring[c]][c := ring[head]], head, count) == was[0 := was[i]][i := was[0]]
  {
    hide Cell;
    var c := Cell(head, i);
    var ring' := ring[head := ring[c]][c := ring[head]];
    Apart(head, 0, i);
    forall j | 0 < j < count && j != i
      ensures View(ring', head, count)[j] == View(ring, head, count)[j]
    {
      Apart(head, j, i);
      Apart(head, j, 0);
    }
  }

  class Port {
    const ring: array<Item>
    var head: nat
    var count: nat
    var mode: Mode
    var terminated: bool
    var canceled: bool

    ghost predicate Valid()
      reads this
    {
      ring.Length == CAPACITY && head < CAPACITY && count <= CAPACITY
    }

    /** The callbacks in the ring, from the head on. */
    ghost function Contents(): (r: seq<Item>)
      requires Valid()
      reads this, ring
      ensures |r| == count
    {
      View(ring[..], head, count)
    }

    /** open: an empty ring. */
    constructor (m: Mode)
      ensures Valid() && Contents() == [] && !terminated && !canceled && mode == m && fresh(ring)
    {
      ring := new Item[CAPACITY](_ => Item(0, 0, 0));
      head, count, mode, terminated, canceled := 0, 0, m, false, false;
    }

    /** submit: append the callback, unless the port is terminated or full; an immediate
        port runs it at once instead. */
    method Submit(context: nat, delay: nat, now: nat) returns (ok: bool, ran: bool)
      requires Valid()
      modifies this`count, ring
      ensures Valid()
      ensures ran == (mode == Immediate)
      ensures ok == (ran || (!terminated && old(count) < CAPACITY))
      ensures Contents() == old(Contents()) + if ok && !ran then [Item(context, now + delay, delay)] else []
    {
      if mode == Immediate {
        return true, true;
      }
      ran := false;
      if terminated || count == CAPACITY {
        return false, false;
      }
      ViewPush(ring[..], head, count, Item(context, now + delay, delay));
      ring[Cell(head, count)] := Item(context, now + delay, delay);
      count := count + 1;
      ok := true;
      assert Contents() == old(Contents()) + [Item(context, now + delay, delay)];
    }

    /** Callback i changes places with the first one. */
    method BringToHead(i: nat)
      requires Valid() && i < count
      modifies ring
      ensures Contents() == old(Contents())[0 := old(Contents())[i]][i := old(Contents())[0]]
    {
      hide Cell, View;
      if i != 0 {
        ViewSwap(ring[..], head, count, i);
        ghost var was := ring[..];
        var x := ring[head];
        ring[head] := ring[Cell(head, i)];
        ring[Cell(head, i)] := x;
        assert ring[..] == was[head := was[Cell(head, i)]][Cell(head, i) := was[head]];
      }
    }

    /** due: bring the next callback to the head, if there is one: the first one that is due,
        or, once terminated, the first one. */
    method Due(now: nat) returns (found: bool, ghost i: nat)
      requires Valid()
      modifies ring
      ensures found <==> count > 0 && (terminated || exists j :: 0 <= j < count && old(Contents())[j].due <= now)
      ensures found ==> i < count && (if terminated then i == 0 else old(Contents())[i].due <= now)
      ensures found ==> forall j :: 0 <= j < i ==> old(Contents())[j].due > now
      ensures found ==> Contents() == old(Contents())[0 := old(Contents())[i]][i := old(Contents())[0]]
      ensures !found ==> Contents() == old(Contents()) && i == count
      ensures i == Candidate(old(Contents()), now, terminated)
    {
      hide FirstDue;
      if count == 0 {
        return false, Candidate([], now, terminated);
      }
      if terminated {
        return true, 0;
      }
      var k: nat := 0;
      while k != count
        invariant k <= count && Contents() == old(Contents())
        invariant forall j :: 0 <= j < k ==> Contents()[j].due > now
        decreases count - k
      {
        if ring[Cell(head, k)].due <= now {
          assert Contents()[k].due <= now;
          FirstIs(Contents(), now, k);
          BringToHead(k);
          return true, k;
        }
        k := k + 1;
      }
      NoneIs(Contents(), now);
      return false, count;
    }

    /** earliest: when the next callback falls due. */
    method Earliest() returns (r: nat)
      requires Valid() && count != 0
      ensures forall i :: 0 <= i < count ==> r <= Contents()[i].due
      ensures exists i :: 0 <= i < count && Contents()[i].due == r
    {
      r := ring[head].due;
      var i: nat := 1;
      assert Contents()[0].due == r;
      while i != count
        invariant 1 <= i <= count
        invariant forall j :: 0 <= j < i ==> r <= Contents()[j].due
        invariant exists j :: 0 <= j < i && Contents()[j].due == r
        decreases count - i
      {
        var d := ring[Cell(head, i)].due;
        assert d == Contents()[i].due;
        if d < r {
          r := d;
        }
        i := i + 1;
      }
    }

    /** One pass of dispatch under the lock: take the first callback that is due out of the
        ring, or the first one once terminated, and whether it is to be told that it was
        canceled. The callback at the head takes its place. */
    method Take(now: nat) returns (taken: Option<Item>, cancel: bool, ghost i: nat)
      requires Valid()
      modifies this`head, this`count, ring
      ensures Valid()
      ensures taken.Some? <==>
        old(count) > 0 && (terminated || exists j :: 0 <= j < old(count) && old(Contents())[j].due <= now)
      ensures taken.Some? ==> i < old(count) && taken.value == old(Contents())[i] && cancel == canceled
      ensures taken.Some? ==> if terminated then i == 0 else
        taken.value.due <= now && forall j :: 0 <= j < i ==> old(Contents())[j].due > now
      ensures taken.Some? ==> Contents() == old(Contents())[i := old(Contents())[0]][1..]
      ensures taken == None ==> Contents() == old(Contents()) && i == old(count)
      ensures i == Candidate(old(Contents()), now, terminated)
    {
      hide Cell, View, FirstDue;
      taken, cancel := None, false;
      var found;
      ghost var k;
      found, k := Due(now);
      i := k;
      if found {
        ghost var was := Contents();
        HeadIs(ring[..], head, count);
        taken, cancel := Some(ring[head]), canceled;
        head := Cell(head, 1);
        count := count - 1;
        ViewPop(ring[..], old(head), old(count));
        assert Contents() == was[1..];
        HeadTaken(old(Contents()), i);
      }
    }

    method Terminate()
      requires Valid()
      modifies this`terminated, this`canceled
      ensures Valid() && terminated && canceled == (old(canceled) || mode != Manual) && Contents() == old(Contents())
    {
      terminated := true;
      if mode != Manual {
        canceled := true;
      }
    }

    /** stop: after the workers are gone, every callback left is taken, in ring order. */
    method Stop(now: nat) returns (drained: seq<Item>)
      requires Valid()
      modifies this`terminated, this`canceled, this`head, this`count, ring
      ensures Valid() && terminated && canceled && Contents() == []
      ensures drained == old(Contents())
    {
      terminated, canceled := true, true;
      drained := [];
      while count != 0
        invariant Valid() && terminated && canceled && drained + Contents() == old(Contents())
        decreases count
      {
        hide Cell, View, FirstDue;
        ghost var was, before := Contents(), drained;
        var taken, _, i := Take(now);
        drained := drained + [taken.value];
        FirstTaken(before, was);
      }
    }
  }

  lemma HeadTaken(was: seq<Item>, i: nat)
    requires i < |was|
    ensures was[0 := was[i]][i := was[0]][1..] == was[i := was[0]][1..] && was[0 := was[i]][i := was[0]][0] == was[i]
  {
  }

  lemma FirstTaken(before: seq<Item>, items: seq<Item>)
    requires items != []
    ensures before + [items[0]] + items[0 := items[0]][1..] == before + items
  {
  }

  lemma {:induction false} FirstIs(items: seq<Item>, t: nat, i: nat)
    requires i < |items| && items[i].due <= t && forall j :: 0 <= j < i ==> items[j].due > t
    ensures FirstDue(items, t) == i
  {
    var k := FirstDue(items, t);
    assert k <= i;
    assert i <= k;
  }

  lemma NoneIs(items: seq<Item>, t: nat)
    requires forall j :: 0 <= j < |items| ==> items[j].due > t
    ensures FirstDue(items, t) == |items|
  {
  }
}
