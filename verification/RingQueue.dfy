/** The bounded ring buffer behind all three stages of the shop, and the bounded
    first-in first-out sequence that it refines. */
module RingQueue {

  datatype Pide = Pide(id: int, locX: int, locY: int, modTime: int)

  /** What a dequeue from an empty queue returns. */
  const ZERO_PIDE := Pide(0, 0, 0, 0)

  // ------------------------------------------------------------ the abstract queue

  datatype Op = Enqueue(item: Pide) | Dequeue

  /** The contents after an operation: an enqueue on a full queue drops the item,
      a dequeue from an empty queue changes nothing. */
  function After(capacity: nat, q: seq<Pide>, op: Op): seq<Pide> {
    match op
    case Enqueue(item) => if |q| == capacity then q else q + [item]
    case Dequeue => if q == [] then q else q[1..]
  }

  function AfterAll(capacity: nat, q: seq<Pide>, ops: seq<Op>): seq<Pide> {
    if |ops| == 0 then q else After(capacity, AfterAll(capacity, q, ops[..|ops| - 1]), ops[|ops| - 1])
  }

  /** The items that were not dropped, in the order they came. */
  function Accepted(capacity: nat, q: seq<Pide>, ops: seq<Op>): seq<Pide> {
    if |ops| == 0 then []
    else
      var before := AfterAll(capacity, q, ops[..|ops| - 1]);
      var last := ops[|ops| - 1];
      Accepted(capacity, q, ops[..|ops| - 1])
      + if last.Enqueue? && |before| != capacity then [last.item] else []
  }

  /** What the dequeues returned, phantoms of the empty queue included. */
  function Returned(capacity: nat, q: seq<Pide>, ops: seq<Op>): seq<Pide> {
    if |ops| == 0 then []
    else
      var before := AfterAll(capacity, q, ops[..|ops| - 1]);
      Returned(capacity, q, ops[..|ops| - 1])
      + if ops[|ops| - 1].Enqueue? then [] else if before == [] then [ZERO_PIDE] else [before[0]]
  }

  /** What the dequeues took out. */
  function Taken(capacity: nat, q: seq<Pide>, ops: seq<Op>): seq<Pide> {
    if |ops| == 0 then []
    else
      var before := AfterAll(capacity, q, ops[..|ops| - 1]);
      Taken(capacity, q, ops[..|ops| - 1])
      + if ops[|ops| - 1].Enqueue? || before == [] then [] else [before[0]]
  }

  /** Nothing is lost, duplicated or reordered by any sequence of operations:
      what was taken out, followed by what is still queued, is what was queued at
      first followed by what was accepted.  The bound is kept, and a dequeue
      returns something else than it takes out only from an empty queue. */
  lemma FirstInFirstOut(capacity: nat, q: seq<Pide>, ops: seq<Op>)
    requires |q| <= capacity
    ensures |AfterAll(capacity, q, ops)| <= capacity
    ensures Taken(capacity, q, ops) + AfterAll(capacity, q, ops) == q + Accepted(capacity, q, ops)
    ensures |Taken(capacity, q, ops)| <= |Returned(capacity, q, ops)|
    ensures |Taken(capacity, q, ops)| == |Returned(capacity, q, ops)|
            ==> Taken(capacity, q, ops) == Returned(capacity, q, ops)
  {
    Balance(capacity, q, ops);
    ReturnedTaken(capacity, q, ops);
  }

  lemma {:induction false} Balance(capacity: nat, q: seq<Pide>, ops: seq<Op>)
    requires |q| <= capacity
    ensures |AfterAll(capacity, q, ops)| <= capacity
    ensures Taken(capacity, q, ops) + AfterAll(capacity, q, ops) == q + Accepted(capacity, q, ops)
  {
    if |ops| > 0 {
      var init, last := ops[..|ops| - 1], ops[|ops| - 1];
      Balance(capacity, q, init);
      var before, taken, accepted := AfterAll(capacity, q, init), Taken(capacity, q, init), Accepted(capacity, q, init);
      if last.Dequeue? && before != [] {
        assert Taken(capacity, q, ops) == taken + [before[0]] && AfterAll(capacity, q, ops) == before[1..];
        assert Accepted(capacity, q, ops) == accepted + [] == accepted;
        assert taken + [before[0]] + before[1..] == taken + before;
      } else if last.Enqueue? && |before| != capacity {
        assert Taken(capacity, q, ops) == taken + [] == taken && AfterAll(capacity, q, ops) == before + [last.item];
        assert Accepted(capacity, q, ops) == accepted + [last.item];
        assert taken + (before + [last.item]) == (taken + before) + [last.item];
        assert q + (accepted + [last.item]) == (q + accepted) + [last.item];
      } else {
        assert Taken(capacity, q, ops) == taken + [] == taken && Accepted(capacity, q, ops) == accepted + [] == accepted;
        assert AfterAll(capacity, q, ops) == before;
      }
    }
  }

  lemma {:induction false} ReturnedTaken(capacity: nat, q: seq<Pide>, ops: seq<Op>)
    ensures |Taken(capacity, q, ops)| <= |Returned(capacity, q, ops)|
    ensures |Taken(capacity, q, ops)| == |Returned(capacity, q, ops)|
            ==> Taken(capacity, q, ops) == Returned(capacity, q, ops)
  {
    if |ops| > 0 {
      ReturnedTaken(capacity, q, ops[..|ops| - 1]);
    }
  }

  function Enqueues(items: seq<Pide>): (r: seq<Op>)
    ensures |r| == |items|
  {
    seq(|items|, i requires 0 <= i < |items| => Enqueue(items[i]))
  }

  lemma {:induction false} Fill(capacity: nat, items: seq<Pide>)
    ensures AfterAll(capacity, [], Enqueues(items)) == if |items| <= capacity then items else items[..capacity]
    ensures Returned(capacity, [], Enqueues(items)) == []
  {
    if |items| > 0 {
      var init, last := items[..|items| - 1], items[|items| - 1];
      Fill(capacity, init);
      assert Enqueues(items)[..|items| - 1] == Enqueues(init);
      assert |items| <= capacity ==> init + [last] == items;
      assert |items| > capacity ==> init[..capacity] == items[..capacity];
    }
  }

  function Dequeues(n: nat): (r: seq<Op>)
    ensures |r| == n
  {
    seq(n, _ => Dequeue)
  }

  /** What `n` dequeues return. */
  function Output(q: seq<Pide>, n: nat): (r: seq<Pide>)
    ensures |r| == n
  {
    seq(n, k => if 0 <= k < |q| then q[k] else Pide(0, 0, 0, 0))
  }

  lemma {:induction false} Drain(capacity: nat, q: seq<Pide>, fill: seq<Op>, n: nat)
    requires AfterAll(capacity, [], fill) == q && Returned(capacity, [], fill) == []
    ensures AfterAll(capacity, [], fill + Dequeues(n)) == if n <= |q| then q[n..] else []
    ensures Returned(capacity, [], fill + Dequeues(n)) == Output(q, n)
  {
    var ops := fill + Dequeues(n);
    if n == 0 {
      assert ops == fill;
    } else {
      Drain(capacity, q, fill, n - 1);
      assert ops[..|ops| - 1] == fill + Dequeues(n - 1) && ops[|ops| - 1] == Dequeue;
      DrainOne(q, n);
    }
  }

  lemma DrainOne(q: seq<Pide>, n: nat)
    requires n > 0
    ensures Output(q, n) == Output(q, n - 1) + [if n - 1 < |q| then q[n - 1..][0] else ZERO_PIDE]
  {
  }

  /** What is put into an empty queue comes out in the same order: the first `capacity`
      items, and all-zero items from then on. */
  lemma FillThenDrain(capacity: nat, items: seq<Pide>, n: nat)
    ensures var out := Returned(capacity, [], Enqueues(items) + Dequeues(n));
            && |out| == n
            && forall k :: 0 <= k < n ==> out[k] == if k < |items| && k < capacity then items[k] else Pide(0, 0, 0, 0)
  {
    Fill(capacity, items);
    Drain(capacity, if |items| <= capacity then items else items[..capacity], Enqueues(items), n);
  }

  // ------------------------------------------------------------ the ring buffer

  /** The slot `k` places after `front` in a ring of the given capacity. */
  function Slot(front: nat, k: nat, capacity: nat): nat {
    if front + k < capacity then front + k else if front + k < 2 * capacity then front + k - capacity else 0
  }

  /** The `size` items of the ring that start at `front`. */
  function Window(ring: seq<Pide>, front: nat, size: nat): (s: seq<Pide>)
    requires front < |ring| && size <= |ring|
    ensures |s| == size
  {
    seq(size, k requires 0 <= k < size => ring[Slot(front, k, |ring|)])
  }

  lemma Wraps(x: nat, capacity: nat)
    requires 0 < capacity && x <= capacity
    ensures x % capacity == if x == capacity then 0 else x
  {
  }

  /** `data`, `front`, `rear`, `size` and `capacity` are the fields of the C
      structure; `capacity` never changes. */
  class Queue {
    const data: array<Pide>
    const capacity: nat
    var front: nat
    var rear: nat
    var size: nat

    /** `rear` is `front + size - 1` around the ring. */
    ghost predicate Valid()
      reads this
    {
      && data.Length == capacity && 0 < capacity
      && front < capacity && rear < capacity && size <= capacity
      && (if rear + 1 == capacity then 0 else rear + 1) == Slot(front, size, capacity)
    }

    /** The queued items, oldest first. */
    ghost function Contents(): (s: seq<Pide>)
      reads this, data
      requires Valid()
      ensures |s| == size
    {
      Window(data[..], front, size)
    }

    constructor (capacity: nat)
      requires 0 < capacity
      ensures Valid() && fresh(data)
      ensures this.capacity == capacity && Contents() == []
    {
      this.capacity := capacity;
      front, size := 0, 0;
      rear := capacity - 1;
      data := new Pide[capacity](_ => ZERO_PIDE);
    }

    method IsEmpty() returns (r: bool)
      requires Valid()
      ensures r <==> |Contents()| == 0
    {
      r := size == 0;
    }

    method IsFull() returns (r: bool)
      requires Valid()
      ensures r <==> |Contents()| == capacity
    {
      r := size == capacity;
    }

    method Enqueue(item: Pide)
      requires Valid()
      modifies this, data
      ensures Valid()
      ensures Contents() == After(capacity, old(Contents()), Op.Enqueue(item))
    {
      var full := IsFull();
      if full {
        return;
      }
      Wraps(rear + 1, capacity);
      rear := (rear + 1) % capacity;
      data[rear] := item;
      size := size + 1;
      assert Contents()[..size - 1] == old(Contents());
    }

    method Dequeue() returns (item: Pide)
      requires Valid()
      modifies this
      ensures Valid()
      ensures Contents() == After(capacity, old(Contents()), Op.Dequeue)
      ensures item == if |old(Contents())| == 0 then ZERO_PIDE else old(Contents())[0]
    {
      var empty := IsEmpty();
      if empty {
        return ZERO_PIDE;
      }
      item := data[front];
      assert item == Contents()[0];
      Wraps(front + 1, capacity);
      front := (front + 1) % capacity;
      size := size - 1;
      assert Contents() == old(Contents())[1..];
    }

    /** The oldest item, without removing it. */
    method Front() returns (item: Pide)
      requires Valid()
      ensures item == if |Contents()| == 0 then ZERO_PIDE else Contents()[0]
    {
      var empty := IsEmpty();
      if empty {
        return ZERO_PIDE;
      }
      item := data[front];
      assert item == Contents()[0];
    }

    /** The newest item, without removing it. */
    method Rear() returns (item: Pide)
      requires Valid()
      ensures item == if |Contents()| == 0 then ZERO_PIDE else Contents()[|Contents()| - 1]
    {
      var empty := IsEmpty();
      if empty {
        return ZERO_PIDE;
      }
      item := data[rear];
      assert item == Contents()[size - 1];
    }
  }

  /** Any sequence of operations on a ring does what it does on the sequence. */
  method Perform(q: Queue, ops: seq<Op>) returns (results: seq<Pide>)
    requires q.Valid()
    modifies q, q.data
    ensures q.Valid()
    ensures q.Contents() == AfterAll(q.capacity, old(q.Contents()), ops)
    ensures results == Returned(q.capacity, old(q.Contents()), ops)
  {
    results := [];
    assert ops[..0] == [];
    for i := 0 to |ops|
      invariant q.Valid()
      invariant q.Contents() == AfterAll(q.capacity, old(q.Contents()), ops[..i])
      invariant results == Returned(q.capacity, old(q.Contents()), ops[..i])
    {
      assert ops[..i + 1][..i] == ops[..i];
      match ops[i] {
        case Enqueue(item) => q.Enqueue(item);
        case Dequeue =>
          var item := q.Dequeue();
          results := results + [item];
      }
    }
    assert ops[..|ops|] == ops;
  }
}
