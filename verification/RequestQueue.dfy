/** The circular request queue of PROJ2/src/queue.c as a value: indices and array. */
module Rings {

  datatype Ring<T> = Ring(cells: seq<T>, front: int, rear: int, size: int)

  /** One step of index wrap-around in either direction. */
  function Wrap(x: int, capacity: int): int {
    if x < 0 then x + capacity else if x >= capacity then x - capacity else x
  }

  predicate Valid<T>(r: Ring<T>) {
    var capacity := |r.cells|;
    && 0 <= r.front < capacity
    && 0 <= r.size <= capacity
    && r.rear == Wrap(r.front + r.size - 1, capacity)
  }

  /** The queued items, oldest first. */
  function Contents<T>(r: Ring<T>): (s: seq<T>)
    requires Valid(r)
    ensures |s| == r.size
    ensures forall k :: 0 <= k < |s| ==> s[k] == r.cells[Wrap(r.front + k, |r.cells|)]
  {
    seq(r.size, k requires 0 <= k < r.size => r.cells[Wrap(r.front + k, |r.cells|)])
  }

  /** The write of `queue_push` once there is room. */
  function Enqueue<T>(r: Ring<T>, item: T): Ring<T>
    requires Valid(r) && r.size != |r.cells|
  {
    var rear := if r.rear + 1 == |r.cells| then 0 else r.rear + 1;
    Ring(r.cells[rear := item], r.front, rear, r.size + 1)
  }

  /** The index updates of `queue_pop`. */
  function Dequeue<T>(r: Ring<T>): Ring<T>
    requires Valid(r) && r.size > 0
  {
    r.(front := if r.front + 1 == |r.cells| then 0 else r.front + 1, size := r.size - 1)
  }

  /** `queue_resize`: twice the capacity, contents copied to the start. The cells that
      `malloc` leaves uninitialised hold a copy of the first one. */
  function Grow<T>(r: Ring<T>): Ring<T>
    requires Valid(r)
  {
    var items := Contents(r);
    Ring(items + seq(2 * |r.cells| - r.size, k => r.cells[0]), 0,
         Wrap(r.size - 1, 2 * |r.cells|), r.size)
  }

  function Push<T>(r: Ring<T>, item: T): Ring<T>
    requires Valid(r)
  {
    if r.size == |r.cells| then
      GrowKeepsContents(r);
      Enqueue(Grow(r), item)
    else
      Enqueue(r, item)
  }

  lemma FarMultiples(q: int, c: int)
    requires c > 0
    ensures q <= -2 ==> q * c <= -2 * c
    ensures q >= 2 ==> q * c >= 2 * c
  {
  }

  lemma WrapIsModulo(x: int, c: int)
    requires c > 0 && -c <= x < 2 * c
    ensures Wrap(x, c) == x % c
  {
    assert x == x / c * c + x % c;
    FarMultiples(x / c, c);
  }

  lemma RearIsModular<T>(r: Ring<T>)
    requires Valid(r)
    ensures r.rear == (r.front + r.size - 1) % |r.cells|
  {
    WrapIsModulo(r.front + r.size - 1, |r.cells|);
  }

  lemma EnqueueAppends<T>(r: Ring<T>, item: T)
    requires Valid(r) && r.size != |r.cells|
    ensures Valid(Enqueue(r, item))
    ensures Contents(Enqueue(r, item)) == Contents(r) + [item]
  {
    var r' := Enqueue(r, item);
    forall k | 0 <= k < r.size
      ensures Contents(r')[k] == Contents(r)[k]
    {
      assert Wrap(r.front + k, |r.cells|) != r'.rear;
    }
  }

  lemma DequeueRemovesHead<T>(r: Ring<T>)
    requires Valid(r) && r.size > 0
    ensures Valid(Dequeue(r))
    ensures Contents(r) == [r.cells[r.front]] + Contents(Dequeue(r))
  {
    var r' := Dequeue(r);
    forall k | 0 <= k < r'.size
      ensures Contents(r')[k] == Contents(r)[k + 1]
    {
      assert Wrap(r'.front + k, |r.cells|) == Wrap(r.front + (k + 1), |r.cells|);
    }
  }

  lemma GrowKeepsContents<T>(r: Ring<T>)
    requires Valid(r)
    ensures Valid(Grow(r)) && |Grow(r).cells| == 2 * |r.cells|
    ensures Contents(Grow(r)) == Contents(r)
  {
  }

  lemma PushAppends<T>(r: Ring<T>, item: T)
    requires Valid(r)
    ensures Valid(Push(r, item))
    ensures Contents(Push(r, item)) == Contents(r) + [item]
    ensures |Push(r, item).cells| == if r.size == |r.cells| then 2 * |r.cells| else |r.cells|
  {
    if r.size == |r.cells| {
      GrowKeepsContents(r);
      EnqueueAppends(Grow(r), item);
    } else {
      EnqueueAppends(r, item);
    }
  }
}

/** Histories of queue operations. */
module QueueHistories {
  import opened Rings

  datatype Op<T> = PushOp(item: T) | PopOp

  /** No pop finds the queue empty. */
  predicate Sound<T>(s: seq<T>, ops: seq<Op<T>>)
    decreases |ops|
  {
    ops == [] ||
    match ops[0]
    case PushOp(item) => Sound(s + [item], ops[1..])
    case PopOp => s != [] && Sound(s[1..], ops[1..])
  }

  function OnSeq<T>(s: seq<T>, ops: seq<Op<T>>): seq<T>
    requires Sound(s, ops)
    decreases |ops|
  {
    if ops == [] then s
    else match ops[0]
      case PushOp(item) => OnSeq(s + [item], ops[1..])
      case PopOp => OnSeq(s[1..], ops[1..])
  }

  function StepRing<T>(r: Ring<T>, op: Op<T>): Ring<T>
    requires Valid(r) && (op.PopOp? ==> r.size > 0)
  {
    match op
    case PushOp(item) => Push(r, item)
    case PopOp => Dequeue(r)
  }

  /** The ring after a history, if it never had to pop when empty. */
  ghost predicate RunsTo<T>(r: Ring<T>, ops: seq<Op<T>>, r': Ring<T>)
    decreases |ops|
  {
    Valid(r) &&
    if ops == [] then r' == r
    else (ops[0].PopOp? ==> r.size > 0) && RunsTo(StepRing(r, ops[0]), ops[1..], r')
  }

  /** Over any history of pushes and pops, with wrap-around and growth, the ring behaves
      as the sequence of its items. */
  lemma {:induction false} RefinesSequence<T>(r: Ring<T>, ops: seq<Op<T>>) returns (r': Ring<T>)
    requires Valid(r) && Sound(Contents(r), ops)
    ensures RunsTo(r, ops, r') && Valid(r') && Contents(r') == OnSeq(Contents(r), ops)
    ensures r'.rear == (r'.front + r'.size - 1) % |r'.cells|
    decreases |ops|
  {
    if ops == [] {
      r' := r;
      RearIsModular(r);
    } else {
      var next := StepRing(r, ops[0]);
      match ops[0] {
        case PushOp(item) =>
          PushAppends(r, item);
        case PopOp =>
          DequeueRemovesHead(r);
          assert Contents(next) == Contents(r)[1..];
      }
      r' := RefinesSequence(next, ops[1..]);
    }
  }
}

/** The same queue as the source has it: an object updated in place. */
module RequestQueues {
  import opened Rings

  lemma Reassociate<T>(moved: seq<T>, item: T, left: seq<T>)
    ensures (moved + [item]) + left == moved + ([item] + left)
  {
  }

  class RequestQueue<T(0)> {
    var front: int
    var rear: int
    var capacity: int
    var size: int
    var cells: array<T>

    ghost function AsRing(): Ring<T>
      reads this, cells
    {
      Ring(cells[..], front, rear, size)
    }

    ghost predicate Consistent()
      reads this, cells
    {
      capacity == cells.Length && Rings.Valid(AsRing())
    }

    ghost function Items(): (s: seq<T>)
      requires Consistent()
      reads this, cells
    {
      Contents(AsRing())
    }

    /** `queue_create`. A queue of capacity 0 can be created too, but it is both full and
        empty and its indices name no cell: the other operations do not apply to it. */
    constructor (capacity: nat)
      ensures fresh(cells) && cells.Length == capacity && this.capacity == capacity
      ensures front == 0 && rear == capacity - 1 && size == 0
      ensures Consistent() <==> capacity > 0
      ensures capacity > 0 ==> Items() == []
    {
      this.capacity := capacity;
      front, size := 0, 0;
      rear := capacity - 1;
      cells := new T[capacity];
    }

    method Full() returns (full: bool)
      requires Consistent()
      ensures full <==> |Items()| == capacity
    {
      full := size == capacity;
    }

    method Empty() returns (empty: bool)
      requires Consistent()
      ensures empty <==> Items() == []
    {
      empty := size == 0;
    }

    method Front() returns (item: T)
      requires Consistent() && Items() != []
      ensures item == Items()[0]
    {
      item := cells[front];
    }

    /** `queue_pop`: the caller must know that the queue is not empty. */
    method Pop() returns (item: T)
      requires Consistent() && Items() != []
      modifies this`size, this`front
      ensures Consistent() && cells == old(cells) && capacity == old(capacity)
      ensures AsRing() == Dequeue(old(AsRing()))
      ensures old(Items()) == [item] + Items()
    {
      DequeueRemovesHead(AsRing());
      item := cells[front];
      size := size - 1;
      front := front + 1;
      if front == capacity {
        front := 0;
      }
    }

    /** `queue_push`: grows a full queue first. The recursion through `Resize` stops
        because the queue pushed to there has room. */
    method Push(item: T)
      requires Consistent()
      modifies this, cells
      ensures Consistent() && Items() == old(Items()) + [item]
      ensures old(size != capacity) ==> cells == old(cells) && AsRing() == Enqueue(old(AsRing()), item)
      ensures old(size == capacity) ==> fresh(cells)
      ensures capacity == if old(size == capacity) then 2 * old(capacity) else old(capacity)
      decreases if size == capacity then 2 else 0
    {
      var full := Full();
      if full {
        Resize();
      }
      EnqueueAppends(AsRing(), item);
      size := size + 1;
      rear := rear + 1;
      if rear == capacity {
        rear := 0;
      }
      cells[rear] := item;
    }

    /** `queue_resize`: drains this queue into one of twice the capacity, then takes
        over its fields. */
    method Resize()
      requires Consistent()
      modifies this
      ensures Consistent() && fresh(cells) && Items() == old(Items())
      ensures capacity == 2 * old(capacity) && size == old(size)
      ensures front == 0 && rear == Wrap(size - 1, capacity)
      decreases 1
    {
      var newQueue := new RequestQueue<T>(capacity * 2);
      ghost var all := Items();
      while size > 0
        invariant Consistent() && cells == old(cells) && capacity == old(capacity)
        invariant newQueue.Consistent() && fresh(newQueue) && fresh(newQueue.cells)
        invariant newQueue.capacity == 2 * capacity && newQueue.front == 0
        invariant newQueue.Items() + Items() == all
        decreases size
      {
        ghost var moved := newQueue.Items();
        var item := Pop();
        ghost var left := Items();
        newQueue.Push(item);
        assert Items() == left;
        Reassociate(moved, item, left);
      }
      front, rear, capacity, size, cells :=
        newQueue.front, newQueue.rear, newQueue.capacity, newQueue.size, newQueue.cells;
    }
  }
}
