/** A fixed-capacity circular queue of integers, kept in an array of
    MAX_QUEUE_SIZE slots and two indices: `front` is the slot just before
    the oldest element, `rear` the slot of the newest one. One slot is always
    left unused, so the queue is empty exactly when `front == rear` and full
    exactly when `rear` is one step behind `front`.

    The module has two layers: pure functions and lemmas about the indices
    and the logical contents of a buffer, and the class `QueueType` that
    updates its array and indices in place and is specified by them. */
module Queue {

  const MAX_QUEUE_SIZE: int := 100

  /** The two fatal conditions of the queue, returned to the caller instead
      of ending the process. */
  datatype QueueError = CapacityExceeded | EmptyQueue

  datatype Result<T> = Ok(value: T) | Err(error: QueueError)

  predicate InRange(i: int) {
    0 <= i < MAX_QUEUE_SIZE
  }

  /** The index one step forward around the ring. */
  function Advance(i: int): (j: int)
    requires InRange(i)
    ensures InRange(j)
    ensures i + 1 < MAX_QUEUE_SIZE ==> j == i + 1
    ensures i + 1 == MAX_QUEUE_SIZE ==> j == 0
  {
    (i + 1) % MAX_QUEUE_SIZE
  }

  /** The number of live elements between `front` (exclusive) and `rear`
      (inclusive), walking forward around the ring. */
  function Size(front: int, rear: int): (n: nat)
    requires InRange(front) && InRange(rear)
    ensures n < MAX_QUEUE_SIZE
    ensures n == 0 <==> front == rear
    ensures (front + n) % MAX_QUEUE_SIZE == rear
  {
    if front <= rear then rear - front else rear + MAX_QUEUE_SIZE - front
  }

  /** The slot that holds the `k`-th live element (counting from 0). */
  function SlotOf(front: int, k: int): (i: int)
    requires InRange(front) && 0 <= k < MAX_QUEUE_SIZE - 1
    ensures InRange(i) && i != front
    ensures i == (front + 1 + k) % MAX_QUEUE_SIZE
  {
    if front + 1 + k < MAX_QUEUE_SIZE then front + 1 + k else front + 1 + k - MAX_QUEUE_SIZE
  }

  /** The logical contents of a buffer, oldest element first: the slots
      after `front` up to and including `rear`, walking forward mod
      MAX_QUEUE_SIZE. */
  function Contents(buf: seq<int>, front: int, rear: int): (s: seq<int>)
    requires |buf| == MAX_QUEUE_SIZE && InRange(front) && InRange(rear)
    ensures |s| == Size(front, rear) && |s| < MAX_QUEUE_SIZE
    ensures s == [] <==> front == rear
  {
    seq(Size(front, rear), k requires 0 <= k < Size(front, rear) => buf[SlotOf(front, k)])
  }

  /** The full test: `rear` one step behind `front` holds exactly when the
      queue holds MAX_QUEUE_SIZE - 1 elements, the most it can ever hold. */
  lemma FullIffSpareSlotOnly(front: int, rear: int)
    requires InRange(front) && InRange(rear)
    ensures front == Advance(rear) <==> Size(front, rear) == MAX_QUEUE_SIZE - 1
  {
  }

  /** Storing `item` in the slot after `rear` and advancing `rear` appends
      `item` at the back of the contents, provided the queue is not full. */
  lemma EnqueueAppends(buf: seq<int>, front: int, rear: int, item: int)
    requires |buf| == MAX_QUEUE_SIZE && InRange(front) && InRange(rear)
    requires front != Advance(rear)
    ensures Contents(buf[Advance(rear) := item], front, Advance(rear))
         == Contents(buf, front, rear) + [item]
  {
  }

  /** Clearing slot `front` and stepping `front` forward by one (without
      wrapping) drops the head of the contents, provided the queue is not
      empty and `front + 1` is still a slot of the buffer. */
  lemma DequeueDropsHead(buf: seq<int>, front: int, rear: int)
    requires |buf| == MAX_QUEUE_SIZE && InRange(front) && InRange(rear)
    requires front != rear && front + 1 < MAX_QUEUE_SIZE
    ensures Contents(buf, front, rear)[0] == buf[front + 1]
    ensures Contents(buf[front := 0], front + 1, rear) == Contents(buf, front, rear)[1..]
  {
  }

  /** With `front` wrapped as `rear` is: stepping `front` forward mod
      MAX_QUEUE_SIZE and clearing the slot it lands on drops the head of the
      contents of any non-empty queue, whatever the value of `front`. */
  lemma CircularDequeueDropsHead(buf: seq<int>, front: int, rear: int)
    requires |buf| == MAX_QUEUE_SIZE && InRange(front) && InRange(rear)
    requires front != rear
    ensures Contents(buf, front, rear)[0] == buf[Advance(front)]
    ensures Contents(buf[Advance(front) := 0], Advance(front), rear) == Contents(buf, front, rear)[1..]
  {
  }

  /** The queue of Queue.c: an inline array of MAX_QUEUE_SIZE elements and
      the two indices. The array is never replaced, only its slots are
      written. */
  class QueueType {
    const queue: array<int>
    var front: int
    var rear: int

    ghost predicate Valid()
      reads this
    {
      queue.Length == MAX_QUEUE_SIZE && InRange(front) && InRange(rear)
    }

    /** The elements in the queue, oldest first. */
    ghost function Items(): seq<int>
      reads this, queue
      requires Valid()
    {
      Contents(queue[..], front, rear)
    }

    /** Declares a queue and initialises it: both indices at slot 0. */
    constructor ()
      ensures Valid() && fresh(queue)
      ensures front == 0 && rear == 0 && Items() == []
    {
      queue := new int[MAX_QUEUE_SIZE];
      front, rear := 0, 0;
    }

    /** Resets the queue to empty; the slots keep whatever they held. */
    method Init()
      requires queue.Length == MAX_QUEUE_SIZE
      modifies this
      ensures Valid() && front == 0 && rear == 0 && Items() == []
      ensures unchanged(queue)
    {
      front, rear := 0, 0;
    }

    predicate IsEmpty()
      reads this, queue
      requires Valid()
      ensures IsEmpty() <==> Items() == []
    {
      front == rear
    }

    predicate IsFull()
      reads this, queue
      requires Valid()
      ensures IsFull() <==> |Items()| == MAX_QUEUE_SIZE - 1
    {
      FullIffSpareSlotOnly(front, rear);
      front == Advance(rear)
    }

    /** Appends `item` and echoes it back; on a full queue fails with
        CapacityExceeded and changes nothing. */
    method Enqueue(item: int) returns (r: Result<int>)
      requires Valid()
      modifies this, queue
      ensures Valid() && front == old(front)
      ensures old(IsFull()) ==> r == Err(CapacityExceeded) && rear == old(rear) && queue[..] == old(queue[..])
      ensures !old(IsFull()) ==> r == Ok(item) && rear == Advance(old(rear))
                                 && queue[..] == old(queue[..])[rear := item]
      ensures Items() == if r.Ok? then old(Items()) + [item] else old(Items())
    {
      if IsFull() {
        return Err(CapacityExceeded);
      }
      EnqueueAppends(queue[..], front, rear, item);
      rear := Advance(rear);
      queue[rear] := item;
      r := Ok(item);
    }

    /** The oldest element, read from slot `front + 1` (no wrap-around);
        on an empty queue fails with EmptyQueue. */
    function Peek(): (r: Result<int>)
      reads this, queue
      requires Valid() && (front + 1 < MAX_QUEUE_SIZE || IsEmpty())
      ensures r.Err? <==> IsEmpty()
      ensures r.Err? ==> r.error == EmptyQueue
      ensures r.Ok? ==> r.value == Items()[0] && r.value == queue[front + 1]
    {
      if IsEmpty() then Err(EmptyQueue)
      else
        DequeueDropsHead(queue[..], front, rear);
        Ok(queue[front + 1])
    }

    /** Removes and returns the oldest element: clears slot `front` and
        steps `front` forward by one (no wrap-around). The removed value
        stays in the slot `front` now points at. On an empty queue fails
        with EmptyQueue and changes nothing. */
    method Dequeue() returns (r: Result<int>)
      requires Valid() && (front + 1 < MAX_QUEUE_SIZE || IsEmpty())
      modifies this, queue
      ensures Valid() && rear == old(rear)
      ensures r == old(Peek())
      ensures r.Err? ==> front == old(front) && queue[..] == old(queue[..])
      ensures r.Ok? ==> front == old(front) + 1 && queue[..] == old(queue[..])[old(front) := 0]
      ensures r.Ok? ==> r.value == old(Items())[0] && Items() == old(Items())[1..]
      ensures r.Ok? ==> queue[front] == r.value
    {
      r := Peek();
      if r.Err? {
        return;
      }
      DequeueDropsHead(queue[..], front, rear);
      queue[front] := 0;
      front := front + 1;
    }

    /** The oldest element read from slot `(front + 1) % MAX_QUEUE_SIZE`, as
        the ring layout intends; it agrees with `Peek` wherever `Peek` is
        defined and is defined in every state. */
    function PeekCircular(): (r: Result<int>)
      reads this, queue
      requires Valid()
      ensures r.Err? <==> IsEmpty()
      ensures r.Err? ==> r.error == EmptyQueue
      ensures r.Ok? ==> r.value == Items()[0] && r.value == queue[Advance(front)]
      ensures front + 1 < MAX_QUEUE_SIZE ==> r == Peek()
    {
      if IsEmpty() then Err(EmptyQueue)
      else
        CircularDequeueDropsHead(queue[..], front, rear);
        Ok(queue[Advance(front)])
    }

    /** Dequeue with `front` wrapped like `rear`: steps `front` forward mod
        MAX_QUEUE_SIZE, then clears the slot it now points at, which held
        the element being removed. On an empty queue fails with EmptyQueue
        and changes nothing. */
    method DequeueCircular() returns (r: Result<int>)
      requires Valid()
      modifies this, queue
      ensures Valid() && rear == old(rear)
      ensures r == old(PeekCircular())
      ensures r.Err? ==> front == old(front) && queue[..] == old(queue[..])
      ensures r.Ok? ==> front == Advance(old(front)) && queue[..] == old(queue[..])[front := 0]
      ensures r.Ok? ==> r.value == old(Items())[0] && Items() == old(Items())[1..]
    {
      r := PeekCircular();
      if r.Err? {
        return;
      }
      CircularDequeueDropsHead(queue[..], front, rear);
      front := Advance(front);
      queue[front] := 0;
    }
  }
}
