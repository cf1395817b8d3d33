/** Callers of the queue: the demonstration program of Queue.c and the
    first-in-first-out and capacity behaviour a fresh queue shows. Each
    allocates its own queue and reasons only from the specifications of
    `Queue.QueueType`. */
module QueueScenarios {
  import opened Queue

  /** The demonstration program: enqueue 10, 15 and 12, peek, dequeue once. */
  method MainScenario() returns (echoed: seq<int>, peeked: int, removed: int,
                                 front: int, rear: int, cleared: int, next: int)
    ensures echoed == [10, 15, 12]
    ensures peeked == 10 && removed == 10
    ensures front == 1 && rear == 3 && cleared == 0
    ensures next == 15
  {
    var q := new QueueType();
    var a := q.Enqueue(10);
    var b := q.Enqueue(15);
    var c := q.Enqueue(12);
    echoed := [a.value, b.value, c.value];
    assert q.front == 0 && q.rear == 3;
    var p := q.Peek();
    peeked := p.value;
    var d := q.Dequeue();
    removed := d.value;
    front, rear, cleared := q.front, q.rear, q.queue[0];
    next := q.Peek().value;
  }

  /** Fewer than MAX_QUEUE_SIZE enqueues into a fresh queue all succeed, and
      as many dequeues then return the same items in the same order. */
  method FillAndDrain(items: seq<int>) returns (drained: seq<int>)
    requires |items| < MAX_QUEUE_SIZE
    ensures drained == items
  {
    var q := new QueueType();
    var i := 0;
    while i < |items|
      invariant 0 <= i <= |items|
      invariant q.Valid() && q.front == 0 && q.rear == i
      invariant q.Items() == items[..i]
    {
      var r := q.Enqueue(items[i]);
      i := i + 1;
    }
    drained := [];
    while |drained| < |items|
      invariant q.Valid() && q.front == |drained| && q.rear == |items|
      invariant |drained| <= |items| && drained == items[..|drained|]
      invariant q.Items() == items[|drained|..]
    {
      var r := q.Dequeue();
      drained := drained + [r.value];
    }
  }

  /** A fresh queue accepts exactly MAX_QUEUE_SIZE - 1 enqueues; the next
      one fails with CapacityExceeded. */
  method FillUntilFull(item: int) returns (accepted: nat, last: Result<int>)
    ensures accepted == MAX_QUEUE_SIZE - 1
    ensures last == Err(CapacityExceeded)
  {
    var q := new QueueType();
    accepted := 0;
    last := q.Enqueue(item);
    while last.Ok?
      invariant q.Valid() && q.front == 0
      invariant last.Ok? ==> q.rear == accepted + 1 && accepted < MAX_QUEUE_SIZE - 1
      invariant last.Err? ==> q.rear == accepted == MAX_QUEUE_SIZE - 1 && last == Err(CapacityExceeded)
      decreases MAX_QUEUE_SIZE - accepted
    {
      accepted := accepted + 1;
      last := q.Enqueue(item);
    }
  }

  /** Dequeue as written never wraps `front`. After 99 enqueue/dequeue pairs
      and one more enqueue, a fresh queue is non-empty with `front` at the
      last slot. There `peek` would read slot `front + 1`, one past the end
      of the array, so the element stored at slot 0 can never be removed. */
  method FrontReachesEnd() returns (front: int, rear: int, empty: bool, stored: int)
    ensures front == MAX_QUEUE_SIZE - 1 && front + 1 == MAX_QUEUE_SIZE
    ensures rear == 0 && !empty && stored == 7
  {
    var q := new QueueType();
    var i := 0;
    while i < MAX_QUEUE_SIZE - 1
      invariant 0 <= i <= MAX_QUEUE_SIZE - 1
      invariant q.Valid() && q.front == i && q.rear == i
    {
      var e := q.Enqueue(i);
      var d := q.Dequeue();
      i := i + 1;
    }
    var e := q.Enqueue(7);
    front, rear, empty, stored := q.front, q.rear, q.IsEmpty(), q.queue[0];
  }

  /** `rear` wraps: 99 enqueues fill slots 1 to 99, one dequeue frees a
      place, and the next enqueue stores its item in slot 0 at the back. */
  method RearWraps() returns (rear: int, stored: int, echoed: Result<int>)
    ensures rear == 0 && stored == 42 && echoed == Ok(42)
  {
    var q := new QueueType();
    var i := 0;
    while i < MAX_QUEUE_SIZE - 1
      invariant 0 <= i <= MAX_QUEUE_SIZE - 1
      invariant q.Valid() && q.front == 0 && q.rear == i
    {
      var e := q.Enqueue(i);
      i := i + 1;
    }
    var d := q.Dequeue();
    echoed := q.Enqueue(42);
    rear, stored := q.rear, q.queue[q.rear];
  }

  /** With `front` wrapped as the ring layout intends, order is kept across
      the end of the array: once both indices stand at slot 98, enqueueing
      10, 15 and 12 (so `rear` wraps to 1) and dequeueing three times yields
      10, 15 and 12, and `front` wraps to 1 as well. */
  method CircularWrapAround() returns (drained: seq<int>, front: int, rear: int)
    ensures drained == [10, 15, 12]
    ensures front == 1 && rear == 1
  {
    var q := new QueueType();
    var i := 0;
    while i < MAX_QUEUE_SIZE - 2
      invariant 0 <= i <= MAX_QUEUE_SIZE - 2
      invariant q.Valid() && q.front == i && q.rear == i
    {
      var e := q.Enqueue(i);
      var d := q.DequeueCircular();
      i := i + 1;
    }
    var a := q.Enqueue(10);
    var b := q.Enqueue(15);
    var c := q.Enqueue(12);
    assert q.rear == 1 && q.Items() == [10, 15, 12];
    var x := q.DequeueCircular();
    var y := q.DequeueCircular();
    var z := q.DequeueCircular();
    drained := [x.value, y.value, z.value];
    front, rear := q.front, q.rear;
  }
}
