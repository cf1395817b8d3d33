# Circular queue of integers

A model of `Queue.c`, a fixed-capacity circular queue of `int`. It is a struct
with an inline array of `MAX_QUEUE_SIZE` (100) slots and two indices. `front`
is the slot just before the oldest element. `rear` is the slot of the newest
element. One slot is always left unused. So the queue is empty when
`front == rear` and full when `front == (rear + 1) % 100`, which means it holds
at most 99 elements.

The project has two modules:

- `Queue` (`queue.dfy`) holds the pure layer and the class.
  - Pure layer: `Size` and `Contents` give the logical contents of a buffer
    for given indices. The lemmas say what enqueueing and dequeueing do to
    those contents.
  - `QueueType` is a class with a `const queue: array<int>` of length 100 and
    the fields `front` and `rear`. Its methods update these in place, as the C
    functions do through the struct pointer. Their contracts give the whole new
    state and the effect on the contents, `Items()`.
- `QueueScenarios` (`scenarios.dfy`) holds callers that allocate a queue and
  reason only from the contracts. They cover the demonstration program,
  first-in-first-out order, the capacity of 99 elements, wrap-around of
  `rear`, the state where `front` cannot advance, and order across the end of
  the array with the corrected dequeue.

The fatal error path is `error`, which prints a message and calls `exit(1)`.
The model turns it into a `Result` that the caller sees. Enqueue on a full
queue gives `Err(CapacityExceeded)`. Peek or dequeue on an empty queue gives
`Err(EmptyQueue)`. In the source, `exit` runs before any slot or index is
written, so on an error every field and slot is unchanged.

`peek` reads `queue[front + 1]` and `dequeue` does `front++`. Neither one
wraps the index, while `enqueue` wraps `rear` with `% MAX_QUEUE_SIZE`. The
model keeps the code as written. So `Peek` and `Dequeue` require
`front + 1 < MAX_QUEUE_SIZE || front == rear`. On an empty queue the error
path runs before the read, so that case needs nothing more. On a non-empty
queue with `front == 99`, the source reads slot 100, past the end of the
array. The precondition excludes that state. Under this precondition `front`
never leaves `[0, 99]`. `FrontReachesEnd` proves that a fresh queue can reach
that state. `PeekCircular` and `DequeueCircular` are corrected versions that
wrap `front` as the layout intends. They are proved for every state (see
"## Findings").

The doc comment at Queue.c:55 and Queue.c:68 says that dequeue first steps
`front` forward and then clears the slot it lands on. The code at Queue.c:133
(`queue[front++] = 0`) clears the old `front` slot instead. So the removed
value stays in the slot that `front` now points at. `Dequeue` follows the
code and states this (`queue[front] == r.value`). That slot is outside the
contents, so `Items()` and `Peek` cannot observe the difference.
`DequeueCircular` clears the slot as the comment describes.

## Model

| member | source | states |
|---|---|---|
| `Queue.Advance` | Queue.c:112 | the next ring index is `i + 1` below the capacity and wraps to 0 at the end |
| `Queue.Size` | Queue.c:52-59 | the number of live elements is below the capacity, is 0 exactly when `front == rear`, and `rear` is that many steps ahead of `front` mod 100 |
| `Queue.Contents` | Queue.c:52-59 | the logical contents (slots `front+1` through `rear`, walking forward mod 100) have `Size` elements and are empty exactly when `front == rear` |
| `Queue.FullIffSpareSlotOnly` | Queue.c:103-106 | the full test `front == (rear + 1) % 100` holds exactly when 99 elements are held, so one slot always stays unused |
| `Queue.EnqueueAppends` | Queue.c:112-113 | on a non-full queue, advancing `rear` and storing `item` there appends `item` at the back of the contents |
| `Queue.CircularDequeueDropsHead` | Queue.c:55-68 | with `front` wrapped mod 100, the head of any non-empty queue is at slot `(front + 1) % 100`, and stepping `front` there and clearing that slot drops exactly the head |
| `Queue.DequeueDropsHead` | Queue.c:125-133 | on a non-empty queue with `front + 1 < 100`, the head is `queue[front + 1]`, and clearing slot `front` then stepping `front` by one drops exactly the head |
| `Queue.QueueType.constructor` | Queue.c:152-154 | a declared and initialised queue has `front == rear == 0` and no elements |
| `Queue.QueueType.Init` | Queue.c:90-92 | `init` sets both indices to 0, which empties the queue, and leaves the array untouched |
| `Queue.QueueType.IsEmpty` | Queue.c:99-101 | `is_empty` holds exactly when the queue has no elements |
| `Queue.QueueType.IsFull` | Queue.c:103-106 | `is_full` holds exactly when the queue holds 99 elements |
| `Queue.QueueType.Enqueue` | Queue.c:108-117 | when full: fails with CapacityExceeded and changes nothing. Otherwise: `rear` becomes `(rear + 1) % 100`, only that slot is written (with `item`), `front` is kept, `item` is returned, and the contents gain `item` at the back |
| `Queue.QueueType.Peek` | Queue.c:120-126 | fails with EmptyQueue exactly when the queue is empty. Otherwise it returns `queue[front + 1]`, which is the oldest element. It reads only, so repeated peeks agree |
| `Queue.QueueType.Dequeue` | Queue.c:129-137 | returns what `Peek` returned before the call. On success it writes 0 into slot `front`, steps `front` by one without wrapping, keeps `rear` and every other slot, and the contents lose their head. The removed value stays in the slot `front` now points at. On an empty queue it changes nothing |
| `Queue.QueueType.PeekCircular` | Queue.c:120-126 | the corrected peek reads slot `(front + 1) % 100`. It fails exactly on an empty queue, otherwise returns the oldest element, and agrees with `Peek` wherever `front + 1 < 100` |
| `Queue.QueueType.DequeueCircular` | Queue.c:129-137 | the corrected dequeue returns what `PeekCircular` gave, with no guard on `front`. It steps `front` to `(front + 1) % 100` and clears that slot, keeps `rear`, and the contents lose their head. On an empty queue it changes nothing |
| `QueueScenarios.MainScenario` | Queue.c:151-169 | enqueue 10, 15, 12 echoes them. Peek then gives 10 and dequeue removes 10. Afterwards `front == 1`, `rear == 3`, slot 0 holds 0, and the new head is 15 |
| `QueueScenarios.FillAndDrain` | Queue.c:108-137 | up to 99 enqueues into a fresh queue all succeed, and as many dequeues return the same items in the same order (first in, first out) |
| `QueueScenarios.FillUntilFull` | Queue.c:103-117 | a fresh queue accepts exactly 99 enqueues, and the 100th fails with CapacityExceeded |
| `QueueScenarios.FrontReachesEnd` | Queue.c:125-133 | after 99 enqueue/dequeue pairs and one enqueue, a fresh queue is non-empty with `front == 99` and its item in slot 0. From there `peek` would read slot 100 |
| `QueueScenarios.RearWraps` | Queue.c:112-113 | after 99 enqueues and one dequeue, the next enqueue succeeds, wraps `rear` to 0 and stores its item there |
| `QueueScenarios.CircularWrapAround` | Queue.c:52-68 | with the corrected dequeue, from both indices at slot 98, enqueueing 10, 15, 12 and then dequeueing three times yields 10, 15, 12 in order, with both indices wrapped to 1 |

## Left out

- `error` (Queue.c:85-88): the message on stderr and `exit(1)` become the `Err` results described above.
- `frontRear` (Queue.c:94-97) and `display` (Queue.c:141-147): debug output with `printf` only. Note that the loop in `display` does not handle wrap-around either.
- The `printf` calls in `main`: only its sequence of operations is kept, in `MainScenario`.
- Line 112 writes `rear` twice without a sequence point, which is undefined behaviour in C. The model uses the evident intent, `rear = (rear + 1) % 100`.
- `Queue.QueueType.Peek`: states the guard `front + 1 < 100` instead of modelling the out-of-bounds read at `front == 99` on a non-empty queue. `FrontReachesEnd` proves that 99 enqueue/dequeue pairs followed by one enqueue reach that state. The model cannot call `Peek` or `Dequeue` there. `PeekCircular` and `DequeueCircular` cover that state with `front` wrapped.
- `Queue.QueueType.Dequeue`: has the same `front + 1 < 100` guard as `Peek`, for the same reason.
- `new int[100]` leaves the slots unspecified, like the uninitialised C array, and no contract states what a slot outside the contents holds.
- The element type is fixed to `int` and the capacity to 100, as in the source. At any capacity, FIFO order across the end of the array fails for the code as written, because `front` never wraps (see "## Findings"). `CircularWrapAround` shows that order with the corrected dequeue at capacity 100.
- The comment at Queue.c:1-47 is prose about queues and their uses, and describes no behaviour.

## Findings

| source | as written | input that shows it | evidently intended | confidence | as-written member | corrected member |
|---|---|---|---|---|---|---|
| Queue.c:125, Queue.c:133 | `peek` reads `queue[front + 1]` and `dequeue` does `front++`, so `front` never wraps the way `rear` does at Queue.c:112 | from `init`, 99 enqueue/dequeue pairs and one enqueue give `front == 99` and `rear == 0` with one element in slot 0. `peek` then reads `queue[100]`, past the array, so at most 99 dequeues succeed after each `init` | `front = (front + 1) % MAX_QUEUE_SIZE`, reading the head at that slot, as the ring layout of Queue.c:49-68 describes | high (not executed) | `QueueScenarios.FrontReachesEnd` | `Queue.QueueType.DequeueCircular` |
