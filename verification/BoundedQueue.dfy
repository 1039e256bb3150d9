/** queue.c: the circular array behind every mutex, refining a bounded sequence. */
module BoundedQueue {

  const EMPTY_QUEUE: int := -1

  class Queue {
    var front: nat
    var rear: nat
    var size: nat
    const capacity: nat
    const slots: array<int>

    ghost var items: seq<int>

    /** `items` are the entries from front on, next one to leave first. */
    ghost predicate Valid()
      reads this, slots
    {
      slots.Length == capacity && capacity > 0 && front < capacity && size <= capacity && |items| == size &&
      rear == Wrap(front + size + capacity - 1, capacity) &&
      forall i :: 0 <= i < size ==> items[i] == slots[Wrap(front + i, capacity)]
    }

    /** createQueue */
    constructor (capacity: nat)
      requires capacity > 0
      ensures Valid() && items == [] && this.capacity == capacity && fresh(slots)
    {
      this.capacity := capacity;
      front := 0;
      size := 0;
      items := [];
      rear := capacity - 1;
      slots := new int[capacity];
    }

    predicate IsFull()
      reads this
    {
      size == capacity
    }

    predicate IsEmpty()
      reads this
    {
      size == 0
    }

    /** enqueue: nothing happens on a full queue. */
    method Enqueue(item: int)
      requires Valid()
      modifies this`rear, this`size, this`items, slots
      ensures Valid()
      ensures items == if |old(items)| == capacity then old(items) else old(items) + [item]
    {
      if IsFull() {
        return;
      }
      ModIsWrap(rear + 1, capacity);
      rear := (rear + 1) % capacity;
      slots[rear] := item;
      size := size + 1;
      items := items + [item];
    }

    /** dequeue: EMPTY_QUEUE from an empty queue. */
    method Dequeue() returns (item: int)
      requires Valid()
      modifies this`front, this`size, this`items
      ensures Valid()
      ensures old(items) == [] ==> item == EMPTY_QUEUE && items == []
      ensures old(items) != [] ==> item == old(items)[0] && items == old(items)[1..]
    {
      if IsEmpty() {
        return EMPTY_QUEUE;
      }
      item := slots[front];
      ModIsWrap(front + 1, capacity);
      front := (front + 1) % capacity;
      size := size - 1;
      items := items[1..];
    }

    /** front(); what it reads is meaningful when the queue is not empty. */
    method Front() returns (item: int)
      requires Valid()
      ensures size > 0 ==> item == items[0]
    {
      item := slots[front];
    }

    /** rear(), likewise. */
    method Rear() returns (item: int)
      requires Valid()
      ensures size > 0 ==> item == items[size - 1]
    {
      item := slots[rear];
    }
  }

  /** x % n for 0 <= x < 3 * n, without division. */
  function Wrap(x: int, n: int): int {
    if x < n then x else if x < 2 * n then x - n else x - 2 * n
  }

  lemma ModIsWrap(x: nat, n: nat)
    requires n > 0 && x < 2 * n
    ensures x % n == Wrap(x, n)
  {
    if x >= n {
      assert x % n == (x - n) % n;
    }
  }
}
