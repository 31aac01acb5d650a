/** The single-producer/single-consumer ring buffer `SPSCRingBuffer<T,
    Capacity>`, run one operation at a time. `head` is the next slot the
    consumer reads, `tail` the next slot the producer writes; both wrap with
    the mask `Capacity - 1`. The buffer is full when the slot after `tail` is
    `head`, so one slot is always left unused. */
module RingBuffer {
  import opened Wrappers
  import opened Bits
  import QueueSpec

  /** The source's successor index `(i + 1) & (capacity - 1)`. */
  function Next(i: nat, capacity: nat): (r: nat)
    requires IsPowerOfTwo(capacity)
    ensures r == (i + 1) % capacity
    ensures i < capacity ==> r == if i + 1 == capacity then 0 else i + 1
  {
    MaskIsMod(i + 1, capacity);
    SuccessorMod(i, capacity);
    BitAnd(i + 1, capacity - 1)
  }

  /** Inside the ring, adding one modulo `capacity` only wraps at the end. */
  lemma SuccessorMod(i: nat, capacity: nat)
    requires capacity >= 1
    ensures i < capacity ==> (i + 1) % capacity == if i + 1 == capacity then 0 else i + 1
  {
    if i + 1 == capacity {
      DivModUnique(i + 1, capacity, 1, 0);
    } else if i + 1 < capacity {
      DivModUnique(i + 1, capacity, 0, i + 1);
    }
  }

  /** How many slots lie from `head` (inclusive) up to `tail` (exclusive)
      going round the ring: the number of held items. */
  function Count(head: nat, tail: nat, capacity: nat): (n: nat)
    requires head < capacity && tail < capacity
    ensures n == (tail - head) % capacity
    ensures n < capacity
  {
    if head <= tail then
      DivModUnique(tail - head, capacity, 0, tail - head);
      tail - head
    else
      DivModUnique(tail - head, capacity, -1, capacity - head + tail);
      capacity - head + tail
  }

  /** The slot `k` places after `head` going round the ring. */
  function Offset(head: nat, k: nat, capacity: nat): (j: nat)
    requires head < capacity && k < capacity
    ensures j < capacity && Count(head, j, capacity) == k
    ensures j == (head + k) % capacity
  {
    if head + k < capacity then
      DivModUnique(head + k, capacity, 0, head + k);
      head + k
    else
      DivModUnique(head + k, capacity, 1, head + k - capacity);
      head + k - capacity
  }

  /** Slot `j` lies in the circular interval `[head, tail)`. */
  predicate Occupied(head: nat, tail: nat, j: nat, capacity: nat)
    requires head < capacity && tail < capacity && j < capacity
  {
    Count(head, j, capacity) < Count(head, tail, capacity)
  }

  /** The circular interval `[head, tail)` spelled out: contiguous when
      `head <= tail`, wrapping past the end of the array otherwise. */
  lemma OccupiedIsInterval(head: nat, tail: nat, j: nat, capacity: nat)
    requires head < capacity && tail < capacity && j < capacity
    ensures Occupied(head, tail, j, capacity)
        <==> if head <= tail then head <= j < tail else head <= j || j < tail
  {
  }

  /** The full test of `try_push`: the slot after `tail` is `head` exactly
      when `capacity - 1` items are held. */
  lemma FullIffUsableCapacityHeld(head: nat, tail: nat, capacity: nat)
    requires IsPowerOfTwo(capacity) && head < capacity && tail < capacity
    ensures Next(tail, capacity) == head <==> Count(head, tail, capacity) == capacity - 1
  {
  }

  /** Advancing `tail` past a free slot adds exactly that slot to the
      occupied interval. */
  lemma AdvanceTail(head: nat, tail: nat, capacity: nat)
    requires IsPowerOfTwo(capacity) && head < capacity && tail < capacity
    requires Next(tail, capacity) != head
    ensures Count(head, Next(tail, capacity), capacity) == Count(head, tail, capacity) + 1
    ensures Offset(head, Count(head, tail, capacity), capacity) == tail
    ensures forall j :: 0 <= j < capacity ==>
      (Occupied(head, Next(tail, capacity), j, capacity) <==> Occupied(head, tail, j, capacity) || j == tail)
  {
    FullIffUsableCapacityHeld(head, tail, capacity);
  }

  /** Advancing `head` past an occupied slot removes exactly that slot from
      the occupied interval and shifts every position by one. */
  lemma AdvanceHead(head: nat, tail: nat, capacity: nat)
    requires IsPowerOfTwo(capacity) && head < capacity && tail < capacity
    requires head != tail
    ensures Count(Next(head, capacity), tail, capacity) == Count(head, tail, capacity) - 1
    ensures forall k :: 0 <= k < Count(head, tail, capacity) - 1 ==>
      Offset(Next(head, capacity), k, capacity) == Offset(head, k + 1, capacity)
    ensures forall j :: 0 <= j < capacity ==>
      (Occupied(Next(head, capacity), tail, j, capacity) <==> Occupied(head, tail, j, capacity) && j != head)
  {
  }

  /** Capacity 3 fails the capacity check, so no buffer of capacity 3
      exists. */
  lemma ThreeIsNotACapacity()
    ensures BitAnd(3, 2) != 0 && !IsPowerOfTwo(3)
  {
    assert BitAnd(3, 2) == 2 * BitAnd(1, 1);
    BitAndSelf(1);
  }

  class SPSCRingBuffer<T> {
    /** The template parameter `Capacity`. */
    const capacity: nat
    /** The `Capacity` slots; `None` is uninitialised storage. */
    const buffer: array<Option<T>>
    /** Next slot the consumer reads. */
    var head: nat
    /** Next slot the producer writes. */
    var tail: nat
    /** The held items, front first. */
    ghost var contents: seq<T>

    /** The object invariant: the indices stay in range, the number of held
        items is `(tail - head) mod capacity`, the k-th held item sits k
        slots after `head`, and exactly the slots of `[head, tail)` hold a
        constructed element. */
    ghost predicate Valid()
      reads this, buffer
      ensures Valid() ==> |contents| <= capacity - 1
    {
      && IsPowerOfTwo(capacity)
      && buffer.Length == capacity
      && head < capacity && tail < capacity
      && |contents| == Count(head, tail, capacity)
      && (forall k :: 0 <= k < |contents| ==> buffer[Offset(head, k, capacity)] == Some(contents[k]))
      && (forall j :: 0 <= j < capacity ==> (buffer[j].Some? <==> Occupied(head, tail, j, capacity)))
    }

    /** The capacity check is the source's `static_assert`: a buffer type
        whose capacity fails it is never instantiated. Storage starts as
        `capacity` uninitialised slots and both indices at 0. */
    constructor (capacity: nat)
      requires capacity != 0 && BitAnd(capacity, capacity - 1) == 0
      ensures Valid() && fresh(buffer)
      ensures this.capacity == capacity && head == 0 && tail == 0 && contents == []
      ensures forall j :: 0 <= j < capacity ==> buffer[j] == None
    {
      PowerOfTwoTest(capacity);
      this.capacity := capacity;
      buffer := new Option<T>[capacity](_ => None);
      head, tail := 0, 0;
      contents := [];
    }

    /** Producer side. Fails, changing nothing, when the slot after `tail`
        is `head`; otherwise constructs `item` in slot `tail` and then
        publishes the advanced `tail`. */
    method TryPush(item: T) returns (ok: bool)
      requires Valid()
      modifies this`tail, this`contents, buffer
      ensures Valid()
      ensures ok <==> Next(old(tail), capacity) != head
      ensures ok <==> |old(contents)| < capacity - 1
      ensures head == old(head)
      ensures !ok ==> tail == old(tail) && contents == old(contents) && buffer[..] == old(buffer[..])
      ensures ok ==> tail == Next(old(tail), capacity) && contents == old(contents) + [item]
      ensures ok ==> buffer[..] == old(buffer[..])[old(tail) := Some(item)]
      ensures (contents, QueueSpec.Pushed(ok)) == QueueSpec.Step(old(contents), QueueSpec.Push(item), capacity - 1)
    {
      var currentTail := tail;
      var nextTail := Next(currentTail, capacity);
      FullIffUsableCapacityHeld(head, currentTail, capacity);
      if nextTail == head {
        return false;
      }
      AdvanceTail(head, currentTail, capacity);
      buffer[currentTail] := Some(item);
      tail := nextTail;
      contents := contents + [item];
      ok := true;
    }

    /** Consumer side. `outItem` is the caller's variable: it comes back
        unchanged when the buffer is empty; otherwise the element in slot
        `head` is moved out, the slot is destroyed, and the advanced `head`
        is published. */
    method TryPop(outItem: T) returns (ok: bool, item: T)
      requires Valid()
      modifies this`head, this`contents, buffer
      ensures Valid()
      ensures ok <==> old(head) != tail
      ensures ok <==> old(contents) != []
      ensures tail == old(tail)
      ensures !ok ==> item == outItem && head == old(head) && contents == old(contents) && buffer[..] == old(buffer[..])
      ensures ok ==> item == old(contents)[0] && old(buffer[head]) == Some(item)
      ensures ok ==> head == Next(old(head), capacity) && contents == old(contents)[1..]
      ensures ok ==> buffer[..] == old(buffer[..])[old(head) := None]
      ensures (contents, QueueSpec.Popped(if ok then Some(item) else None))
           == QueueSpec.Step(old(contents), QueueSpec.Pop, capacity - 1)
    {
      var currentHead := head;
      if currentHead == tail {
        return false, outItem;
      }
      AdvanceHead(currentHead, tail, capacity);
      assert buffer[Offset(currentHead, 0, capacity)] == Some(contents[0]);
      item := buffer[currentHead].value;
      buffer[currentHead] := None;
      head := Next(currentHead, capacity);
      contents := contents[1..];
      ok := true;
    }

    /** `prefetch_next` only computes the slot after `head` (the one the
        consumer reads after the current front) and touches nothing. */
    method PrefetchNext() returns (next: nat)
      requires Valid()
      ensures next < capacity && next == (head + 1) % capacity
      ensures |contents| >= 2 ==> buffer[next] == Some(contents[1])
    {
      next := Next(head, capacity);
      if |contents| >= 2 {
        assert buffer[Offset(head, 1, capacity)] == Some(contents[1]);
      }
    }
  }

  /** Capacity 4: pushes of 10, 20 and 30 succeed, a push of 40 fails with
      3 = capacity - 1 items held, a pop returns 10, and the push of 40 then
      succeeds. */
  method CapacityFourScenario() returns (pushes: seq<bool>, popped: int, retried: bool)
    ensures pushes == [true, true, true, false] && popped == 10 && retried
  {
    assert BitAnd(4, 3) == 2 * BitAnd(2, 1) && BitAnd(2, 1) == 2 * BitAnd(1, 0);
    var ring := new SPSCRingBuffer<int>(4);
    var p1 := ring.TryPush(10);
    var p2 := ring.TryPush(20);
    var p3 := ring.TryPush(30);
    var p4 := ring.TryPush(40);
    pushes := [p1, p2, p3, p4];
    var ok;
    ok, popped := ring.TryPop(0);
    retried := ring.TryPush(40);
  }
}
