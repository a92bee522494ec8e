/**
 * The fixed-capacity circular queue of folonet-common/src/queue.rs: a head
 * and a tail index over an array of CAPACITY slots, with no full or empty
 * check. The queue's contents are the slots from head up to (not including)
 * tail, going round the end of the array.
 */
module CommonQueue {

  /** `CAPATCITY` in the source. */
  const CAPACITY: nat := 10000

  /** `Queue::increase`: the next index, wrapping to 0 after the last slot. */
  function Increase(i: nat): (r: nat)
    ensures r < CAPACITY
    ensures r == 0 <==> i % CAPACITY == CAPACITY - 1
    ensures i < CAPACITY - 1 ==> r == i + 1
  {
    (i + 1) % CAPACITY
  }

  /** The slots of `s` from `head` up to `tail`, going round the end. */
  function RingSlice<T>(s: seq<T>, head: nat, tail: nat): seq<T>
    requires |s| == CAPACITY && head < CAPACITY && tail < CAPACITY
  {
    if head <= tail then s[head..tail] else s[head..] + s[..tail]
  }

  /** The length of a ring slice is the distance from head to tail, modulo CAPACITY. */
  lemma RingSliceLength<T>(s: seq<T>, head: nat, tail: nat)
    requires |s| == CAPACITY && head < CAPACITY && tail < CAPACITY
    ensures |RingSlice(s, head, tail)| == (tail - head) % CAPACITY
    ensures |RingSlice(s, head, tail)| < CAPACITY
  {
  }

  /** Writing at tail and advancing it appends, unless the slice already held CAPACITY - 1 items. */
  lemma RingSlicePush<T>(s: seq<T>, head: nat, tail: nat, x: T)
    requires |s| == CAPACITY && head < CAPACITY && tail < CAPACITY
    requires |RingSlice(s, head, tail)| < CAPACITY - 1
    ensures RingSlice(s[tail := x], head, Increase(tail)) == RingSlice(s, head, tail) + [x]
  {
    RingSliceLength(s, head, tail);
    var s' := s[tail := x];
    if head <= tail {
      if tail + 1 < CAPACITY {
        assert s'[head..tail + 1] == s[head..tail] + [x];
      } else {
        assert head > 0;
        assert s'[head..] + s'[..0] == s[head..tail] + [x];
      }
    } else {
      assert tail + 1 < head;
      assert s'[head..] == s[head..];
      assert s'[..tail + 1] == s[..tail] + [x];
    }
  }

  /** Pushing onto a slice of CAPACITY - 1 items makes tail meet head: the queue reads as empty. */
  lemma RingSliceOverwrite<T>(s: seq<T>, head: nat, tail: nat, x: T)
    requires |s| == CAPACITY && head < CAPACITY && tail < CAPACITY
    requires |RingSlice(s, head, tail)| == CAPACITY - 1
    ensures Increase(tail) == head
    ensures RingSlice(s[tail := x], head, Increase(tail)) == []
  {
    RingSliceLength(s, head, tail);
  }

  /** Reading at head and advancing it removes the first item of a nonempty slice. */
  lemma RingSlicePop<T>(s: seq<T>, head: nat, tail: nat)
    requires |s| == CAPACITY && head < CAPACITY && tail < CAPACITY
    requires RingSlice(s, head, tail) != []
    ensures RingSlice(s, head, tail)[0] == s[head]
    ensures RingSlice(s, Increase(head), tail) == RingSlice(s, head, tail)[1..]
  {
    if head <= tail {
      assert head + 1 <= tail;
      assert s[head + 1..tail] == s[head..tail][1..];
    } else if head == CAPACITY - 1 {
      assert Increase(head) == 0;
      assert s[head..] == [s[head]];
    } else {
      assert Increase(head) == head + 1;
      assert s[head + 1..] + s[..tail] == (s[head..] + s[..tail])[1..];
    }
  }

  /** Advancing head past tail makes every other slot read as queued. */
  lemma RingSliceUnderflow<T>(s: seq<T>, head: nat, tail: nat)
    requires |s| == CAPACITY && head < CAPACITY && tail < CAPACITY
    requires head == tail
    ensures |RingSlice(s, Increase(head), tail)| == CAPACITY - 1
  {
    RingSliceLength(s, Increase(head), tail);
  }

  class Queue<T(0)> {
    var head: nat
    var tail: nat
    const data: array<T>

    ghost predicate Valid()
      reads this
    {
      data.Length == CAPACITY && head < CAPACITY && tail < CAPACITY
    }

    /** The queued items, oldest first. */
    ghost function Contents(): seq<T>
      reads this, data
      requires Valid()
    {
      RingSlice(data[..], head, tail)
    }

    /** `Queue::new`: head and tail at slot 0, nothing queued. */
    constructor ()
      ensures Valid() && fresh(data)
      ensures head == 0 && tail == 0 && Contents() == []
    {
      head, tail := 0, 0;
      data := new T[CAPACITY];
    }

    /**
     * `Queue::push`: write at tail, advance tail. Nothing else changes; with
     * CAPACITY - 1 items already queued, tail meets head and every queued item
     * is lost.
     */
    method Push(item: T)
      requires Valid()
      modifies this, data
      ensures Valid()
      ensures data[..] == old(data[..])[old(tail) := item]
      ensures tail == Increase(old(tail)) && head == old(head)
      ensures |old(Contents())| < CAPACITY - 1 ==> Contents() == old(Contents()) + [item]
      ensures |old(Contents())| == CAPACITY - 1 ==> Contents() == []
    {
      ghost var s := data[..];
      RingSliceLength(s, head, tail);
      if |RingSlice(s, head, tail)| < CAPACITY - 1 {
        RingSlicePush(s, head, tail, item);
      } else {
        RingSliceOverwrite(s, head, tail, item);
      }
      data[tail] := item;
      tail := Increase(tail);
    }

    /**
     * `Queue::pop`: read at head, advance head. The array and tail are
     * unchanged; on an empty queue it returns whatever the slot holds and
     * the queue then reads as CAPACITY - 1 stale items.
     */
    method Pop() returns (item: T)
      requires Valid()
      modifies this
      ensures Valid()
      ensures item == data[old(head)]
      ensures head == Increase(old(head)) && tail == old(tail)
      ensures old(Contents()) != [] ==> item == old(Contents())[0] && Contents() == old(Contents())[1..]
      ensures old(Contents()) == [] ==> |Contents()| == CAPACITY - 1
    {
      ghost var s := data[..];
      if RingSlice(s, head, tail) != [] {
        RingSlicePop(s, head, tail);
      } else {
        RingSliceLength(s, head, tail);
        RingSliceUnderflow(s, head, tail);
      }
      item := data[head];
      head := Increase(head);
    }
  }

  /** Pushing items one by one appends them, as long as the queue never fills. */
  method PushAll<T(0)>(q: Queue<T>, items: seq<T>)
    requires q.Valid() && |q.Contents()| + |items| < CAPACITY
    modifies q, q.data
    ensures q.Valid() && q.Contents() == old(q.Contents()) + items
  {
    ghost var start := q.Contents();
    for i := 0 to |items|
      invariant q.Valid() && q.Contents() == start + items[..i]
    {
      q.Push(items[i]);
      assert start + items[..i + 1] == start + items[..i] + [items[i]];
    }
    assert items[..|items|] == items;
  }

  /** Popping n times from a queue holding at least n items yields its first n items, oldest first. */
  method PopMany<T(0)>(q: Queue<T>, n: nat) returns (popped: seq<T>)
    requires q.Valid() && n <= |q.Contents()|
    modifies q
    ensures q.Valid()
    ensures popped == old(q.Contents())[..n] && q.Contents() == old(q.Contents())[n..]
  {
    ghost var start := q.Contents();
    popped := [];
    for i := 0 to n
      invariant q.Valid() && q.Contents() == start[i..]
      invariant popped == start[..i]
    {
      var x := q.Pop();
      assert start[i..][1..] == start[i + 1..];
      assert start[..i + 1] == start[..i] + [x];
      popped := popped + [x];
    }
  }

  /** Pushing fewer than CAPACITY items into a new queue and popping as many returns them in order. */
  method FifoRoundTrip<T(0)>(items: seq<T>) returns (popped: seq<T>)
    requires |items| < CAPACITY
    ensures popped == items
  {
    var q := new Queue<T>();
    PushAll(q, items);
    assert q.Contents() == items;
    popped := PopMany(q, |items|);
  }
}
