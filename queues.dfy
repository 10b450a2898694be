/**
 * The two inter-task channels: fixed-capacity FIFOs of readings whose non-blocking send
 * drops the new reading when the queue is full (the behaviour of a zero-timeout send).
 */
module Queues {
  import opened Types

  /** Length both queues are created with. */
  const QueueLength: nat := 5

  /** The queue contents after offering `x` to a queue of the given capacity holding `q`. */
  function Offer(q: seq<Reading>, x: Reading, capacity: nat): (q': seq<Reading>)
    ensures q' == q || q' == q + [x]
    ensures q' == q + [x] <==> |q| < capacity
    ensures |q| <= capacity ==> |q'| <= capacity
  {
    if |q| < capacity then q + [x] else q
  }

  /** Offering a whole sequence of readings, one after another, with no receive in between. */
  function OfferAll(q: seq<Reading>, xs: seq<Reading>, capacity: nat): seq<Reading>
    decreases |xs|
  {
    if xs == [] then q else OfferAll(Offer(q, xs[0], capacity), xs[1..], capacity)
  }

  function Min(a: int, b: int): int {
    if a <= b then a else b
  }

  /**
   * A burst of sends into an unread queue keeps the earliest readings that fit and drops all
   * later ones: the queue favours the oldest data, never overwriting it.
   */
  lemma {:induction false} OfferAllKeepsEarliest(q: seq<Reading>, xs: seq<Reading>, capacity: nat)
    requires |q| <= capacity
    ensures OfferAll(q, xs, capacity) == q + xs[..Min(capacity - |q|, |xs|)]
    decreases |xs|
  {
    if xs != [] {
      var q1 := Offer(q, xs[0], capacity);
      OfferAllKeepsEarliest(q1, xs[1..], capacity);
      if |q| < capacity {
        assert q1 == q + [xs[0]];
        assert xs[1..][..Min(capacity - |q1|, |xs[1..]|)] + [] == xs[1..Min(capacity - |q|, |xs|)];
        assert [xs[0]] + xs[1..Min(capacity - |q|, |xs|)] == xs[..Min(capacity - |q|, |xs|)];
      } else {
        assert q1 == q;
      }
    }
  }

  /** A FIFO of readings stored in a fixed array of `N` slots used as a ring. */
  class BoundedQueue {
    /** The queued readings, oldest first. */
    ghost var Contents: seq<Reading>
    ghost var Repr: set<object>

    const N: nat
    const slots: array<Reading>
    var head: nat
    var count: nat

    ghost predicate Valid()
      reads this, Repr
      ensures Valid() ==> this in Repr
    {
      && this in Repr && slots in Repr
      && slots.Length == N && 0 < N
      && head < N && count <= N
      && |Contents| == count
      && forall i :: 0 <= i < count ==>
           Contents[i] == slots[if head + i < N then head + i else head + i - N]
    }

    /** `xQueueCreate(capacity, sizeof(joystick_data_t))`. */
    constructor (capacity: nat)
      requires 0 < capacity
      ensures Valid() && fresh(Repr)
      ensures N == capacity && Contents == []
    {
      N := capacity;
      slots := new Reading[capacity](_ => Reading(0, 0));
      head, count := 0, 0;
      Contents := [];
      Repr := {this, slots};
    }

    /** Non-blocking send: appends at the tail, or leaves the queue unchanged when it is full. */
    method Send(x: Reading) returns (ok: bool)
      requires Valid()
      modifies Repr
      ensures Valid() && Repr == old(Repr)
      ensures ok <==> |old(Contents)| < N
      ensures Contents == Offer(old(Contents), x, N)
    {
      ok := count < N;
      if ok {
        var tail := if head + count < N then head + count else head + count - N;
        slots[tail] := x;
        count := count + 1;
        Contents := Contents + [x];
      }
    }

    /** Receive: removes and returns the oldest reading, or returns None when the queue is empty. */
    method Receive() returns (r: Option<Reading>)
      requires Valid()
      modifies Repr
      ensures Valid() && Repr == old(Repr)
      ensures old(Contents) == [] ==> r == None && Contents == []
      ensures old(Contents) != [] ==> r == Some(old(Contents)[0]) && Contents == old(Contents)[1..]
    {
      if count == 0 {
        r := None;
      } else {
        r := Some(slots[head]);
        head := if head + 1 < N then head + 1 else 0;
        count := count - 1;
        Contents := Contents[1..];
      }
    }
  }

  /**
   * Five readings sent into an empty queue of `QueueLength` slots fill it, the sixth send is
   * dropped, and the first receive returns the first reading.
   */
  method FillAndOverflow(a: Reading, b: Reading, c: Reading, d: Reading, e: Reading, f: Reading)
    returns (sixthAccepted: bool, first: Option<Reading>)
    ensures !sixthAccepted
    ensures first == Some(a)
  {
    var q := new BoundedQueue(QueueLength);
    var ok := q.Send(a);
    ok := q.Send(b);
    ok := q.Send(c);
    ok := q.Send(d);
    ok := q.Send(e);
    sixthAccepted := q.Send(f);
    first := q.Receive();
  }
}
