/**
 * The bounded update queue (the buffered channel `b.updates`) and its drop-oldest overflow
 * rule, as functions on the sequence of queued values, oldest first.
 */
module UpdateQueue {

  /** The channel's buffer size. */
  const Capacity: nat := 256

  /**
   * One non-blocking enqueue: append when there is room; when the queue is full, take the
   * oldest element out first and then append.
   */
  function Enqueue<T>(q: seq<T>, x: T): (r: seq<T>)
    requires |q| <= Capacity
    ensures 0 < |r| <= Capacity && r[|r| - 1] == x
    ensures |q| < Capacity ==> r == q + [x]
    ensures |q| == Capacity ==> |r| == Capacity && r[..|r| - 1] == q[1..]
  {
    if |q| < Capacity then q + [x] else q[1..] + [x]
  }

  /** Enqueueing each element of `xs` in turn. */
  function EnqueueAll<T>(q: seq<T>, xs: seq<T>): (r: seq<T>)
    requires |q| <= Capacity
    ensures |r| <= Capacity
    decreases |xs|
  {
    if xs == [] then q else Enqueue(EnqueueAll(q, xs[..|xs| - 1]), xs[|xs| - 1])
  }

  /** The newest `Capacity` elements of a stream, in their order: `s` itself when it is short enough. */
  function Newest<T>(s: seq<T>): (r: seq<T>)
    ensures |r| <= Capacity
  {
    if |s| <= Capacity then s else s[|s| - Capacity..]
  }

  /**
   * Whatever is enqueued, the queue holds exactly the newest `Capacity` elements of everything
   * that was queued and enqueued, in the order they went in: the newest update is always kept
   * and only the oldest ones are lost.
   */
  lemma {:induction false} EnqueueAllKeepsNewest<T>(q: seq<T>, xs: seq<T>)
    requires |q| <= Capacity
    ensures EnqueueAll(q, xs) == Newest(q + xs)
    decreases |xs|
  {
    if xs == [] {
      assert q + xs == q;
    } else {
      var init, x := xs[..|xs| - 1], xs[|xs| - 1];
      EnqueueAllKeepsNewest(q, init);
      assert q + xs == (q + init) + [x];
      var s := q + init;
      if |s| >= Capacity {
        assert Newest(s)[1..] + [x] == (s + [x])[|s| + 1 - Capacity..];
      }
    }
  }

  /** Enqueueing one more element after a run of enqueues. */
  lemma EnqueueAllAppend<T>(q: seq<T>, xs: seq<T>, x: T)
    requires |q| <= Capacity
    ensures EnqueueAll(q, xs + [x]) == Enqueue(EnqueueAll(q, xs), x)
  {
    assert (xs + [x])[..|xs|] == xs;
  }

  /** Under the capacity nothing is lost: the queue is the old contents followed by everything enqueued. */
  lemma EnqueueAllBelowCapacity<T>(q: seq<T>, xs: seq<T>)
    requires |q| + |xs| <= Capacity
    ensures EnqueueAll(q, xs) == q + xs
  {
    EnqueueAllKeepsNewest(q, xs);
  }
}
