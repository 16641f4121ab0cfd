/**
  Queues that keep the newest entries of a growing log, behind an optional checkpoint that is
  never dropped. Both event and analysis subscriptions are such queues.
 */
module BoundedQueues {

  /** Append `x`, making room by dropping the oldest entry, or the one behind a guarded front. */
  function Enqueued<T>(queue: seq<T>, x: T, capacity: nat, guarded: bool): seq<T>
    requires if guarded then capacity >= 2 && queue != [] else capacity >= 1
  {
    if |queue| < capacity then queue + [x]
    else if guarded then [queue[0]] + queue[2..] + [x]
    else queue[1..] + [x]
  }

  /**
    The queue of a subscription that began when `base` entries had been published: first the
    checkpoint while it waits, then every entry that is neither delivered nor dropped.
   */
  ghost predicate Holds<T>(
      queue: seq<T>, checkpoint: T, waiting: bool, published: seq<T>, base: nat, delivered: nat, dropped: nat,
      capacity: nat)
  {
    && |queue| <= capacity
    && base + delivered + dropped <= |published|
    && queue == (if waiting then [checkpoint] else []) + published[base + delivered + dropped..]
    && (waiting ==> delivered == 0 && capacity >= 2)
    && capacity >= 1
  }

  /** Publishing one more entry drops one exactly when the queue is full. */
  lemma EnqueueHolds<T>(
      queue: seq<T>, checkpoint: T, waiting: bool, published: seq<T>, base: nat, delivered: nat, dropped: nat,
      capacity: nat, x: T)
    requires Holds(queue, checkpoint, waiting, published, base, delivered, dropped, capacity)
    ensures Holds(Enqueued(queue, x, capacity, waiting), checkpoint, waiting, published + [x], base, delivered,
                  if |queue| < capacity then dropped else dropped + 1, capacity)
  {
    var from := base + delivered + dropped;
    var all := published + [x];
    if |queue| < capacity {
      assert all[from..] == published[from..] + [x];
    } else {
      assert all[from + 1..] == published[from + 1..] + [x];
      assert published[from..] == [published[from]] + published[from + 1..];
      if waiting {
        assert queue[2..] == published[from + 1..];
      }
    }
  }

  /** What a reader takes: the checkpoint while it waits, else the entry after all delivered and dropped ones. */
  lemma TakeHolds<T>(
      queue: seq<T>, checkpoint: T, waiting: bool, published: seq<T>, base: nat, delivered: nat, dropped: nat,
      capacity: nat)
    requires Holds(queue, checkpoint, waiting, published, base, delivered, dropped, capacity) && queue != []
    ensures waiting ==>
              && queue[0] == checkpoint
              && Holds(queue[1..], checkpoint, false, published, base, 0, dropped, capacity)
    ensures !waiting ==>
              && base + delivered + dropped < |published| && queue[0] == published[base + delivered + dropped]
              && Holds(queue[1..], checkpoint, false, published, base, delivered + 1, dropped, capacity)
  {
    var from := base + delivered + dropped;
    if !waiting {
      assert published[from..][1..] == published[from + 1..];
    }
  }

  /** The queue of a subscription that begins without a checkpoint. */
  ghost predicate HoldsNewest<T>(
      queue: seq<T>, published: seq<T>, base: nat, delivered: nat, dropped: nat, capacity: nat)
  {
    && |queue| <= capacity && capacity >= 1
    && base + delivered + dropped <= |published|
    && queue == published[base + delivered + dropped..]
  }

  lemma EnqueueNewest<T>(queue: seq<T>, published: seq<T>, base: nat, delivered: nat, dropped: nat, capacity: nat, x: T)
    requires HoldsNewest(queue, published, base, delivered, dropped, capacity)
    ensures HoldsNewest(Enqueued(queue, x, capacity, false), published + [x], base, delivered,
                        if |queue| < capacity then dropped else dropped + 1, capacity)
  {
    EnqueueHolds(queue, x, false, published, base, delivered, dropped, capacity, x);
  }

  lemma TakeNewest<T>(queue: seq<T>, published: seq<T>, base: nat, delivered: nat, dropped: nat, capacity: nat)
    requires HoldsNewest(queue, published, base, delivered, dropped, capacity) && queue != []
    ensures base + delivered + dropped < |published| && queue[0] == published[base + delivered + dropped]
    ensures HoldsNewest(queue[1..], published, base, delivered + 1, dropped, capacity)
  {
    TakeHolds(queue, queue[0], false, published, base, delivered, dropped, capacity);
  }
}
