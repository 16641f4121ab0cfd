/**
  The bounded queue of audio chunks that stream and file sinks keep for their worker
  (`asterisk_moh.py`, `audio_sinks.py`).
 */
module ChunkQueues {
  import opened Origins

  function Total<T>(queue: seq<seq<T>>): nat {
    if queue == [] then 0 else |queue[0]| + Total(queue[1..])
  }

  lemma {:induction false} TotalAppend<T>(queue: seq<seq<T>>, chunk: seq<T>)
    ensures Total(queue + [chunk]) == Total(queue) + |chunk|
  {
    if queue == [] {
      assert queue + [chunk] == [chunk];
    } else {
      TotalAppend(queue[1..], chunk);
      assert (queue + [chunk])[1..] == queue[1..] + [chunk];
    }
  }

  /** `k` is the number of oldest chunks that have to go for `length` more elements to fit, if they can. */
  ghost predicate MustGo<T>(queue: seq<seq<T>>, length: nat, capacity: nat, k: nat) {
    && k <= |queue|
    && (k < |queue| ==> Total(queue[k..]) + length <= capacity)
    && (k > 0 ==> Total(queue[k - 1..]) + length > capacity)
  }

  /**
    Add a chunk, trimmed to the capacity, after dropping the oldest chunks until it fits.
    `dropped` is exactly what was lost, and no more chunks go than have to.
   */
  method PushNewest<T>(queue: seq<seq<T>>, queuedBytes: nat, data: seq<T>, capacity: nat)
    returns (queue': seq<seq<T>>, queuedBytes': nat, dropped: nat, ghost gone: nat)
    requires queuedBytes == Total(queue) <= capacity
    ensures MustGo(queue, |Newest(data, capacity)|, capacity, gone)
    ensures queue' == queue[gone..] + [Newest(data, capacity)]
    ensures queuedBytes' == Total(queue') <= capacity
    ensures queuedBytes' + dropped == queuedBytes + |data|
  {
    queue', queuedBytes', dropped, gone := queue, queuedBytes, 0, 0;
    var rest := data;
    if |data| > capacity {
      dropped := dropped + (|data| - capacity);
      rest := data[|data| - capacity..];
    }
    while queue' != [] && queuedBytes' + |rest| > capacity
      invariant gone <= |queue| && queue' == queue[gone..]
      invariant queuedBytes' == Total(queue') <= capacity
      invariant queuedBytes' + |rest| + dropped == queuedBytes + |data|
      invariant gone > 0 ==> Total(queue[gone - 1..]) + |rest| > capacity
    {
      var removed := queue'[0];
      assert queue[gone..][1..] == queue[gone + 1..];
      queue' := queue'[1..];
      queuedBytes' := queuedBytes' - |removed|;
      dropped := dropped + |removed|;
      gone := gone + 1;
    }
    TotalAppend(queue', rest);
    queue' := queue' + [rest];
    queuedBytes' := queuedBytes' + |rest|;
  }

  /**
    The chunks are whole samples, taken from a source in order, the first not before `from`;
    `starts` says where.
   */
  ghost predicate ChunksOf<T>(queue: seq<seq<T>>, starts: seq<nat>, source: seq<T>, from: nat) {
    && |starts| == |queue|
    && if queue == [] then from <= |source|
       else
         && from <= starts[0] && IsChunk(queue[0], starts[0], source)
         && ChunksOf(queue[1..], starts[1..], source, starts[0] + |queue[0]|)
  }

  ghost predicate IsChunk<T>(chunk: seq<T>, start: nat, source: seq<T>) {
    && chunk != [] && |chunk| % 2 == 0 && start % 2 == 0
    && start + |chunk| <= |source| && chunk == source[start..start + |chunk|]
  }

  lemma {:induction false} ChunksLater<T>(queue: seq<seq<T>>, starts: seq<nat>, source: seq<T>, from: nat, k: nat)
    requires ChunksOf(queue, starts, source, from) && k <= |queue|
    ensures ChunksOf(queue[k..], starts[k..], source, from)
  {
    if k > 0 {
      ChunksLater(queue[1..], starts[1..], source, starts[0] + |queue[0]|, k - 1);
      assert queue[1..][k - 1..] == queue[k..] && starts[1..][k - 1..] == starts[k..];
      ChunksEarlier(queue[k..], starts[k..], source, starts[0] + |queue[0]|, from);
    }
  }

  lemma {:induction false} ChunksEarlier<T>(
      queue: seq<seq<T>>, starts: seq<nat>, source: seq<T>, from: nat, earlier: nat)
    requires ChunksOf(queue, starts, source, from) && earlier <= from
    ensures ChunksOf(queue, starts, source, earlier)
  {
  }

  /** New data is added to the source, and the newest part of it to the queue. */
  lemma {:induction false} ChunksAppend<T>(queue: seq<seq<T>>, starts: seq<nat>, source: seq<T>, from: nat,
      data: seq<T>, start: nat)
    requires ChunksOf(queue, starts, source, from)
    requires |source| <= start < |source| + |data| && start % 2 == 0 && (|source| + |data|) % 2 == 0
    ensures ChunksOf(queue + [(source + data)[start..]], starts + [start], source + data, from)
  {
    var all, chunk := source + data, (source + data)[start..];
    if queue == [] {
      assert queue + [chunk] == [chunk] && starts + [start] == [start];
      assert [chunk][1..] == [] && [start][1..] == [];
    } else {
      ChunksAppend(queue[1..], starts[1..], source, starts[0] + |queue[0]|, data, start);
      assert (queue + [chunk])[1..] == queue[1..] + [chunk] && (starts + [start])[1..] == starts[1..] + [start];
      assert all[starts[0]..starts[0] + |queue[0]|] == source[starts[0]..starts[0] + |queue[0]|];
    }
  }

  /** Data may be added to the source that never reaches the queue. */
  lemma {:induction false} ChunksUnqueued<T>(
      queue: seq<seq<T>>, starts: seq<nat>, source: seq<T>, from: nat, data: seq<T>)
    requires ChunksOf(queue, starts, source, from)
    ensures ChunksOf(queue, starts, source + data, from)
  {
    if queue != [] {
      ChunksUnqueued(queue[1..], starts[1..], source, starts[0] + |queue[0]|, data);
      assert (source + data)[starts[0]..starts[0] + |queue[0]|] == source[starts[0]..starts[0] + |queue[0]|];
    }
  }

  lemma NewestIsEnd<T>(source: seq<T>, data: seq<T>, capacity: nat)
    requires data != [] && |data| % 2 == 0 && |source| % 2 == 0 && capacity >= 2 && capacity % 2 == 0
    ensures var start := |source| + |data| - |Newest(data, capacity)|;
            && |source| <= start < |source| + |data| && start % 2 == 0
            && (source + data)[start..] == Newest(data, capacity)
  {
  }

  lemma {:induction false} PushOnChunks<T>(queue: seq<seq<T>>, starts: seq<nat>, source: seq<T>, from: nat,
      data: seq<T>, capacity: nat)
    requires ChunksOf(queue, starts, source, from)
    requires data != [] && |data| % 2 == 0 && |source| % 2 == 0 && capacity >= 2 && capacity % 2 == 0
    ensures ChunksOf(queue + [Newest(data, capacity)], starts + [|source| + |data| - |Newest(data, capacity)|],
              source + data, from)
  {
    NewestIsEnd(source, data, capacity);
    ChunksAppend(queue, starts, source, from, data, |source| + |data| - |Newest(data, capacity)|);
  }

  /** What `PushNewest` makes of a queue of chunks. */
  lemma {:induction false} PushKeepsChunks<T>(queue: seq<seq<T>>, starts: seq<nat>, source: seq<T>, from: nat,
      data: seq<T>, capacity: nat, gone: nat)
    requires ChunksOf(queue, starts, source, from) && gone <= |queue|
    requires data != [] && |data| % 2 == 0 && |source| % 2 == 0 && capacity >= 2 && capacity % 2 == 0
    ensures |starts| == |queue|
    ensures ChunksOf(queue[gone..] + [Newest(data, capacity)],
                     starts[gone..] + [|source| + |data| - |Newest(data, capacity)|], source + data, from)
  {
    ChunksLater(queue, starts, source, from, gone);
    PushOnChunks(queue[gone..], starts[gone..], source, from, data, capacity);
  }
}
