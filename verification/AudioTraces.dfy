/** The history of an audio stream on its way through a sink's queue and worker. */
module AudioTraces {
  import opened Origins
  import opened ChunkQueues

  /**
    What has happened to the stream of all bytes counted as submitted: where in it the queued
    chunks and the chunk in hand are, what has been written, and where in it that was.
   */
  datatype Trace<T> = Trace(source: seq<T>, starts: seq<nat>, position: nat, output: seq<T>, origins: seq<nat>)

  /** The chunk in hand and the queue are parts of the source, in order; the output came before them. */
  ghost predicate Aligned<T>(t: Trace<T>, queue: seq<seq<T>>, pending: seq<T>, live: bool) {
    && t.position + |pending| <= |t.source| && pending == t.source[t.position..t.position + |pending|]
    && ChunksOf(queue, t.starts, t.source, t.position + |pending|)
    && Drawn(t.output, t.origins, t.source, t.position)
    && |t.source| % 2 == 0 && (t.position + |pending|) % 2 == 0
    && (live ==> t.position % 2 == |t.output| % 2)
  }

  // How each kind of step keeps the trace aligned.

  lemma {:induction false} SubmittedAligned<T>(
      t: Trace<T>, queue: seq<seq<T>>, pending: seq<T>, live: bool, data: seq<T>)
    requires Aligned(t, queue, pending, live) && |data| % 2 == 0
    ensures Aligned(t.(source := t.source + data), queue, pending, live)
  {
    ChunksUnqueued(queue, t.starts, t.source, t.position + |pending|, data);
    DrawnGrows(t.output, t.origins, t.source, t.position, data, t.position);
  }

  /** The trace after data was pushed and `gone` chunks were dropped for it. */
  ghost function Pushed<T>(t: Trace<T>, data: seq<T>, capacity: nat, gone: nat): Trace<T>
    requires gone <= |t.starts|
  {
    t.(source := t.source + data, starts := t.starts[gone..] + [|t.source| + |data| - |Newest(data, capacity)|])
  }

  lemma {:induction false} PushedAligned<T>(
      t: Trace<T>, queue: seq<seq<T>>, pending: seq<T>, live: bool, data: seq<T>, capacity: nat, gone: nat)
    requires Aligned(t, queue, pending, live) && gone <= |queue|
    requires data != [] && |data| % 2 == 0 && capacity >= 2 && capacity % 2 == 0
    ensures |t.starts| == |queue|
    ensures Aligned(Pushed(t, data, capacity, gone), queue[gone..] + [Newest(data, capacity)], pending, live)
  {
    PushKeepsChunks(queue, t.starts, t.source, t.position + |pending|, data, capacity, gone);
    DrawnGrows(t.output, t.origins, t.source, t.position, data, t.position);
  }

  lemma {:induction false} TakenAligned<T>(t: Trace<T>, queue: seq<seq<T>>)
    requires Aligned(t, queue, [], true) && queue != []
    ensures t.starts != [] && queue[0] != []
    ensures Aligned(t.(position := t.starts[0], starts := t.starts[1..]), queue[1..], queue[0], true)
  {
    DrawnGrows(t.output, t.origins, t.source, t.position, [], t.starts[0]);
    assert t.source + [] == t.source;
  }

  lemma {:induction false} DroppedAligned<T>(t: Trace<T>, queue: seq<seq<T>>, pending: seq<T>, live: bool)
    requires Aligned(t, queue, pending, live)
    ensures Aligned(t.(position := t.position + |pending|, starts := []), [], [], live && |pending| % 2 == 0)
  {
    DrawnGrows(t.output, t.origins, t.source, t.position, [], t.position + |pending|);
    assert t.source + [] == t.source;
  }

  lemma SliceOfSlice<T>(s: seq<T>, from: nat, m: nat, n: nat)
    requires n <= m && from + m <= |s|
    ensures s[from..from + m][..n] == s[from..from + n] && s[from..from + m][n..] == s[from + n..from + m]
  {
  }

  lemma {:induction false} WrittenAligned<T>(t: Trace<T>, queue: seq<seq<T>>, pending: seq<T>, n: nat)
    requires Aligned(t, queue, pending, true) && n <= |pending|
    ensures Aligned(t.(position := t.position + n, output := t.output + pending[..n],
                          origins := t.origins + Range(t.position, n)),
                    queue, pending[n..], true)
  {
    SliceOfSlice(t.source, t.position, |pending|, n);
    DrawMore(t.output, t.origins, t.source, t.position, t.position, n);
  }
}
