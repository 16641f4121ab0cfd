/**
  The PCM stream sink: submissions from one thread, writes to a descriptor from another
  (`asterisk_moh.py`).

  Every method is one step that is atomic in the source: a lock region, or code that only the
  worker thread touches. Steps of the two sides may interleave in any order. Nothing depends on
  what a byte is, so it is a type parameter.
 */
module StreamSink {
  import opened Prelude
  import opened Origins
  import opened ChunkQueues
  import opened AudioTraces

  /** Where the worker is in its loop. */
  datatype Worker =
    | NotRunning
    | Top
    | CheckStop
    | ReadDescriptor
    | Writing
    | Counting(written: nat)
    | DroppingRest
    | ClosingReader
    | Failing
    | Done

  /** How `os.write` may end. `EPIPE` is a broken pipe; other errors but `EBADF` are alike. */
  datatype WriteOutcome =
    | Wrote(count: int)
    | WouldBlock(waitFails: bool)
    | BrokenPipe
    | BadDescriptor
    | OtherError

  datatype SubmitError = IncompleteSamples | NotStarted | SinkFailed | Stopping

  /** Every byte of the source is written, dropped, refused, queued or in hand. */
  ghost predicate Accounted<T>(
      trace: Trace<T>, queue: seq<seq<T>>, queuedBytes: nat, capacity: nat, pending: seq<T>, uncounted: nat,
      submitted: nat, written: nat, dropped: nat, refused: nat)
  {
    && submitted == |trace.source|
    && queuedBytes == Total(queue) <= capacity
    && |trace.output| == written + uncounted
    && submitted == written + uncounted + dropped + queuedBytes + |pending| + refused
  }

  class PcmStreamSink<T> {
    const capacityBytes: nat
    var queue: seq<seq<T>>
    var queuedBytes: nat
    var descriptorOpen: bool
    var started: bool
    /** Between the two lock regions of `start`. */
    var preparing: bool
    var stopping: bool
    var stopped: bool
    var stopEvent: bool
    var readerClosed: bool
    var failed: bool
    var bytesSubmitted: nat
    var bytesWritten: nat
    var bytesDropped: nat
    var overflows: nat
    // The worker's own variables
    var worker: Worker
    var pending: seq<T>
    ghost var trace: Trace<T>
    /** Bytes of submissions that raised after being counted. */
    ghost var refused: nat

    /** Bytes written that the worker has yet to count. */
    ghost function Uncounted(): nat
      reads this
    {
      if worker.Counting? then worker.written else 0
    }

    /** Every byte submitted is accounted for. */
    ghost predicate Conserved()
      reads this
    {
      Accounted(trace, queue, queuedBytes, capacityBytes, pending, Uncounted(), bytesSubmitted, bytesWritten,
                bytesDropped, refused)
    }

    ghost predicate Flags()
      reads this
    {
      && capacityBytes >= 2 && capacityBytes % 2 == 0
      && (stopEvent || readerClosed || failed ==> stopping)
      && (preparing ==> started && !stopped)
      && (preparing || !started ==> worker == NotRunning)
      && (stopped ==> started)
      && (worker == NotRunning ==> !stopping && trace.output == [])
      && (worker == NotRunning || worker == Done ==> pending == [])
      && (worker == CheckStop || worker == ReadDescriptor || worker == Writing ==> pending != [])
      && (worker == DroppingRest || worker == Done ==> stopping)
      && (worker == Done ==> queue == [])
      && (worker.Counting? ==> worker.written > 0)
    }

    ghost predicate Valid()
      reads this
    {
      Flags() && Conserved() && Aligned(trace, queue, pending, worker != Done)
    }

    constructor (capacity: nat)
      requires capacity >= 2
      ensures Valid() && capacityBytes == capacity - capacity % 2
      ensures trace == Trace([], [], 0, [], []) && worker == NotRunning && !started && !preparing
    {
      capacityBytes := capacity - capacity % 2;
      queue, queuedBytes := [], 0;
      descriptorOpen, started, preparing, stopping, stopped := false, false, false, false, false;
      stopEvent, readerClosed, failed := false, false, false;
      bytesSubmitted, bytesWritten, bytesDropped, overflows := 0, 0, 0, 0;
      worker, pending := NotRunning, [];
      trace, refused := Trace([], [], 0, [], []), 0;
    }

    /** The first lock region of `start`: a sink is started once. From here on submissions are taken. */
    method BeginStart() returns (ok: bool)
      requires Valid()
      modifies this`started, this`preparing
      ensures Valid() && started && ok == !old(started) && preparing == (old(preparing) || ok)
    {
      if started {
        return false;
      }
      started, preparing := true, true;
      return true;
    }

    /**
      The rest of `start`, once it is known whether the descriptor could be prepared. If it could
      not, the sink has stopped, and what was submitted meanwhile stays queued.
     */
    method FinishStart(prepared: bool)
      requires Valid() && preparing
      modifies this`preparing, this`stopped, this`descriptorOpen, this`worker
      ensures Valid() && !preparing
      ensures prepared ==> descriptorOpen && worker == Top && stopped == old(stopped)
      ensures !prepared ==> stopped && worker == NotRunning && descriptorOpen == old(descriptorOpen)
    {
      preparing := false;
      if prepared {
        descriptorOpen, worker := true, Top;
      } else {
        stopped := true;
      }
    }

    /** `submit_pcm`. Bytes are counted before it is known whether they are taken. */
    method SubmitPcm(data: seq<T>) returns (r: Result<(), SubmitError>, ghost gone: nat)
      requires Valid()
      modifies this`bytesSubmitted, this`bytesDropped, this`overflows, this`queue, this`queuedBytes, this`trace,
          this`refused
      ensures Valid() && trace.output == old(trace.output)
      ensures r == Err(IncompleteSamples) <==> |data| % 2 != 0
      ensures r == Err(NotStarted) <==> |data| % 2 == 0 && data != [] && !started
      ensures r == Err(SinkFailed) <==> |data| % 2 == 0 && data != [] && started && !readerClosed && failed
      ensures r == Err(Stopping) <==>
                && |data| % 2 == 0 && data != [] && started && !readerClosed && !failed
                && (stopping || stopped)
      ensures bytesSubmitted == old(bytesSubmitted) + if |data| % 2 == 0 && started then |data| else 0
      ensures if |data| % 2 == 0 && data != [] && started then trace.source == old(trace.source) + data
              else trace == old(trace)
      ensures refused == old(refused) + if r.Err? && started && |data| % 2 == 0 then |data| else 0
      ensures r.Err? || readerClosed || data == [] ==> queue == old(queue) && overflows == old(overflows)
      ensures r.Err? || data == [] ==> bytesDropped == old(bytesDropped)
      ensures r.Ok? && readerClosed ==> bytesDropped == old(bytesDropped) + |data|
      ensures r.Ok? && !readerClosed && data != [] ==>
                && overflows == old(overflows) + (if bytesDropped > old(bytesDropped) then 1 else 0)
                && MustGo(old(queue), |Newest(data, capacityBytes)|, capacityBytes, gone)
                && queue == old(queue)[gone..] + [Newest(data, capacityBytes)]
    {
      gone := 0;
      if |data| % 2 != 0 {
        return Err(IncompleteSamples), 0;
      }
      if data == [] {
        return Ok(()), 0;
      }
      if !started {
        return Err(NotStarted), 0;
      }
      r, gone := SubmitStarted(data);
    }

    /** A submission to a sink that has been started. */
    method SubmitStarted(data: seq<T>) returns (r: Result<(), SubmitError>, ghost gone: nat)
      requires Valid() && |data| % 2 == 0 && data != [] && started
      modifies this`bytesSubmitted, this`bytesDropped, this`overflows, this`queue, this`queuedBytes, this`trace,
          this`refused
      ensures Valid() && trace.output == old(trace.output) && trace.source == old(trace.source) + data
      ensures bytesSubmitted == old(bytesSubmitted) + |data|
      ensures r == if readerClosed then Ok(()) else if failed then Err(SinkFailed)
                   else if stopping || stopped then Err(Stopping) else Ok(())
      ensures refused == old(refused) + if r.Err? then |data| else 0
      ensures r.Err? || readerClosed ==> queue == old(queue) && overflows == old(overflows)
      ensures r.Err? ==> bytesDropped == old(bytesDropped)
      ensures r.Ok? && readerClosed ==> bytesDropped == old(bytesDropped) + |data|
      ensures r.Ok? && !readerClosed ==>
                && overflows == old(overflows) + (if bytesDropped > old(bytesDropped) then 1 else 0)
                && MustGo(old(queue), |Newest(data, capacityBytes)|, capacityBytes, gone)
                && queue == old(queue)[gone..] + [Newest(data, capacityBytes)]
    {
      gone := 0;
      if readerClosed || failed || stopping || stopped {
        r := Refuse(data);
      } else {
        gone := Enqueue(data);
        r := Ok(());
      }
    }

    /** A submission that is counted but not queued. */
    method Refuse(data: seq<T>) returns (r: Result<(), SubmitError>)
      requires Valid() && |data| % 2 == 0 && (readerClosed || failed || stopping || stopped)
      modifies this`bytesSubmitted, this`bytesDropped, this`trace, this`refused
      ensures Valid() && trace == old(trace).(source := old(trace).source + data)
      ensures bytesSubmitted == old(bytesSubmitted) + |data|
      ensures r == if readerClosed then Ok(()) else Err(if failed then SinkFailed else Stopping)
      ensures bytesDropped == old(bytesDropped) + if readerClosed then |data| else 0
      ensures refused == old(refused) + if readerClosed then 0 else |data|
    {
      bytesSubmitted := bytesSubmitted + |data|;
      SubmittedAligned(trace, queue, pending, worker != Done, data);
      trace := trace.(source := trace.source + data);
      if readerClosed {
        bytesDropped := bytesDropped + |data|;
        return Ok(());
      }
      refused := refused + |data|;
      return Err(if failed then SinkFailed else Stopping);
    }

    /** A submission that is taken, at the cost of the oldest chunks queued. */
    method Enqueue(data: seq<T>) returns (ghost gone: nat)
      requires Valid() && |data| % 2 == 0 && data != [] && !stopping
      modifies this`bytesSubmitted, this`bytesDropped, this`overflows, this`queue, this`queuedBytes, this`trace
      ensures Valid() && trace.output == old(trace.output) && trace.source == old(trace.source) + data
      ensures bytesSubmitted == old(bytesSubmitted) + |data|
      ensures bytesDropped >= old(bytesDropped)
                && overflows == old(overflows) + if bytesDropped > old(bytesDropped) then 1 else 0
      ensures MustGo(old(queue), |Newest(data, capacityBytes)|, capacityBytes, gone)
      ensures queue == old(queue)[gone..] + [Newest(data, capacityBytes)]
    {
      var dropped;
      dropped, gone := Push(data);
      Charge(|data|, dropped);
    }

    /** Make room for the data and append it; `dropped` is what that cost. */
    method Push(data: seq<T>) returns (dropped: nat, ghost gone: nat)
      requires Valid() && |data| % 2 == 0 && data != [] && worker != Done
      modifies this`queue, this`queuedBytes, this`trace
      ensures MustGo(old(queue), |Newest(data, capacityBytes)|, capacityBytes, gone)
      ensures queue == old(queue)[gone..] + [Newest(data, capacityBytes)]
      ensures queuedBytes == Total(queue) <= capacityBytes && queuedBytes + dropped == old(queuedBytes) + |data|
      ensures Aligned(trace, queue, pending, true)
      ensures trace.output == old(trace.output) && trace.source == old(trace.source) + data
    {
      var chunks, total;
      chunks, total, dropped, gone := PushNewest(queue, queuedBytes, data, capacityBytes);
      ghost var after := Pushed(trace, data, capacityBytes, gone);
      PushedAligned(trace, queue, pending, true, data, capacityBytes, gone);
      queue, queuedBytes, trace := chunks, total, after;
    }

    method Charge(submitted: nat, dropped: nat)
      modifies this`bytesSubmitted, this`bytesDropped, this`overflows
      ensures bytesSubmitted == old(bytesSubmitted) + submitted && bytesDropped == old(bytesDropped) + dropped
      ensures overflows == old(overflows) + if dropped > 0 then 1 else 0
    {
      bytesSubmitted := bytesSubmitted + submitted;
      if dropped > 0 {
        bytesDropped := bytesDropped + dropped;
        overflows := overflows + 1;
      }
    }

    /** `stop`, up to waiting for the worker. */
    method RequestStop()
      requires Valid()
      modifies this`stopping, this`stopEvent
      ensures Valid()
      ensures worker == NotRunning || stopped ==> stopping == old(stopping) && stopEvent == old(stopEvent)
      ensures worker != NotRunning && !stopped ==> stopping && stopEvent
    {
      if worker == NotRunning || stopped {
        return;
      }
      stopping, stopEvent := true, true;
    }

    /** `stop`, when the worker does not end in time, or after it has. */
    method CloseDescriptor(last: bool)
      requires Valid() && stopEvent
      modifies this`descriptorOpen, this`stopped
      ensures Valid() && !descriptorOpen && stopped == (old(stopped) || last)
    {
      descriptorOpen := false;
      stopped := stopped || last;
    }

    /** The worker takes the oldest chunk, if it holds none; it may have to wait. */
    method Take()
      requires Valid() && worker == Top
      modifies this`queue, this`queuedBytes, this`pending, this`worker, this`bytesDropped, this`trace
      ensures Valid() && trace.output == old(trace.output)
      ensures old(pending) != [] ==>
                && worker == CheckStop && pending == old(pending) && queue == old(queue)
                && bytesDropped == old(bytesDropped)
      ensures old(pending) == [] && stopping ==> worker == Done && bytesDropped == old(bytesDropped) + old(queuedBytes)
      ensures old(pending) == [] && !stopping && old(queue) == [] ==> worker == Top && pending == []
      ensures old(pending) == [] && !stopping && old(queue) != [] ==>
                worker == CheckStop && pending == old(queue)[0] && queue == old(queue)[1..]
                    && bytesDropped == old(bytesDropped)
    {
      if pending != [] {
        worker := CheckStop;
        return;
      }
      if queue == [] && !stopping {
        return;
      }
      if stopping {
        DropRemaining();
        return;
      }
      TakeOldest();
    }

    method TakeOldest()
      requires Valid() && worker == Top && pending == [] && queue != []
      modifies this`queue, this`queuedBytes, this`pending, this`worker, this`trace
      ensures Valid() && trace.output == old(trace.output)
      ensures worker == CheckStop && pending == old(queue)[0] && queue == old(queue)[1..]
    {
      TakenAligned(trace, queue);
      pending, queue := queue[0], queue[1..];
      queuedBytes := queuedBytes - |pending|;
      trace := trace.(position := trace.starts[0], starts := trace.starts[1..]);
      worker := CheckStop;
    }

    /** `_drop_remaining_locked`, in a lock region with which the worker ends. */
    method DropRemaining()
      requires Valid() && stopping && !worker.Counting?
      modifies this`queue, this`queuedBytes, this`pending, this`worker, this`bytesDropped, this`trace
      ensures Valid() && worker == Done && trace.output == old(trace.output)
      ensures bytesDropped == old(bytesDropped) + old(queuedBytes) + |old(pending)|
    {
      var dropped := |pending| + queuedBytes;
      if dropped > 0 {
        bytesDropped := bytesDropped + dropped;
      }
      DroppedAligned(trace, queue, pending, worker != Done);
      trace := trace.(position := trace.position + |pending|, starts := []);
      queue, queuedBytes, pending := [], 0, [];
      worker := Done;
    }

    /** The worker looks for a stop request before it writes. */
    method CheckForStop()
      requires Valid() && worker == CheckStop
      modifies this`worker
      ensures Valid() && worker == if stopEvent then DroppingRest else ReadDescriptor
    {
      worker := if stopEvent then DroppingRest else ReadDescriptor;
    }

    method FetchDescriptor()
      requires Valid() && worker == ReadDescriptor
      modifies this`worker
      ensures Valid()
      ensures worker == if descriptorOpen then Writing else if stopping then DroppingRest else Failing
    {
      worker := if descriptorOpen then Writing else if stopping then DroppingRest else Failing;
    }

    /** The worker writes from the chunk in hand, perhaps only part of it. */
    method Write(outcome: WriteOutcome)
      requires Valid() && worker == Writing
      modifies this`worker, this`pending, this`trace
      ensures Valid()
      ensures outcome.Wrote? && 0 < outcome.count <= |old(pending)| ==>
                && worker == Counting(outcome.count)
                && trace.output == old(trace.output) + old(pending)[..outcome.count]
                    && pending == old(pending)[outcome.count..]
      ensures !(outcome.Wrote? && 0 < outcome.count <= |old(pending)|) ==>
                && trace == old(trace) && pending == old(pending)
                && worker == match outcome
                             case WouldBlock(waitFails) => if waitFails then Failing else Top
                             case BrokenPipe => ClosingReader
                             case BadDescriptor => if stopping then DroppingRest else Failing
                             case _ => Failing
    {
      match outcome
      case Wrote(count) =>
        if count <= 0 || count > |pending| {
          worker := Failing;
        } else {
          Advance(count);
        }
      case WouldBlock(waitFails) => worker := if waitFails then Failing else Top;
      case BrokenPipe => worker := ClosingReader;
      case BadDescriptor => worker := if stopping then DroppingRest else Failing;
      case OtherError => worker := Failing;
    }

    /** The descriptor has taken `count` bytes. */
    method Advance(count: nat)
      requires Valid() && worker == Writing && 0 < count <= |pending|
      modifies this`worker, this`pending, this`trace
      ensures Valid() && worker == Counting(count)
      ensures trace.output == old(trace.output) + old(pending)[..count] && pending == old(pending)[count..]
    {
      WrittenAligned(trace, queue, pending, count);
      ghost var after := trace.(position := trace.position + count, output := trace.output + pending[..count],
                                origins := trace.origins + Range(trace.position, count));
      pending := pending[count..];
      worker, trace := Counting(count), after;
    }

    method Count()
      requires Valid() && worker.Counting?
      modifies this`worker, this`bytesWritten
      ensures Valid() && worker == Top && bytesWritten == old(bytesWritten) + old(worker).written
    {
      bytesWritten := bytesWritten + worker.written;
      worker := Top;
    }

    /** The lock regions in which the worker ends. */
    method End()
      requires Valid() && (worker == DroppingRest || worker == ClosingReader || worker == Failing)
      modifies this`queue, this`queuedBytes, this`pending, this`worker, this`bytesDropped, this`trace,
               this`readerClosed, this`stopping, this`failed
      ensures Valid() && worker == Done && stopping && trace.output == old(trace.output)
      ensures readerClosed == (old(readerClosed) || old(worker) == ClosingReader)
      ensures failed == (old(failed) || old(worker) == Failing)
      ensures bytesDropped == old(bytesDropped) + old(queuedBytes) + |old(pending)|
    {
      if worker == ClosingReader {
        readerClosed := true;
      } else if worker == Failing {
        failed := true;
      }
      stopping := true;
      DropRemaining();
    }
  }

  /** A worker that has ended after nothing was dropped or refused has written exactly what was submitted. */
  lemma NothingDropped<T>(sink: PcmStreamSink<T>)
    requires sink.Valid() && sink.worker == Done && sink.bytesDropped == 0 && sink.refused == 0
    ensures sink.trace.output == sink.trace.source
  {
    var t := sink.trace;
    DrawnGrows(t.output, t.origins, t.source, t.position, [], |t.source|);
    assert t.source + [] == t.source;
    NothingMissing(t.output, t.origins, t.source, |t.source|);
    assert t.source[..|t.source|] == t.source;
  }

  /**
    Any interleaving of starting, submitting, stopping and the worker: at every step the laws of
    the sink hold. Once the worker has ended nothing is queued or in hand. A sink that could not be
    started writes nothing, and keeps what it took while its descriptor was being prepared.
   */
  method AnyRun<T(0)>(sink: PcmStreamSink<T>, steps: nat)
    requires sink.Valid()
    modifies sink
    ensures sink.Valid()
    ensures sink.worker == Done ==>
              && sink.bytesSubmitted == sink.bytesWritten + sink.bytesDropped + sink.refused
              && sink.queuedBytes == 0 && sink.queue == [] && sink.pending == []
    ensures old(sink.worker) == Done ==> sink.worker == Done && sink.trace.output == old(sink.trace.output)
    ensures sink.worker == NotRunning ==>
              && sink.bytesSubmitted == sink.queuedBytes + sink.bytesDropped + sink.refused
              && sink.bytesWritten == 0 && sink.pending == []
    ensures old(StartFailed(sink)) ==> StartFailed(sink) && sink.queue == old(sink.queue)
  {
    for i := 0 to steps
      invariant sink.Valid()
      invariant old(sink.worker) == Done ==> sink.worker == Done && sink.trace.output == old(sink.trace.output)
      invariant old(StartFailed(sink)) ==> StartFailed(sink) && sink.queue == old(sink.queue)
    {
      AnyStep(sink);
    }
  }

  /** The descriptor of the sink could not be prepared. */
  ghost predicate StartFailed<T>(sink: PcmStreamSink<T>)
    reads sink
  {
    sink.worker == NotRunning && sink.started && sink.stopped
  }

  method AnyStep<T(0)>(sink: PcmStreamSink<T>)
    requires sink.Valid()
    modifies sink
    ensures sink.Valid()
    ensures old(sink.worker) == Done ==> sink.worker == Done && sink.trace.output == old(sink.trace.output)
    ensures old(StartFailed(sink)) ==> StartFailed(sink) && sink.queue == old(sink.queue)
  {
    var workerMoves: bool := *;
    if workerMoves {
      WorkerStep(sink);
    } else {
      CallerStep(sink);
    }
  }

  method CallerStep<T(0)>(sink: PcmStreamSink<T>)
    requires sink.Valid()
    modifies sink
    ensures sink.Valid()
    ensures old(sink.worker) == Done ==> sink.worker == Done && sink.trace.output == old(sink.trace.output)
    ensures old(StartFailed(sink)) ==> StartFailed(sink) && sink.queue == old(sink.queue)
  {
    var submit: bool, start: bool, choice: bool := *, *, *;
    if submit {
      var data: seq<T> := *;
      var _, _ := sink.SubmitPcm(data);
    } else if start && sink.preparing {
      sink.FinishStart(choice);
    } else if start {
      var _ := sink.BeginStart();
    } else if sink.stopEvent {
      sink.CloseDescriptor(choice);
    } else {
      sink.RequestStop();
    }
  }

  method WorkerStep<T(0)>(sink: PcmStreamSink<T>)
    requires sink.Valid()
    modifies sink
    ensures sink.Valid()
    ensures old(sink.worker) == Done ==> sink.worker == Done && sink.trace.output == old(sink.trace.output)
    ensures old(StartFailed(sink)) ==> StartFailed(sink) && sink.queue == old(sink.queue)
  {
    match sink.worker
    case NotRunning =>
    case Done =>
    case Top => sink.Take();
    case CheckStop => sink.CheckForStop();
    case ReadDescriptor => sink.FetchDescriptor();
    case Writing =>
      var outcome: WriteOutcome := *;
      sink.Write(outcome);
    case Counting(_) => sink.Count();
    case _ => sink.End();
  }

  /** How many steps a worker that has been asked to stop is at most from its end. */
  function StepsLeft(worker: Worker): nat {
    match worker
    case NotRunning => 0
    case Done => 0
    case CheckStop => 2
    case Top => 3
    case Counting(_) => 4
    case Writing => 5
    case ReadDescriptor => 6
    case _ => 1
  }

  /** A step of a worker that has been asked to stop. */
  method StoppingStep<T(0)>(sink: PcmStreamSink<T>)
    requires sink.Valid() && sink.stopEvent && sink.worker != NotRunning && sink.worker != Done
    modifies sink
    ensures sink.Valid() && sink.stopEvent && StepsLeft(sink.worker) < old(StepsLeft(sink.worker))
    ensures sink.worker != NotRunning
  {
    match sink.worker
    case Top => sink.Take();
    case CheckStop => sink.CheckForStop();
    case ReadDescriptor => sink.FetchDescriptor();
    case Writing =>
      var outcome: WriteOutcome := *;
      sink.Write(outcome);
    case Counting(_) => sink.Count();
    case DroppingRest => sink.End();
    case ClosingReader => sink.End();
    case Failing => sink.End();
  }

  /** Once a stop is requested the worker ends within six of its own steps, whatever its writes come to. */
  method WorkerEnds<T(0)>(sink: PcmStreamSink<T>)
    requires sink.Valid() && sink.stopEvent && sink.worker != NotRunning
    modifies sink
    ensures sink.Valid() && sink.worker == Done && sink.queue == []
  {
    while sink.worker != Done
      invariant sink.Valid() && sink.stopEvent && sink.worker != NotRunning
      decreases StepsLeft(sink.worker)
    {
      StoppingStep(sink);
    }
  }
}
