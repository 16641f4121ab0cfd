/**
  The WAV sink: submissions are queued for a worker that writes them to a recorder
  (`audio_sinks.py`, `audio_recording.py`). Every method is one atomic step of the source.
 */
module WavSink {
  import opened Prelude
  import opened Origins
  import opened ChunkQueues
  import opened AudioTraces

  /** The part of `PcmuWavRecorder` a sink uses. Whether opening, writing and closing the file fail is a parameter. */
  class PcmuWavRecorder<T> {
    var open: bool
    var packets: nat
    var samples: nat
    /** Everything written, over all the times the recorder was open. */
    ghost var recorded: seq<T>

    constructor ()
      ensures !open && recorded == [] && packets == samples == 0
    {
      open, packets, samples, recorded := false, 0, 0, [];
    }

    method Start(opens: bool) returns (ok: bool)
      modifies this`open
      ensures open == ok == (old(open) || opens)
    {
      ok := open || opens;
      open := ok;
    }

    /** `write_pcm` */
    method WritePcm(data: seq<T>, fails: bool) returns (ok: bool)
      modifies this`packets, this`samples, this`recorded
      ensures ok <==> data == [] || (|data| % 2 == 0 && open && !fails)
      ensures ok && data != [] ==>
                && recorded == old(recorded) + data && samples == old(samples) + |data| / 2
                && packets == old(packets) + 1
      ensures !ok || data == [] ==> recorded == old(recorded) && samples == old(samples) && packets == old(packets)
    {
      if data == [] {
        return true;
      }
      if |data| % 2 != 0 || !open {
        return false;
      }
      ok := !fails;
      if ok {
        recorded := recorded + data;
        packets := packets + 1;
        samples := samples + |data| / 2;
      }
    }

    method Close(fails: bool) returns (ok: bool)
      modifies this`open
      ensures !open && ok == !(old(open) && fails)
    {
      ok := !open || !fails;
      open := false;
    }
  }

  /** `NotRunning` is also a worker that has been joined. */
  datatype Worker = NotRunning | Top | Holding | Counting(written: nat) | Failing | Ended

  datatype SubmitError = IncompleteSamples | NotAccepting

  class PcmWavSink<T> {
    const recorder: PcmuWavRecorder<T>
    const capacityBytes: nat
    var queue: seq<seq<T>>
    var queuedBytes: nat
    var stopping: bool
    var failed: bool
    var bytesSubmitted: nat
    var bytesWritten: nat
    var bytesDropped: nat
    var overflows: nat
    /** Calls of `stop` that have cleared the worker and have yet to close the recorder. */
    var closing: nat
    // The worker and its own variable
    var worker: Worker
    var pending: seq<T>
    ghost var trace: Trace<T>
    /** Bytes a failing write took with it, none of them counted. */
    ghost var lost: nat

    ghost function Uncounted(): nat
      reads this
    {
      if worker.Counting? then worker.written else 0
    }

    /** Every byte submitted is accounted for, and the recorder holds those written. */
    ghost predicate Conserved()
      reads this, recorder
    {
      && bytesSubmitted == |trace.source|
      && queuedBytes == Total(queue) <= capacityBytes
      && bytesSubmitted == bytesWritten + Uncounted() + bytesDropped + queuedBytes + |pending| + lost
      && recorder.recorded == trace.output
      && |trace.output| == bytesWritten + Uncounted() == 2 * recorder.samples
    }

    ghost predicate Flags()
      reads this
    {
      && capacityBytes >= 2 && capacityBytes % 2 == 0
      && (worker != Holding && worker != Failing ==> pending == [])
      && (worker == Holding || worker == Failing ==> pending != [])
      && (worker == NotRunning || worker == Ended ==> queue == [])
      && (worker == Ended ==> stopping)
      && |pending| % 2 == 0 && |trace.output| % 2 == 0
    }

    ghost predicate Valid()
      reads this, recorder
    {
      Flags() && Conserved() && Aligned(trace, queue, pending, true)
    }

    constructor (recorder: PcmuWavRecorder<T>, capacity: nat)
      requires capacity >= 2 && recorder.recorded == [] && recorder.samples == 0
      ensures Valid() && this.recorder == recorder && worker == NotRunning && lost == closing == 0
      ensures capacityBytes == capacity - capacity % 2 && trace == Trace([], [], 0, [], [])
    {
      this.recorder := recorder;
      capacityBytes := capacity - capacity % 2;
      queue, queuedBytes, stopping, failed := [], 0, false, false;
      bytesSubmitted, bytesWritten, bytesDropped, overflows := 0, 0, 0, 0;
      worker, pending, closing := NotRunning, [], 0;
      trace, lost := Trace([], [], 0, [], []), 0;
    }

    /** `start` */
    method Start(opens: bool) returns (ok: bool)
      requires Valid()
      modifies this`stopping, this`failed, this`worker, recorder`open
      ensures Valid() && ok == (old(worker) != NotRunning || old(recorder.open) || opens)
      ensures old(worker) != NotRunning ==>
                && ok && worker == old(worker) && stopping == old(stopping)
                && failed == old(failed)
      ensures old(worker) == NotRunning ==> if ok then worker == Top && !stopping && !failed else worker == NotRunning
    {
      if worker != NotRunning {
        return true;
      }
      ok := recorder.Start(opens);
      if ok {
        stopping, failed, worker := false, false, Top;
      }
    }

    /** `submit_pcm`: what the queue has no room for is dropped, oldest first. */
    method SubmitPcm(data: seq<T>) returns (r: Result<(), SubmitError>, ghost gone: nat)
      requires Valid()
      modifies this`bytesSubmitted, this`bytesDropped, this`overflows, this`queue, this`queuedBytes, this`trace
      ensures Valid() && trace.output == old(trace.output)
      ensures r == Err(IncompleteSamples) <==> |data| % 2 != 0
      ensures r == Err(NotAccepting) <==> |data| % 2 == 0 && data != [] && (worker == NotRunning || stopping)
      ensures r.Err? || data == [] ==> trace == old(trace) && queue == old(queue) && bytesDropped == old(bytesDropped)
      ensures r.Ok? && data != [] ==>
                && trace.source == old(trace.source) + data
                && overflows == old(overflows) + (if bytesDropped > old(bytesDropped) then 1 else 0)
                && MustGo(old(queue), |Newest(data, capacityBytes)|, capacityBytes, gone)
                && queue == old(queue)[gone..] + [Newest(data, capacityBytes)]
    {
      gone := 0;
      if |data| % 2 != 0 {
        return Err(IncompleteSamples), 0;
      }
      if data == [] {
        return Ok(()), 0;
      }
      if worker == NotRunning || stopping {
        return Err(NotAccepting), 0;
      }
      gone := Enqueue(data);
      return Ok(()), gone;
    }

    /** A submission that is taken, at the cost of the oldest chunks queued. */
    method Enqueue(data: seq<T>) returns (ghost gone: nat)
      requires Valid() && |data| % 2 == 0 && data != [] && worker != NotRunning && !stopping
      modifies this`bytesSubmitted, this`bytesDropped, this`overflows, this`queue, this`queuedBytes, this`trace
      ensures Valid() && trace.output == old(trace.output) && trace.source == old(trace.source) + data
      ensures bytesDropped >= old(bytesDropped)
                && overflows == old(overflows) + if bytesDropped > old(bytesDropped) then 1 else 0
      ensures MustGo(old(queue), |Newest(data, capacityBytes)|, capacityBytes, gone)
      ensures queue == old(queue)[gone..] + [Newest(data, capacityBytes)]
    {
      var dropped;
      dropped, gone := Push(data);
      Charge(|data|, dropped);
    }

    /** Make room for the data and append it; `dropped` is what that cost. */
    method Push(data: seq<T>) returns (dropped: nat, ghost gone: nat)
      requires Valid() && |data| % 2 == 0 && data != []
      modifies this`queue, this`queuedBytes, this`trace
      ensures MustGo(old(queue), |Newest(data, capacityBytes)|, capacityBytes, gone)
      ensures queue == old(queue)[gone..] + [Newest(data, capacityBytes)]
      ensures queuedBytes == Total(queue) <= capacityBytes && queuedBytes + dropped == old(queuedBytes) + |data|
      ensures Aligned(trace, queue, pending, true)
      ensures trace.output == old(trace.output) && trace.source == old(trace.source) + data
    {
      var chunks, total;
      chunks, total, dropped, gone := PushNewest(queue, queuedBytes, data, capacityBytes);
      ghost var after := Pushed(trace, data, capacityBytes, gone);
      PushedAligned(trace, queue, pending, true, data, capacityBytes, gone);
      queue, queuedBytes, trace := chunks, total, after;
    }

    method Charge(submitted: nat, dropped: nat)
      modifies this`bytesSubmitted, this`bytesDropped, this`overflows
      ensures bytesSubmitted == old(bytesSubmitted) + submitted && bytesDropped == old(bytesDropped) + dropped
      ensures overflows == old(overflows) + if dropped > 0 then 1 else 0
    {
      bytesSubmitted := bytesSubmitted + submitted;
      if dropped > 0 {
        bytesDropped := bytesDropped + dropped;
        overflows := overflows + 1;
      }
    }

    /** The worker takes the oldest chunk; it ends only when asked to stop and nothing is left. */
    method Take()
      requires Valid() && worker == Top
      modifies this`queue, this`queuedBytes, this`pending, this`worker, this`trace
      ensures Valid() && trace.output == old(trace.output)
      ensures old(queue) == [] ==> queue == [] && pending == [] && worker == if stopping then Ended else Top
      ensures old(queue) != [] ==> worker == Holding && pending == old(queue)[0] && queue == old(queue)[1..]
    {
      if queue == [] {
        worker := if stopping then Ended else Top;
        return;
      }
      TakenAligned(trace, queue);
      ghost var after := trace.(position := trace.starts[0], starts := trace.starts[1..]);
      pending := queue[0];
      queue := queue[1..];
      queuedBytes := queuedBytes - |pending|;
      worker, trace := Holding, after;
    }

    /** `recorder.write_pcm(data)` */
    method Write(fails: bool)
      requires Valid() && worker == Holding
      modifies this`pending, this`worker, this`trace, recorder`packets, recorder`samples, recorder`recorded
      ensures Valid() && (worker == Failing <==> fails || !recorder.open)
      ensures if worker == Failing then recorder.recorded == old(recorder.recorded) && pending == old(pending)
              else worker == Counting(|old(pending)|) && recorder.recorded == old(recorder.recorded) + old(pending)
    {
      var ok := recorder.WritePcm(pending, fails);
      if !ok {
        worker := Failing;
        return;
      }
      ghost var n := |pending|;
      WrittenAligned(trace, queue, pending, n);
      ghost var after := trace.(position := trace.position + n, output := trace.output + pending[..n],
                                origins := trace.origins + Range(trace.position, n));
      worker := Counting(|pending|);
      pending, trace := [], after;
    }

    method Count()
      requires Valid() && worker.Counting?
      modifies this`worker, this`bytesWritten
      ensures Valid() && worker == Top && bytesWritten == old(bytesWritten) + old(worker).written
    {
      bytesWritten := bytesWritten + worker.written;
      worker := Top;
    }

    /** A failed write empties the queue without counting it. */
    method Fail()
      requires Valid() && worker == Failing
      modifies this`queue, this`queuedBytes, this`pending, this`worker, this`stopping, this`failed, this`trace,
               this`lost
      ensures Valid() && worker == Ended && failed && stopping && queue == []
      ensures lost == old(lost) + |old(pending)| + old(queuedBytes) && trace.output == old(trace.output)
    {
      DroppedAligned(trace, queue, pending, true);
      ghost var after := trace.(position := trace.position + |pending|, starts := []);
      lost := lost + |pending| + queuedBytes;
      failed, stopping := true, true;
      queue, queuedBytes, pending, worker, trace := [], 0, [], Ended, after;
    }

    /** `stop`, up to waiting for the worker. */
    method RequestStop()
      requires Valid()
      modifies this`stopping
      ensures Valid() && stopping == (old(stopping) || worker != NotRunning)
    {
      if worker == NotRunning {
        return;
      }
      stopping := true;
    }

    /**
      `stop`, once the worker has ended: the sink may be started again. With no write ever having
      failed, the recorder holds exactly what was submitted and not dropped, in order.
     */
    method JoinWorker() returns (workerFailed: bool)
      requires Valid() && worker == Ended
      modifies this`worker, this`closing
      ensures Valid() && worker == NotRunning && closing == old(closing) + 1 && workerFailed == failed
      ensures bytesSubmitted == bytesWritten + bytesDropped + lost
      ensures recorder.recorded == trace.output && Drawn(trace.output, trace.origins, trace.source, |trace.source|)
      ensures |recorder.recorded| == bytesSubmitted - bytesDropped - lost
      ensures recorder.samples == (bytesSubmitted - bytesDropped - lost) / 2
      ensures bytesDropped == 0 && lost == 0 ==> recorder.recorded == trace.source
    {
      worker, closing := NotRunning, closing + 1;
      workerFailed := failed;
      DrawnGrows(trace.output, trace.origins, trace.source, trace.position, [], |trace.source|);
      assert trace.source + [] == trace.source;
      if |trace.output| == |trace.source| {
        NothingMissing(trace.output, trace.origins, trace.source, |trace.source|);
        assert trace.source[..|trace.source|] == trace.source;
      }
    }

    /** The end of `stop`. A worker started since then finds its recorder closed. */
    method CloseRecorder(workerFailed: bool, fails: bool) returns (ok: bool)
      requires Valid() && closing > 0
      modifies this`closing, recorder`open
      ensures Valid() && !recorder.open && closing == old(closing) - 1
      ensures ok == (!workerFailed && !(old(recorder.open) && fails))
    {
      closing := closing - 1;
      var closed := recorder.Close(fails);
      ok := closed && !workerFailed;
    }
  }

  /** Any interleaving of the two sides keeps the laws; bytes are lost only where a write failed. */
  method AnyRun<T(0)>(sink: PcmWavSink<T>, steps: nat) returns (writeFailed: bool)
    requires sink.Valid()
    modifies sink, sink.recorder
    ensures sink.Valid()
    ensures sink.lost >= old(sink.lost) && (writeFailed <==> sink.lost > old(sink.lost))
  {
    writeFailed := false;
    for i := 0 to steps
      invariant sink.Valid()
      invariant sink.lost >= old(sink.lost) && (writeFailed <==> sink.lost > old(sink.lost))
    {
      var failedNow := AnyStep(sink);
      writeFailed := writeFailed || failedNow;
    }
  }

  method AnyStep<T(0)>(sink: PcmWavSink<T>) returns (writeFailed: bool)
    requires sink.Valid()
    modifies sink, sink.recorder
    ensures sink.Valid()
    ensures writeFailed == (sink.lost > old(sink.lost))
    ensures !writeFailed ==> sink.lost == old(sink.lost)
    ensures writeFailed ==> old(sink.worker) == Failing
  {
    var workerMoves: bool := *;
    if workerMoves {
      writeFailed := WorkerStep(sink);
    } else {
      writeFailed := false;
      CallerStep(sink);
    }
  }

  method CallerStep<T(0)>(sink: PcmWavSink<T>)
    requires sink.Valid()
    modifies sink, sink.recorder
    ensures sink.Valid() && sink.lost == old(sink.lost)
  {
    var submit: bool, stop: bool, choice: bool := *, *, *;
    if submit {
      var data: seq<T> := *;
      var _, _ := sink.SubmitPcm(data);
    } else if !stop {
      var _ := sink.Start(choice);
    } else if sink.closing > 0 && choice {
      var workerFailed: bool, fails: bool := *, *;
      var _ := sink.CloseRecorder(workerFailed, fails);
    } else if sink.worker == Ended {
      var _ := sink.JoinWorker();
    } else {
      sink.RequestStop();
    }
  }

  method WorkerStep<T(0)>(sink: PcmWavSink<T>) returns (writeFailed: bool)
    requires sink.Valid()
    modifies sink, sink.recorder
    ensures sink.Valid()
    ensures writeFailed == (sink.lost > old(sink.lost))
    ensures !writeFailed ==> sink.lost == old(sink.lost)
    ensures writeFailed ==> old(sink.worker) == Failing
  {
    writeFailed := false;
    match sink.worker
    case NotRunning =>
    case Ended =>
    case Top => sink.Take();
    case Holding =>
      var fails: bool := *;
      sink.Write(fails);
    case Counting(_) => sink.Count();
    case Failing =>
      sink.Fail();
      writeFailed := true;
  }

  /** How many steps a worker that has been asked to stop is at most from its end. */
  function StepsLeft(worker: Worker, queued: nat): nat {
    3 * queued
      + match worker
        case Top => 1
        case Counting(_) => 2
        case Failing => 1
        case Holding => 3
        case _ => 0
  }

  /** A step of a worker that has been asked to stop. */
  method StoppingStep<T(0)>(sink: PcmWavSink<T>)
    requires sink.Valid() && sink.stopping && sink.worker != NotRunning && sink.worker != Ended
    modifies sink, sink.recorder
    ensures sink.Valid() && sink.stopping && sink.worker != NotRunning
    ensures StepsLeft(sink.worker, |sink.queue|) < old(StepsLeft(sink.worker, |sink.queue|))
  {
    match sink.worker
    case Top => sink.Take();
    case Holding =>
      var fails: bool := *;
      sink.Write(fails);
    case Counting(_) => sink.Count();
    case Failing => sink.Fail();
  }

  /** Once a stop is requested the worker comes to its end by its own steps, whether or not writes fail. */
  method WorkerEnds<T(0)>(sink: PcmWavSink<T>)
    requires sink.Valid() && sink.stopping && sink.worker != NotRunning
    modifies sink, sink.recorder
    ensures sink.Valid() && sink.worker == Ended && sink.queue == []
  {
    while sink.worker != Ended
      invariant sink.Valid() && sink.stopping && sink.worker != NotRunning
      decreases StepsLeft(sink.worker, |sink.queue|)
    {
      StoppingStep(sink);
    }
  }
}
