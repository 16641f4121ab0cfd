/** The bounded newest-audio byte buffer and the playback sink on top of it (`audio_sinks.py`). */
module PcmBuffers {
  import opened Prelude
  import opened JsonText
  import opened Origins

  const PCM_SAMPLE_WIDTH := 2
  const PCM_BYTES_PER_SECOND := 16000

  datatype PcmError = IncompleteSamples | BadSize

  function Excess(length: nat, capacity: nat): nat {
    if length > capacity then length - capacity else 0
  }

  lemma NewestAbsorbs(s: Bytes, t: Bytes, n: nat)
    ensures Newest(Newest(s, n) + t, n) == Newest(s + t, n)
  {
  }

  /** Pushing twice is pushing once: the same bytes are kept, and as many are lost. */
  lemma PushesCompose(s: Bytes, t: Bytes, u: Bytes, capacity: nat)
    ensures Newest(Newest(s + t, capacity) + u, capacity) == Newest(s + (t + u), capacity)
    ensures Excess(|s + t|, capacity) + Excess(|Newest(s + t, capacity) + u|, capacity)
          == Excess(|s + (t + u)|, capacity)
  {
    assert (s + t) + u == s + (t + u);
    NewestAbsorbs(s + t, u, capacity);
  }

  /** Dropping the excess from the front, first of the content and then of the new data, keeps the newest bytes. */
  lemma KeptIsNewest(data: Bytes, pcm: Bytes, capacity: nat, kept: Bytes, rest: Bytes)
    requires var lost := Excess(|data| + |pcm|, capacity);
             if lost <= |data| then kept == data[lost..] && rest == pcm
             else lost - |data| <= |pcm| && kept == [] && rest == pcm[lost - |data|..]
    ensures kept + rest == Newest(data + pcm, capacity)
  {
  }

  /** The newest part of a suffix with more data is a suffix of all the data. */
  lemma NewestOfHistory(history: Bytes, from: nat, pcm: Bytes, lost: nat, capacity: nat)
    requires from <= |history| && lost == Excess(|history| - from + |pcm|, capacity)
    ensures from + lost <= |history + pcm|
    ensures Newest(history[from..] + pcm, capacity) == (history + pcm)[from + lost..]
  {
  }

  lemma NewestIsWhole(data: Bytes, pcm: Bytes, capacity: nat)
    requires |data| % PCM_SAMPLE_WIDTH == |pcm| % PCM_SAMPLE_WIDTH == capacity % PCM_SAMPLE_WIDTH == 0
    ensures |Newest(data + pcm, capacity)| % PCM_SAMPLE_WIDTH == 0
  {
  }

  /** Sums and differences of whole samples are whole samples. */
  lemma WholeSamples(a: nat, b: nat)
    requires a % PCM_SAMPLE_WIDTH == b % PCM_SAMPLE_WIDTH == 0
    ensures (a + b) % PCM_SAMPLE_WIDTH == 0 && (a >= b ==> (a - b) % PCM_SAMPLE_WIDTH == 0)
  {
  }

  /** `bytes(n)` */
  function Silence(n: nat): (s: Bytes)
    ensures |s| == n && forall i :: 0 <= i < n ==> s[i] == 0
  {
    seq(n, i => 0)
  }

  class PcmBuffer {
    const capacityBytes: nat
    var data: Bytes
    /** Every byte ever pushed, and how many of them were popped, dropped and cleared. */
    ghost var history: Bytes
    ghost var popped: nat
    ghost var dropped: nat
    ghost var cleared: nat

    /** The content is the newest part of what was pushed, the oldest bytes having left first. */
    ghost predicate Valid()
      reads this
    {
      && capacityBytes >= PCM_SAMPLE_WIDTH && capacityBytes % PCM_SAMPLE_WIDTH == 0
      && |data| <= capacityBytes && |data| % PCM_SAMPLE_WIDTH == 0
      && popped + dropped + cleared <= |history|
      && data == history[popped + dropped + cleared..]
    }

    constructor (capacity: nat)
      requires capacity >= PCM_SAMPLE_WIDTH
      ensures Valid() && capacityBytes == capacity - capacity % PCM_SAMPLE_WIDTH
      ensures history == [] && popped == dropped == cleared == 0
    {
      capacityBytes := capacity - capacity % PCM_SAMPLE_WIDTH;
      data := [];
      history, popped, dropped, cleared := [], 0, 0, 0;
    }

    method Clear()
      requires Valid()
      modifies this
      ensures Valid() && data == [] && cleared == old(cleared) + |old(data)|
      ensures history == old(history) && popped == old(popped) && dropped == old(dropped)
    {
      cleared := cleared + |data|;
      data := [];
    }

    /** `push`: keep the newest bytes of the old content and the new data, and say how many were lost. */
    method Push(pcm: Bytes) returns (r: Result<nat, PcmError>)
      requires Valid()
      modifies this
      ensures Valid() && popped == old(popped) && cleared == old(cleared)
      ensures r.Err? <==> |pcm| % PCM_SAMPLE_WIDTH != 0
      ensures r.Err? ==> r.error == IncompleteSamples
      ensures r.Err? ==> data == old(data) && history == old(history) && dropped == old(dropped)
      ensures r.Ok? ==> history == old(history) + pcm && data == Newest(old(data) + pcm, capacityBytes)
      ensures r.Ok? ==> r.value == Excess(|old(data)| + |pcm|, capacityBytes) && dropped == old(dropped) + r.value
    {
      if |pcm| % PCM_SAMPLE_WIDTH != 0 {
        return Err(IncompleteSamples);
      }
      if pcm == [] {
        assert data + pcm == data && history + pcm == history;
        return Ok(0);
      }
      var total := |data| + |pcm|;
      var lost := if total > capacityBytes then total - capacityBytes else 0;
      var kept, rest := data, pcm;
      if lost > 0 {
        var fromExisting := if lost <= |data| then lost else |data|;
        kept := data[fromExisting..];
        var fromNew := lost - fromExisting;
        if fromNew > 0 {
          rest := rest[fromNew..];
        }
      }
      KeptIsNewest(data, pcm, capacityBytes, kept, rest);
      NewestIsWhole(data, pcm, capacityBytes);
      NewestOfHistory(history, popped + dropped + cleared, pcm, lost, capacityBytes);
      data := kept + rest;
      history, dropped := history + pcm, dropped + lost;
      return Ok(lost);
    }

    /** `pop`: the oldest bytes, in whole samples. */
    method Pop(size: int) returns (r: Result<Bytes, PcmError>)
      requires Valid()
      modifies this
      ensures Valid() && history == old(history) && dropped == old(dropped) && cleared == old(cleared)
      ensures r.Err? <==> size < 0
      ensures r.Err? ==> r.error == BadSize && data == old(data) && popped == old(popped)
      ensures r.Ok? ==> old(data) == r.value + data && popped == old(popped) + |r.value|
      ensures r.Ok? ==> |r.value| % PCM_SAMPLE_WIDTH == 0 && |r.value| <= size
      ensures r.Ok? && data != [] ==> |r.value| == size - size % PCM_SAMPLE_WIDTH
    {
      if size < 0 {
        return Err(BadSize);
      }
      var whole := size - size % PCM_SAMPLE_WIDTH;
      var available := if whole <= |data| then whole else |data|;
      r := Ok(data[..available]);
      popped := popped + available;
      assert data == data[..available] + data[available..];
      data := data[available..];
    }
  }

  lemma SuffixStart(history: Bytes, from: nat, suffix: Bytes, first: Bytes, rest: Bytes)
    requires from <= |history| && suffix == history[from..] == first + rest
    ensures from + |first| <= |history| && history[from..from + |first|] == first
  {
    assert suffix[..|first|] == first;
  }

  class BufferedPlaybackSink {
    const buffer: PcmBuffer
    var adapterOpen: bool
    var bytesSubmitted: nat
    var bytesWritten: nat
    var bytesDropped: nat
    var underflows: nat
    var overflows: nat
    var muted: bool
    /** What has been read, silence excluded. */
    ghost var output: Bytes
    ghost var origins: seq<nat>

    /**
      Every byte submitted was written, dropped or cleared, or is queued; what was written is in
      the order of submission and in step with its samples.
     */
    ghost predicate Valid()
      reads this, buffer
    {
      && buffer.Valid()
      && bytesSubmitted == |buffer.history|
      && bytesWritten == buffer.popped == |output|
      && bytesDropped == buffer.dropped
      && bytesSubmitted == bytesWritten + bytesDropped + |buffer.data| + buffer.cleared
      && (muted ==> buffer.data == [])
      && overflows <= bytesDropped
      && Drawn(output, origins, buffer.history, buffer.popped + buffer.dropped + buffer.cleared)
      && |output| % PCM_SAMPLE_WIDTH == |buffer.history| % PCM_SAMPLE_WIDTH == 0
    }

    constructor (bufferMs: nat)
      requires bufferMs > 0
      ensures Valid() && fresh(buffer) && !muted && !adapterOpen && buffer.history == []
      ensures var capacity := PCM_BYTES_PER_SECOND * bufferMs / 1000;
              buffer.capacityBytes == if capacity < PCM_SAMPLE_WIDTH then PCM_SAMPLE_WIDTH
                  else capacity - capacity % PCM_SAMPLE_WIDTH
    {
      var capacity := PCM_BYTES_PER_SECOND * bufferMs / 1000;
      buffer := new PcmBuffer(if capacity < PCM_SAMPLE_WIDTH then PCM_SAMPLE_WIDTH else capacity);
      adapterOpen, muted := false, false;
      bytesSubmitted, bytesWritten, bytesDropped, underflows, overflows := 0, 0, 0, 0, 0;
      output, origins := [], [];
    }

    /** `start`: nothing is queued or counted by opening the adapter; `opens` says whether it can be. */
    method Start(opens: bool) returns (ok: bool)
      requires Valid()
      modifies this`adapterOpen
      ensures Valid() && adapterOpen == ok == (old(adapterOpen) || opens)
    {
      ok := adapterOpen || opens;
      adapterOpen := ok;
    }

    method SetMuted(mute: bool)
      requires Valid()
      modifies this`muted, buffer
      ensures Valid() && muted == mute && buffer.history == old(buffer.history)
      ensures !mute ==> buffer.data == old(buffer.data)
    {
      muted := mute;
      if mute {
        DrawnGrows(output, origins, buffer.history, |buffer.history| - |buffer.data|, [], |buffer.history|);
        assert buffer.history + [] == buffer.history;
        buffer.Clear();
      }
    }

    /** `submit_pcm`: a muted sink takes nothing. */
    method SubmitPcm(pcm: Bytes) returns (r: Result<(), PcmError>)
      requires Valid()
      modifies this`bytesSubmitted, this`bytesDropped, this`overflows, buffer
      ensures Valid()
      ensures muted || r.Err? ==> buffer.data == old(buffer.data) && bytesSubmitted == old(bytesSubmitted)
                                  && bytesDropped == old(bytesDropped) && overflows == old(overflows)
      ensures r == Err(IncompleteSamples) <==> !muted && |pcm| % PCM_SAMPLE_WIDTH != 0
      ensures r.Err? ==> r.error == IncompleteSamples
      ensures !muted && r.Ok? ==>
                && buffer.history == old(buffer.history) + pcm
                && buffer.data == Newest(old(buffer.data) + pcm, buffer.capacityBytes)
                && bytesSubmitted == old(bytesSubmitted) + |pcm|
                && bytesDropped == old(bytesDropped) + Excess(|old(buffer.data)| + |pcm|, buffer.capacityBytes)
                && overflows == old(overflows) + if bytesDropped > old(bytesDropped) then 1 else 0
    {
      if muted {
        return Ok(());
      }
      if |pcm| % PCM_SAMPLE_WIDTH != 0 {
        var pushed := buffer.Push(pcm);
        return Err(pushed.error);
      }
      QueuePcm(pcm);
      return Ok(());
    }

    /** Whole samples submitted to a sink that is not muted. */
    method QueuePcm(pcm: Bytes)
      requires Valid() && !muted && |pcm| % PCM_SAMPLE_WIDTH == 0
      modifies this`bytesSubmitted, this`bytesDropped, this`overflows, buffer
      ensures Valid() && buffer.history == old(buffer.history) + pcm
      ensures buffer.data == Newest(old(buffer.data) + pcm, buffer.capacityBytes)
      ensures bytesSubmitted == old(bytesSubmitted) + |pcm|
      ensures bytesDropped == old(bytesDropped) + Excess(|old(buffer.data)| + |pcm|, buffer.capacityBytes)
      ensures overflows == old(overflows) + if bytesDropped > old(bytesDropped) then 1 else 0
    {
      ghost var before, from := buffer.history, |buffer.history| - |buffer.data|;
      var pushed := buffer.Push(pcm);
      var lost := pushed.value;
      WholeSamples(|before|, |pcm|);
      DrawnGrows(output, origins, before, from, pcm, |buffer.history| - |buffer.data|);
      bytesSubmitted := bytesSubmitted + |pcm|;
      bytesDropped := bytesDropped + lost;
      overflows := overflows + if lost > 0 then 1 else 0;
    }

    /** `_read_pcm`: exactly the bytes asked for, the oldest ones first, and silence once they run out. */
    method ReadPcm(size: int) returns (r: Result<Bytes, PcmError>)
      requires Valid()
      modifies this`bytesWritten, this`underflows, this`output, this`origins, buffer
      ensures Valid() && buffer.history == old(buffer.history)
      ensures r == Err(BadSize) <==> size < 0 || size % PCM_SAMPLE_WIDTH != 0
      ensures r.Err? ==> r.error == BadSize
      ensures r.Err? || muted ==>
                && buffer.data == old(buffer.data) && bytesWritten == old(bytesWritten)
                && underflows == old(underflows)
      ensures r.Ok? ==> |r.value| == size
      ensures r.Ok? && muted ==> r.value == Silence(size)
      ensures r.Ok? && !muted ==>
                var n := bytesWritten - old(bytesWritten);
                && 0 <= n <= size && n <= |old(buffer.data)|
                && r.value == old(buffer.data)[..n] + Silence(size - n)
                && buffer.data == old(buffer.data)[n..]
                && output == old(output) + r.value[..n]
                && (n < size ==> buffer.data == [])
                && underflows == old(underflows) + if n < size then 1 else 0
    {
      if size < 0 || size % PCM_SAMPLE_WIDTH != 0 {
        return Err(BadSize);
      }
      if muted {
        return Ok(Silence(size));
      }
      var pcm := Drain(size);
      var missing := size - |pcm|;
      if missing > 0 {
        underflows := underflows + 1;
      }
      assert (pcm + Silence(missing))[..|pcm|] == pcm;
      return Ok(pcm + Silence(missing));
    }

    /** The queued bytes a read gets. */
    method Drain(size: nat) returns (pcm: Bytes)
      requires Valid() && !muted && size % PCM_SAMPLE_WIDTH == 0
      modifies this`bytesWritten, this`output, this`origins, buffer
      ensures Valid() && buffer.history == old(buffer.history) && old(buffer.data) == pcm + buffer.data
      ensures |pcm| <= size && (buffer.data != [] ==> |pcm| == size)
      ensures bytesWritten == old(bytesWritten) + |pcm| && output == old(output) + pcm
    {
      ghost var before, from := buffer.data, |buffer.history| - |buffer.data|;
      WholeSamples(|buffer.history|, |buffer.data|);
      var popped := buffer.Pop(size);
      pcm := popped.value;
      WholeSamples(|output|, |pcm|);
      SuffixStart(buffer.history, from, before, pcm, buffer.data);
      DrawMore(output, origins, buffer.history, from, from, |pcm|);
      bytesWritten := bytesWritten + |pcm|;
      output, origins := output + pcm, origins + Range(from, |pcm|);
    }

    /** `stop`: only a started sink drops what it holds, whether or not the adapter closes. */
    method Stop()
      requires Valid()
      modifies this`adapterOpen, buffer
      ensures Valid() && !adapterOpen && buffer.history == old(buffer.history)
      ensures buffer.data == if old(adapterOpen) then [] else old(buffer.data)
    {
      if !adapterOpen {
        return;
      }
      adapterOpen := false;
      DrawnGrows(output, origins, buffer.history, |buffer.history| - |buffer.data|, [], |buffer.history|);
      assert buffer.history + [] == buffer.history;
      buffer.Clear();
    }
  }
}
