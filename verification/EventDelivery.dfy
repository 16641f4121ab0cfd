/** The event stream of the daemon: `EventStream` with the daemon's events, JSON lines and client. */
module EventDelivery {
  import opened Prelude
  import opened Texts
  import opened JsonText
  import opened Json
  import opened Events
  import Payloads
  import opened Framing
  import opened EventClient
  import opened EventStream
  import opened EventProgress

  ghost function Encode(e: Event): Bytes {
    Dumps(Envelope(e))
  }

  /** An event stream of the daemon under the given limits. */
  ghost function Daemon(capacity: nat, publisherMax: nat, serverMax: nat, clientMax: nat): Setup<Event> {
    Setup((e: Event) => e.Valid(), (e: Event) => e.sequence, (e: Event) => e.kind == SNAPSHOT,
        (e: Event) => ValidSnapshot(e.payload),
          Encode, Decode, RereadEvent, capacity, publisherMax, serverMax, clientMax)
  }

  /** Joining surrogates makes no kind a checkpoint's. */
  lemma RereadKind(e: Event)
    ensures RereadEvent(e).kind == SNAPSHOT <==> e.kind == SNAPSHOT
  {
    LiteralIsClean("stream.snapshot");
    if Joined(e.kind) == SNAPSHOT {
      JoinedAscii(e.kind);
    }
  }

  /** A text that joins to ASCII had nothing to join. */
  lemma {:induction false} JoinedAscii(t: Text)
    requires forall i :: 0 <= i < |Joined(t)| ==> Joined(t)[i] < 128
    ensures Joined(t) == t
    decreases |t|
  {
    assert t != [] ==> Joined(t) != [] && Joined(t)[0] < 128;
    if t != [] {
      assert Joined(t) == [t[0]] + Joined(t[1..]);
      assert forall i :: 0 <= i < |Joined(t[1..])| ==> Joined(t[1..])[i] == Joined(t)[i + 1];
      JoinedAscii(t[1..]);
    }
  }

  /** `c` is the daemon's, under some limits. */
  ghost predicate IsDaemon(c: Setup<Event>) {
    && c == Daemon(c.capacity, c.publisherMax, c.serverMax, c.clientMax)
    && c.capacity >= 2 && c.publisherMax > 0 && c.serverMax > 0 && c.clientMax > 0
  }

  lemma EventFaithful(c: Setup<Event>, e: Event)
    requires IsDaemon(c) && e.Valid()
    ensures Faithful(c, e)
  {
    LineHasOneNewline(e);
    DecodeEncode(e);
    RereadKind(e);
  }

  lemma DaemonSound(c: Setup<Event>)
    requires IsDaemon(c)
    ensures Sound(c)
  {
    forall e: Event {:trigger Faithful(c, e)} | c.valid(e) ensures Faithful(c, e) {
      EventFaithful(c, e);
    }
  }

  /** Whatever the state of the connection, an event that the publisher makes and finds small enough is published. */
  lemma AcceptedIsPublished(
      c: Setup<Event>, s: State<Event>, kind: Text, payload: Payloads.Value, observedAt: Text, e: Event)
    requires IsDaemon(c) && Payloads.PythonFloats(payload) && kind != SNAPSHOT
    requires MakeEvent(|s.published| + 1, observedAt, kind, payload) == Some(e) && |Line(e)| <= c.publisherMax
    ensures Enabled(c, s, Publish(e)) && Next(c, s, Publish(e)).published == s.published + [e]
  {
  }

  lemma DaemonFields(c: Setup<Event>, e: Event)
    requires IsDaemon(c)
    ensures c.sequence(e) == e.sequence && c.reread(e) == RereadEvent(e)
  {
  }

  lemma AcceptsInOrder(c: Setup<Event>, last: Option<nat>, e: Event)
    requires IsDaemon(c)
    ensures Accepts(c, last, e) == InOrder(last, e) && c.sequence(e) == e.sequence
  {
  }

  /** A line in the buffer is the next frame of the stream. */
  lemma FrameFound(buffer: Bytes, rest: Bytes, max: nat)
    requires FindNewline(buffer).Some? && |buffer| <= max
    ensures var at := FindNewline(buffer).value;
            NextFrame(buffer + rest, max) == Frame(buffer[..at], buffer[at + 1..] + rest)
  {
    NewlineInBuffer(buffer, rest);
  }

  /** A line in the buffer is read as `EventClient.Receive` reads it from the stream. */
  lemma ReadAgrees(c: Setup<Event>, s: State<Event>, rest: Bytes)
    requires IsDaemon(c) && |s.buffer| <= c.clientMax && Enabled(c, s, ReadFrame)
    ensures var t, r := Next(c, s, ReadFrame), Received(s.buffer + rest, s.last, c.clientMax);
            && (t.reading <==> r.Ok?)
            && (r.Err? ==> r.error.Undecodable? || r.error.OutOfOrder?)
            && (r.Ok? ==>
                  && t.accepted == s.accepted + [r.value.0] && t.last == Some(r.value.0.sequence)
                  && t.buffer + rest == r.value.1)
  {
    FrameFound(s.buffer, rest, c.clientMax);
    var decoded := Decode(s.buffer[..FindNewline(s.buffer).value]);
    assert c.decode(s.buffer[..FindNewline(s.buffer).value]) == decoded;
    if decoded.Some? {
      AcceptsInOrder(c, s.last, decoded.value);
    }
  }

  /** A full buffer without a line is refused, whatever is still to come. */
  lemma RefusalAgrees(c: Setup<Event>, s: State<Event>, rest: Bytes)
    requires IsDaemon(c) && |s.buffer| <= c.clientMax && Enabled(c, s, RefuseLongLine)
    ensures Received(s.buffer + rest, s.last, c.clientMax) == Err(EventTooLong)
    ensures !Next(c, s, RefuseLongLine).reading
  {
    NoEarlyNewline(s.buffer, rest);
  }

  /** At the end of the stream a partial line is an error of its own. */
  lemma EndAgrees(c: Setup<Event>, s: State<Event>)
    requires IsDaemon(c) && |s.buffer| <= c.clientMax && Enabled(c, s, ReachEnd)
    ensures Received(s.buffer, s.last, c.clientMax) == Err(if s.buffer == [] then Disconnected else IncompleteEvent)
    ensures !Next(c, s, ReachEnd).reading
  {
  }

  /**
    Whenever the machine's client decides about its next line, it comes to what
    `EventClient.Receive` comes to on the whole rest of the stream, whatever that is.
   */
  lemma ClientAgrees(c: Setup<Event>, s: State<Event>, step: Step<Event>, rest: Bytes)
    requires IsDaemon(c) && |s.buffer| <= c.clientMax && Enabled(c, s, step)
    requires step == ReadFrame || step == RefuseLongLine || (step == ReachEnd && rest == [])
    ensures var t, r := Next(c, s, step), Received(s.buffer + rest, s.last, c.clientMax);
            && (t.reading <==> r.Ok?)
            && (r.Ok? ==>
                  && t.accepted == s.accepted + [r.value.0] && t.last == Some(r.value.0.sequence)
                  && t.buffer + rest == r.value.1)
            && (step == RefuseLongLine <==> r == Err(EventTooLong))
            && (step == ReachEnd <==> r == Err(Disconnected) || r == Err(IncompleteEvent))
  {
    match step
    case ReadFrame => ReadAgrees(c, s, rest);
    case RefuseLongLine => RefusalAgrees(c, s, rest);
    case ReachEnd =>
      EndAgrees(c, s);
      assert s.buffer + rest == s.buffer;
  }

  /**
    Over every run of publishes, drops, sends, receives and failures, the events one client has
    accepted are the checkpoint and then exactly the events published next.
   */
  lemma DaemonDelivery(c: Setup<Event>, states: seq<State<Event>>, steps: seq<Step<Event>>, n: nat)
    requires IsDaemon(c) && Run(c, states, steps) && n < |states| && states[n].accepted != []
    ensures var s := states[n];
            && s.accepted[0] == RereadEvent(s.checkpoint)
            && forall i :: 1 <= i < |s.accepted| ==>
                 && s.checkpoint.sequence + i <= |s.published|
                 && s.accepted[i] == RereadEvent(s.published[s.checkpoint.sequence + i - 1])
  {
    var s := states[n];
    DaemonSound(c);
    AcceptedIsCheckpointAndLog(c, states, steps, n);
    DeliveredAsPublished(c, s);
  }

  /**
    Delivery by the daemon: while the connection is up and the lines fit, its client can come to
    accept everything published exactly if the subscription has dropped nothing.
   */
  lemma DaemonCatchesUpIffNothingDropped(
      c: Setup<Event>, states: seq<State<Event>>, steps: seq<Step<Event>>, n: nat)
    requires IsDaemon(c) && Run(c, states, steps) && n < |states|
    requires states[n].up && states[n].reading && AllFit(c, states[n])
    ensures CanCatchUp(c, states[n]) <==> states[n].lost == []
  {
    DaemonSound(c);
    CatchesUpIffNothingDropped(c, states, steps, n);
  }

  lemma DeliveredAsPublished(c: Setup<Event>, s: State<Event>)
    requires IsDaemon(c) && s.accepted != [] && s.accepted[0] == c.reread(s.checkpoint)
    requires c.sequence(s.checkpoint) + |s.accepted| - 1 <= |s.published|
    requires forall i :: 1 <= i < |s.accepted| ==>
               s.accepted[i] == c.reread(s.published[c.sequence(s.checkpoint) + i - 1])
    ensures s.accepted[0] == RereadEvent(s.checkpoint)
    ensures forall i :: 1 <= i < |s.accepted| ==>
              && s.checkpoint.sequence + i <= |s.published|
              && s.accepted[i] == RereadEvent(s.published[s.checkpoint.sequence + i - 1])
  {
    DaemonFields(c, s.checkpoint);
    forall i | 1 <= i < |s.accepted|
      ensures s.checkpoint.sequence + i <= |s.published|
      ensures s.accepted[i] == RereadEvent(s.published[s.checkpoint.sequence + i - 1])
    {
      DaemonFields(c, s.published[s.checkpoint.sequence + i - 1]);
    }
  }
}
