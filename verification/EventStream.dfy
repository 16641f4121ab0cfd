/**
  One event connection from end to end, as a state machine: the publisher's log, the bounded
  subscription, the server's send loop, the byte stream in arbitrary chunks, and the client
  (`daemon_events.py`, `daemon_event_server.py`, `daemon_event_client.py`).

  Each step is atomic in the source: it holds a lock, or touches what one thread owns. The
  machine is stated for any kind of event and any line encoding; `EventDelivery` supplies the
  daemon's.
 */
module EventStream {
  import opened Prelude
  import opened JsonText
  import opened BoundedQueues
  import opened Framing

  /** What the machine has to know of events and of their lines, which come without their newline; and the limits. */
  datatype Setup<!E> = Setup(
    valid: E -> bool, sequence: E -> nat, isSnapshot: E -> bool, startsClient: E -> bool,
    encode: E -> Bytes, decode: Bytes -> Option<E>, reread: E -> E,
    capacity: nat, publisherMax: nat, serverMax: nat, clientMax: nat)

  /** Valid events have one-line encodings, which decode to events that differ only in their text. */
  ghost predicate Sound<E(!new)>(c: Setup<E>) {
    && c.capacity >= 2 && c.publisherMax > 0 && c.serverMax > 0 && c.clientMax > 0
    && forall e: E {:trigger Faithful(c, e)} :: c.valid(e) ==> Faithful(c, e)
  }

  ghost predicate Faithful<E>(c: Setup<E>, e: E) {
    && NEWLINE !in c.encode(e)
    && c.decode(c.encode(e)) == Some(c.reread(e))
    && c.sequence(c.reread(e)) == c.sequence(e)
    && c.isSnapshot(c.reread(e)) == c.isSnapshot(e)
  }

  /** Whether a client that last accepted sequence `last` accepts `e`. */
  predicate Accepts<E>(c: Setup<E>, last: Option<nat>, e: E) {
    match last
    case None => c.isSnapshot(e) && c.startsClient(e)
    case Some(previous) => !c.isSnapshot(e) && c.sequence(e) == previous + 1
  }

  datatype State<E> = State(
    published: seq<E>,
    // The subscription; `lost` are the sequences it dropped
    checkpoint: E, queue: seq<E>, waiting: bool, delivered: nat, lost: seq<nat>,
    // The server's worker: events put on the wire, and the bytes of the last one not sent yet
    sent: seq<E>, outgoing: Bytes, up: bool,
    // Bytes sent and not received
    inFlight: Bytes,
    // The client
    buffer: Bytes, last: Option<nat>, accepted: seq<E>, reading: bool)

  ghost predicate IsLog<E>(c: Setup<E>, published: seq<E>, from: nat) {
    forall i :: 0 <= i < |published| ==> Logged(c, published[i], i, from)
  }

  /** Events published after the connection began have passed the publisher's size check. */
  ghost predicate Logged<E>(c: Setup<E>, e: E, at: nat, from: nat) {
    c.valid(e) && c.sequence(e) == at + 1 && !c.isSnapshot(e) && (at >= from ==> |c.encode(e)| + 1 <= c.publisherMax)
  }

  /** A connection begins with a checkpoint at the publisher's sequence. */
  ghost predicate Initial<E>(c: Setup<E>, s: State<E>) {
    && IsLog(c, s.published, |s.published|)
    && c.valid(s.checkpoint) && c.isSnapshot(s.checkpoint) && c.sequence(s.checkpoint) == |s.published|
    && |c.encode(s.checkpoint)| + 1 <= c.publisherMax
    && s.queue == [s.checkpoint] && s.waiting && s.delivered == 0 && s.lost == []
    && s.sent == [] && s.outgoing == [] && s.up
    && s.inFlight == []
    && s.buffer == [] && s.last.None? && s.accepted == [] && s.reading
  }

  datatype Step<E> =
    | Publish(event: E)
    | Take
    | Send(n: nat)
    | StopServing
    | Receive(n: nat)
    | ReadFrame
    | RefuseLongLine
    | ReachEnd
    | BreakConnection

  predicate Enabled<E>(c: Setup<E>, s: State<E>, step: Step<E>) {
    match step
    case Publish(e) => c.valid(e) && c.sequence(e) == |s.published| + 1 && !c.isSnapshot(e)
        && |c.encode(e)| + 1 <= c.publisherMax
    case Take => s.up && s.outgoing == [] && s.queue != []
    case Send(n) => s.up && 0 < n <= |s.outgoing|
    case StopServing => s.up
    case Receive(n) => s.reading && NeedsBytes(c, s) && 0 < n <= |s.inFlight| && n <= RECEIVE_SIZE
        && n <= c.clientMax - |s.buffer|
    case ReadFrame => s.reading && FindNewline(s.buffer).Some?
    case RefuseLongLine => s.reading && FindNewline(s.buffer).None? && |s.buffer| >= c.clientMax
    case ReachEnd => s.reading && NeedsBytes(c, s) && !s.up && s.inFlight == []
    case BreakConnection => s.reading
  }

  /** The client has to receive more before it can decide on its next line. */
  predicate NeedsBytes<E>(c: Setup<E>, s: State<E>) {
    FindNewline(s.buffer).None? && |s.buffer| < c.clientMax
  }

  /** `subscription._enqueue`; a closed subscription takes nothing. */
  function Published<E>(c: Setup<E>, s: State<E>, e: E): State<E> {
    if !s.up || c.capacity < 2 || (s.waiting && s.queue == []) then s.(published := s.published + [e])
    else
      s.(published := s.published + [e],
         queue := Enqueued(s.queue, e, c.capacity, s.waiting),
         lost := if |s.queue| < c.capacity then s.lost
                 else s.lost + [c.sequence(s.checkpoint) + s.delivered + |s.lost| + 1])
  }

  /** The worker gets an event and starts to send its line, or gives up because the line is too long. */
  function Taken<E>(c: Setup<E>, s: State<E>): State<E>
    requires s.queue != []
  {
    var line := c.encode(s.queue[0]) + [NEWLINE];
    if |line| > c.serverMax then s.(up := false)
    else
      s.(queue := s.queue[1..], waiting := false, delivered := if s.waiting then 0 else s.delivered + 1,
         sent := s.sent + [s.queue[0]], outgoing := line)
  }

  function Discarded<E>(s: State<E>): State<E> {
    s.(reading := false, buffer := [], last := None)
  }

  /** The client reads a line, decodes it and checks its order. */
  function FrameRead<E>(c: Setup<E>, s: State<E>): State<E>
    requires FindNewline(s.buffer).Some?
  {
    var at := FindNewline(s.buffer).value;
    match c.decode(s.buffer[..at])
    case None => Discarded(s)
    case Some(e) =>
      if Accepts(c, s.last, e)
      then s.(buffer := s.buffer[at + 1..], last := Some(c.sequence(e)), accepted := s.accepted + [e])
      else Discarded(s)
  }

  function Next<E>(c: Setup<E>, s: State<E>, step: Step<E>): State<E>
    requires Enabled(c, s, step)
  {
    match step
    case Publish(e) => Published(c, s, e)
    case Take => Taken(c, s)
    case Send(n) => s.(outgoing := s.outgoing[n..], inFlight := s.inFlight + s.outgoing[..n])
    case StopServing => s.(up := false)
    case Receive(n) => s.(inFlight := s.inFlight[n..], buffer := s.buffer + s.inFlight[..n])
    case ReadFrame => FrameRead(c, s)
    case RefuseLongLine => Discarded(s)
    case ReachEnd => Discarded(s)
    case BreakConnection => Discarded(s)
  }

  // The invariant

  /** While it is open, the subscription holds what is neither delivered nor dropped. */
  ghost predicate SubscriptionHolds<E>(c: Setup<E>, s: State<E>) {
    && IsLog(c, s.published, c.sequence(s.checkpoint))
    && c.valid(s.checkpoint) && c.isSnapshot(s.checkpoint) && |c.encode(s.checkpoint)| + 1 <= c.publisherMax
    && c.sequence(s.checkpoint) <= |s.published|
    && (s.up ==>
          Holds(s.queue, s.checkpoint, s.waiting, s.published, c.sequence(s.checkpoint), s.delivered, |s.lost|,
                c.capacity))
  }

  /** `e` is an event published after the checkpoint. */
  ghost predicate FromLog<E>(c: Setup<E>, s: State<E>, e: E) {
    var at := c.sequence(e);
    c.sequence(s.checkpoint) < at <= |s.published| && e == s.published[at - 1]
  }

  /** Everything delivered or dropped so far has a sequence up to here. */
  function Passed<E>(c: Setup<E>, s: State<E>): nat {
    c.sequence(s.checkpoint) + s.delivered + |s.lost|
  }

  /** The events sent are the checkpoint and events of the log, none of them one that was dropped. */
  ghost predicate SentHolds<E>(c: Setup<E>, s: State<E>) {
    && (s.waiting ==> s.sent == [])
    && (!s.waiting ==> |s.sent| == s.delivered + 1 && s.sent[0] == s.checkpoint)
    && (forall i :: 0 < i < |s.sent| ==>
          FromLog(c, s, s.sent[i]) && c.sequence(s.sent[i]) <= Passed(c, s) && c.sequence(s.sent[i]) !in s.lost)
    && (forall d :: d in s.lost ==> c.sequence(s.checkpoint) < d <= Passed(c, s))
  }

  function Encodings<E>(c: Setup<E>, events: seq<E>): (lines: seq<Bytes>)
    ensures |lines| == |events|
    ensures forall i :: 0 <= i < |lines| ==> lines[i] == c.encode(events[i])
  {
    if events == [] then [] else [c.encode(events[0])] + Encodings(c, events[1..])
  }

  /** The part of the stream that the client has not read. */
  function Unread<E>(s: State<E>): Bytes {
    s.buffer + (s.inFlight + s.outgoing)
  }

  /** It is the lines of the events that the client has not accepted. */
  ghost predicate WireHolds<E>(c: Setup<E>, s: State<E>) {
    s.reading ==> |s.accepted| <= |s.sent| && Unread(s) == Wire(Encodings(c, s.sent[|s.accepted|..]))
  }

  /** Accepted events are the first ones sent, reread, and their sequences are consecutive. */
  ghost predicate AcceptedHolds<E>(c: Setup<E>, s: State<E>) {
    && |s.accepted| <= |s.sent|
    && (forall i :: 0 <= i < |s.accepted| ==>
          s.accepted[i] == c.reread(s.sent[i]) && c.sequence(s.sent[i]) == c.sequence(s.checkpoint) + i)
    && (s.reading ==> s.last == if s.accepted == [] then None else Some(c.sequence(s.checkpoint) + |s.accepted| - 1))
  }

  ghost predicate Inv<E(!new)>(c: Setup<E>, s: State<E>) {
    && Sound(c)
    && SubscriptionHolds(c, s)
    && SentHolds(c, s)
    && WireHolds(c, s)
    && AcceptedHolds(c, s)
    && |s.buffer| <= c.clientMax
  }

  lemma InitialInv<E(!new)>(c: Setup<E>, s: State<E>)
    requires Sound(c) && Initial(c, s)
    ensures Inv(c, s)
  {
    assert s.published[c.sequence(s.checkpoint)..] == [];
  }

  // Publishing

  lemma PublishedInv<E(!new)>(c: Setup<E>, s: State<E>, e: E)
    requires Inv(c, s) && Enabled(c, s, Publish(e))
    ensures Inv(c, Published(c, s, e))
  {
    PublishedSubscription(c, s, e);
    PublishedKeepsSent(c, s, e);
  }

  lemma PublishedSubscription<E(!new)>(c: Setup<E>, s: State<E>, e: E)
    requires Inv(c, s) && Enabled(c, s, Publish(e))
    ensures SubscriptionHolds(c, Published(c, s, e))
  {
    LogAppend(c, s.published, c.sequence(s.checkpoint), e);
    if s.up {
      EnqueueHolds(s.queue, s.checkpoint, s.waiting, s.published, c.sequence(s.checkpoint), s.delivered, |s.lost|,
          c.capacity, e);
    }
  }

  lemma LogAppend<E>(c: Setup<E>, published: seq<E>, from: nat, e: E)
    requires IsLog(c, published, from) && Logged(c, e, |published|, from)
    ensures IsLog(c, published + [e], from)
  {
  }

  /** What may be dropped when an event is published comes after everything passed. */
  lemma PublishedLoses<E(!new)>(c: Setup<E>, s: State<E>, e: E)
    requires Inv(c, s) && Enabled(c, s, Publish(e))
    ensures var t := Published(c, s, e);
            && Passed(c, s) <= Passed(c, t)
            && (forall d :: d in t.lost ==> d in s.lost || d == Passed(c, s) + 1 == Passed(c, t))
  {
  }

  lemma PublishedKeepsSent<E(!new)>(c: Setup<E>, s: State<E>, e: E)
    requires Inv(c, s) && Enabled(c, s, Publish(e))
    ensures SentHolds(c, Published(c, s, e))
  {
    var t := Published(c, s, e);
    PublishedLoses(c, s, e);
    forall i | 0 < i < |t.sent|
      ensures FromLog(c, t, t.sent[i]) && c.sequence(t.sent[i]) <= Passed(c, t) && c.sequence(t.sent[i]) !in t.lost
    {
      assert FromLog(c, s, s.sent[i]);
    }
  }

  // Sending

  lemma {:induction false} EncodingsAppend<E>(c: Setup<E>, events: seq<E>, e: E)
    ensures Encodings(c, events + [e]) == Encodings(c, events) + [c.encode(e)]
  {
  }

  lemma TakenInv<E(!new)>(c: Setup<E>, s: State<E>)
    requires Inv(c, s) && Enabled(c, s, Take)
    ensures Inv(c, Taken(c, s))
  {
    TakenSubscription(c, s);
    TakenAccepted(c, s);
    if Taken(c, s).up {
      TakenSent(c, s);
      TakenWire(c, s);
    } else {
      NothingTaken(c, s);
    }
  }

  lemma TakenAccepted<E(!new)>(c: Setup<E>, s: State<E>)
    requires Inv(c, s) && Enabled(c, s, Take)
    ensures AcceptedHolds(c, Taken(c, s)) && |Taken(c, s).buffer| <= c.clientMax
  {
  }

  lemma NothingTaken<E(!new)>(c: Setup<E>, s: State<E>)
    requires Inv(c, s) && Enabled(c, s, Take) && !Taken(c, s).up
    ensures SentHolds(c, Taken(c, s)) && WireHolds(c, Taken(c, s))
  {
  }

  lemma TakenSubscription<E(!new)>(c: Setup<E>, s: State<E>)
    requires Inv(c, s) && Enabled(c, s, Take)
    ensures SubscriptionHolds(c, Taken(c, s))
  {
    TakeHolds(s.queue, s.checkpoint, s.waiting, s.published, c.sequence(s.checkpoint), s.delivered, |s.lost|,
              c.capacity);
  }

  lemma TakenSent<E(!new)>(c: Setup<E>, s: State<E>)
    requires Inv(c, s) && Enabled(c, s, Take) && Taken(c, s).up
    ensures SentHolds(c, Taken(c, s))
  {
    TakeHolds(s.queue, s.checkpoint, s.waiting, s.published, c.sequence(s.checkpoint), s.delivered, |s.lost|,
              c.capacity);
    var t := Taken(c, s);
    if !s.waiting {
      var e := s.queue[0];
      assert Logged(c, e, Passed(c, s), c.sequence(s.checkpoint));
      forall i | 0 < i < |t.sent| ensures FromLog(c, t, t.sent[i]) {
        assert i < |s.sent| ==> FromLog(c, s, s.sent[i]);
      }
    }
  }

  lemma TakenWire<E(!new)>(c: Setup<E>, s: State<E>)
    requires Inv(c, s) && Enabled(c, s, Take) && Taken(c, s).up
    ensures WireHolds(c, Taken(c, s))
  {
    var t := Taken(c, s);
    if s.reading {
      var m, e := |s.accepted|, s.queue[0];
      assert t.sent[m..] == s.sent[m..] + [e];
      EncodingsAppend(c, s.sent[m..], e);
      WireAppend(Encodings(c, s.sent[m..]), c.encode(e));
      assert Unread(t) == Unread(s) + c.encode(e) + [NEWLINE];
    }
  }

  // Reading

  lemma SentAreValid<E(!new)>(c: Setup<E>, s: State<E>, i: nat)
    requires Inv(c, s) && i < |s.sent|
    ensures c.valid(s.sent[i]) && (c.isSnapshot(s.sent[i]) <==> i == 0) && |c.encode(s.sent[i])| + 1 <= c.publisherMax
  {
    if i > 0 {
      assert FromLog(c, s, s.sent[i]);
      var at := c.sequence(s.sent[i]) - 1;
      assert Logged(c, s.published[at], at, c.sequence(s.checkpoint));
    }
  }

  lemma SentAreLines<E(!new)>(c: Setup<E>, s: State<E>, m: nat)
    requires Inv(c, s) && m <= |s.sent|
    ensures AreLines(Encodings(c, s.sent[m..]))
  {
    var lines := Encodings(c, s.sent[m..]);
    forall i | 0 <= i < |lines| ensures NEWLINE !in lines[i] {
      SentAreValid(c, s, m + i);
      assert Faithful(c, s.sent[m + i]);
    }
  }

  /** A newline in the buffer ends the first line that is still to be read. */
  lemma FirstLine(lines: seq<Bytes>, buffer: Bytes, rest: Bytes)
    requires AreLines(lines) && buffer + rest == Wire(lines) && FindNewline(buffer).Some?
    ensures lines != []
    ensures var at := FindNewline(buffer).value;
            buffer[..at] == lines[0] && buffer[at + 1..] + rest == Wire(lines[1..])
  {
    var all, at := buffer + rest, FindNewline(buffer).value;
    assert all[..at] == buffer[..at] && all[at + 1..] == buffer[at + 1..] + rest;
    NewlineFound(all, at);
    var line, more := lines[0], Wire(lines[1..]);
    assert all == line + [NEWLINE] + more;
    assert all[..|line|] == line && all[|line| + 1..] == more;
    NewlineFound(all, |line|);
  }

  /** The line in the buffer is that of the next event sent, and decodes to it. */
  lemma FrameIsNext<E(!new)>(c: Setup<E>, s: State<E>)
    requires Inv(c, s) && Enabled(c, s, ReadFrame)
    ensures |s.accepted| < |s.sent|
    ensures var at, m := FindNewline(s.buffer).value, |s.accepted|;
            && Faithful(c, s.sent[m])
            && s.buffer[..at] == c.encode(s.sent[m])
            && s.buffer[at + 1..] + (s.inFlight + s.outgoing) == Wire(Encodings(c, s.sent[m + 1..]))
  {
    var m := |s.accepted|;
    SentAreLines(c, s, m);
    FirstLine(Encodings(c, s.sent[m..]), s.buffer, s.inFlight + s.outgoing);
    SentAreValid(c, s, m);
    assert s.sent[m..][1..] == s.sent[m + 1..];
  }

  /**
    The client accepts the next line exactly when it is a checkpoint it can start from, or the
    event published directly after the last one accepted; otherwise it gives up.
   */
  lemma AcceptsExactly<E(!new)>(c: Setup<E>, s: State<E>)
    requires Inv(c, s) && Enabled(c, s, ReadFrame)
    ensures |s.accepted| < |s.sent|
    ensures var t, e := FrameRead(c, s), s.sent[|s.accepted|];
            if (if s.accepted == [] then c.startsClient(c.reread(e))
                else c.sequence(e) == c.sequence(s.checkpoint) + |s.accepted|)
            then t.reading && t.accepted == s.accepted + [c.reread(e)]
            else !t.reading && t.accepted == s.accepted
  {
    FrameIsNext(c, s);
    SentAreValid(c, s, |s.accepted|);
  }

  lemma FrameReadInv<E(!new)>(c: Setup<E>, s: State<E>)
    requires Inv(c, s) && Enabled(c, s, ReadFrame)
    ensures Inv(c, FrameRead(c, s))
  {
    FrameReadWire(c, s);
    FrameReadAccepted(c, s);
    FrameReadKeeps(c, s);
  }

  /** Reading concerns the client alone. */
  lemma FrameReadKeeps<E(!new)>(c: Setup<E>, s: State<E>)
    requires Inv(c, s) && Enabled(c, s, ReadFrame)
    ensures SubscriptionHolds(c, FrameRead(c, s)) && SentHolds(c, FrameRead(c, s))
  {
  }

  lemma FrameReadWire<E(!new)>(c: Setup<E>, s: State<E>)
    requires Inv(c, s) && Enabled(c, s, ReadFrame)
    ensures WireHolds(c, FrameRead(c, s)) && |FrameRead(c, s).buffer| <= c.clientMax
  {
    FrameIsNext(c, s);
  }

  lemma FrameReadAccepted<E(!new)>(c: Setup<E>, s: State<E>)
    requires Inv(c, s) && Enabled(c, s, ReadFrame)
    ensures AcceptedHolds(c, FrameRead(c, s))
  {
    AcceptsExactly(c, s);
    if FrameRead(c, s).reading {
      NextAccepted(c, s);
    }
  }

  /** The client remembers the sequence of what it accepted. */
  lemma NextAccepted<E(!new)>(c: Setup<E>, s: State<E>)
    requires Inv(c, s) && Enabled(c, s, ReadFrame) && FrameRead(c, s).reading
    ensures |s.accepted| < |s.sent| && c.sequence(s.sent[|s.accepted|]) == c.sequence(s.checkpoint) + |s.accepted|
    ensures FrameRead(c, s).last == Some(c.sequence(s.checkpoint) + |s.accepted|)
  {
    FrameIsNext(c, s);
    SentAreValid(c, s, |s.accepted|);
  }

  /** Moving bytes along the connection changes neither the stream nor anything else. */
  ghost predicate BytesMoved<E>(s: State<E>, t: State<E>) {
    && Unread(t) == Unread(s)
    && t == s.(buffer := t.buffer, inFlight := t.inFlight, outgoing := t.outgoing)
  }

  lemma BytesMovedInv<E(!new)>(c: Setup<E>, s: State<E>, t: State<E>)
    requires Inv(c, s) && BytesMoved(s, t) && |t.buffer| <= c.clientMax
    ensures Inv(c, t)
  {
    assert SubscriptionHolds(c, t) && SentHolds(c, t) && WireHolds(c, t) && AcceptedHolds(c, t);
  }

  lemma SplitMoves(a: Bytes, b: Bytes, d: Bytes, n: nat)
    requires n <= |b|
    ensures a + b[..n] + (b[n..] + d) == a + (b + d)
  {
    assert b == b[..n] + b[n..];
  }

  lemma ReceiveInv<E(!new)>(c: Setup<E>, s: State<E>, n: nat)
    requires Inv(c, s) && Enabled(c, s, Receive(n))
    ensures Inv(c, Next(c, s, Receive(n)))
  {
    SplitMoves(s.buffer, s.inFlight, s.outgoing, n);
    BytesMovedInv(c, s, Next(c, s, Receive(n)));
  }

  lemma SendInv<E(!new)>(c: Setup<E>, s: State<E>, n: nat)
    requires Inv(c, s) && Enabled(c, s, Send(n))
    ensures Inv(c, Next(c, s, Send(n)))
  {
    SplitMoves(s.inFlight, s.outgoing, [], n);
    assert s.outgoing[n..] + [] == s.outgoing[n..] && s.outgoing + [] == s.outgoing;
    BytesMovedInv(c, s, Next(c, s, Send(n)));
  }

  lemma StoppedInv<E(!new)>(c: Setup<E>, s: State<E>)
    requires Inv(c, s)
    ensures Inv(c, s.(up := false))
  {
    var t := s.(up := false);
    assert SubscriptionHolds(c, t) && SentHolds(c, t) && WireHolds(c, t) && AcceptedHolds(c, t);
  }

  lemma DiscardedInv<E(!new)>(c: Setup<E>, s: State<E>)
    requires Inv(c, s)
    ensures Inv(c, Discarded(s))
  {
    var t := Discarded(s);
    assert SubscriptionHolds(c, t) && SentHolds(c, t) && WireHolds(c, t) && AcceptedHolds(c, t);
  }

  lemma NextInv<E(!new)>(c: Setup<E>, s: State<E>, step: Step<E>)
    requires Inv(c, s) && Enabled(c, s, step)
    ensures Inv(c, Next(c, s, step))
  {
    match step
    case Publish(e) => PublishedInv(c, s, e);
    case Take => TakenInv(c, s);
    case Send(n) => SendInv(c, s, n);
    case Receive(n) => ReceiveInv(c, s, n);
    case ReadFrame => FrameReadInv(c, s);
    case StopServing => StoppedInv(c, s);
    case _ => DiscardedInv(c, s);
  }

  // Runs

  /** The states reached from a first one by enabled steps. */
  ghost predicate Run<E>(c: Setup<E>, states: seq<State<E>>, steps: seq<Step<E>>) {
    && |states| == |steps| + 1
    && Initial(c, states[0])
    && forall i :: 0 <= i < |steps| ==> Enabled(c, states[i], steps[i]) && states[i + 1] == Next(c, states[i], steps[i])
  }

  lemma {:induction false} RunInv<E(!new)>(c: Setup<E>, states: seq<State<E>>, steps: seq<Step<E>>, n: nat)
    requires Sound(c) && Run(c, states, steps) && n < |states|
    ensures Inv(c, states[n])
  {
    if n == 0 {
      InitialInv(c, states[0]);
    } else {
      RunInv(c, states, steps, n - 1);
      NextInv(c, states[n - 1], steps[n - 1]);
    }
  }

  /**
    Soundness: in every state of every run, the events the client has accepted are the checkpoint
    and then exactly the events published next, in order, with no gap and no repeat.
   */
  lemma AcceptedIsCheckpointAndLog<E(!new)>(c: Setup<E>, states: seq<State<E>>, steps: seq<Step<E>>, n: nat)
    requires Sound(c) && Run(c, states, steps) && n < |states|
    ensures var s := states[n];
            s.accepted != [] ==>
              && s.accepted[0] == c.reread(s.checkpoint)
              && c.sequence(s.checkpoint) + |s.accepted| - 1 <= |s.published|
              && forall i :: 1 <= i < |s.accepted| ==>
                  s.accepted[i] == c.reread(s.published[c.sequence(s.checkpoint) + i - 1])
  {
    RunInv(c, states, steps, n);
    var s := states[n];
    forall i | 1 <= i < |s.accepted|
      ensures c.sequence(s.checkpoint) + i <= |s.published|
                && s.accepted[i] == c.reread(s.published[c.sequence(s.checkpoint) + i - 1])
    {
      assert FromLog(c, s, s.sent[i]);
    }
    if |s.accepted| > 1 {
      assert FromLog(c, s, s.sent[|s.accepted| - 1]);
    }
  }

  /** No loss goes unnoticed: everything accepted was published before everything dropped. */
  lemma NoSilentLoss<E(!new)>(c: Setup<E>, states: seq<State<E>>, steps: seq<Step<E>>, n: nat, d: nat)
    requires Sound(c) && Run(c, states, steps) && n < |states| && d in states[n].lost
    ensures forall i :: 0 <= i < |states[n].accepted| ==> c.sequence(states[n].accepted[i]) < d
  {
    RunInv(c, states, steps, n);
    AcceptedBeforeDrop(c, states[n], d);
  }

  lemma AcceptedBeforeDrop<E(!new)>(c: Setup<E>, s: State<E>, d: nat)
    requires Inv(c, s) && d in s.lost
    ensures forall i :: 0 <= i < |s.accepted| ==> c.sequence(s.accepted[i]) == c.sequence(s.checkpoint) + i < d
  {
    forall i | 0 <= i < |s.accepted| ensures c.sequence(s.accepted[i]) == c.sequence(s.checkpoint) + i {
      SentAreValid(c, s, i);
      assert Faithful(c, s.sent[i]);
    }
    var k := d - c.sequence(s.checkpoint);
    if k < |s.accepted| {
      SentIsNotLost(c, s, k);
    }
  }

  lemma SentIsNotLost<E(!new)>(c: Setup<E>, s: State<E>, i: nat)
    requires Inv(c, s) && 0 < i < |s.sent|
    ensures c.sequence(s.sent[i]) !in s.lost
  {
  }

  /** Once an event is dropped, every event sent, except a waiting checkpoint, is a later one. */
  lemma SentAfterDrop<E(!new)>(c: Setup<E>, states: seq<State<E>>, steps: seq<Step<E>>, n: nat, d: nat)
    requires Sound(c) && Run(c, states, steps) && n < |steps| && steps[n].Take?
    requires d in states[n].lost && !states[n].waiting
    ensures c.sequence(states[n].queue[0]) > d
  {
    var s := states[n];
    RunInv(c, states, steps, n);
    TakeHolds(s.queue, s.checkpoint, s.waiting, s.published, c.sequence(s.checkpoint), s.delivered, |s.lost|,
              c.capacity);
    assert Logged(c, s.queue[0], Passed(c, s), c.sequence(s.checkpoint));
  }

  /** The first event read after a drop is refused, and the connection given up. */
  lemma DropIsNoticed<E(!new)>(c: Setup<E>, states: seq<State<E>>, steps: seq<Step<E>>, n: nat, d: nat)
    requires Sound(c) && Run(c, states, steps) && n < |states|
    requires var s := states[n];
             d in s.lost && Enabled(c, s, ReadFrame) && |s.accepted| < |s.sent| && c.sequence(s.sent[|s.accepted|]) > d
    ensures !FrameRead(c, states[n]).reading && FrameRead(c, states[n]).accepted == states[n].accepted
  {
    var s := states[n];
    RunInv(c, states, steps, n);
    AcceptedBeforeDrop(c, s, d);
    AcceptsExactly(c, s);
    var m := |s.accepted|;
    if m > 0 {
      assert c.sequence(s.accepted[m - 1]) == c.sequence(s.checkpoint) + m - 1 < d;
    }
  }

  /** The server puts no line on the wire that is over its own limit. */
  lemma {:induction false} SentLinesFit<E>(c: Setup<E>, states: seq<State<E>>, steps: seq<Step<E>>, n: nat)
    requires Run(c, states, steps) && n < |states|
    ensures forall i :: 0 <= i < |states[n].sent| ==> |c.encode(states[n].sent[i])| + 1 <= c.serverMax
  {
    if n > 0 {
      SentLinesFit(c, states, steps, n - 1);
      SendsWithinLimit(c, states[n - 1], steps[n - 1]);
    }
  }

  lemma SendsWithinLimit<E>(c: Setup<E>, s: State<E>, step: Step<E>)
    requires Enabled(c, s, step)
    requires forall i :: 0 <= i < |s.sent| ==> |c.encode(s.sent[i])| + 1 <= c.serverMax
    ensures var t := Next(c, s, step);
            forall i :: 0 <= i < |t.sent| ==> |c.encode(t.sent[i])| + 1 <= c.serverMax
  {
  }

  /** A client whose limit is at least the publisher's never finds a line too long. */
  lemma AdmittedLinesFit<E(!new)>(c: Setup<E>, states: seq<State<E>>, steps: seq<Step<E>>, n: nat)
    requires Sound(c) && Run(c, states, steps) && n < |states| && c.publisherMax <= c.clientMax
    ensures !Enabled(c, states[n], RefuseLongLine)
  {
    var s := states[n];
    RunInv(c, states, steps, n);
    var m := |s.accepted|;
    if s.reading && m < |s.sent| {
      SentAreValid(c, s, m);
      var lines := Encodings(c, s.sent[m..]);
      LongBufferHasLine(s.buffer, s.inFlight + s.outgoing, lines);
    }
  }

  lemma LongBufferHasLine(buffer: Bytes, rest: Bytes, lines: seq<Bytes>)
    requires lines != [] && buffer + rest == Wire(lines)
    ensures |buffer| > |lines[0]| ==> FindNewline(buffer).Some?
  {
    if |buffer| > |lines[0]| {
      var line := lines[0];
      assert (buffer + rest)[|line|] == NEWLINE;
      assert buffer[|line|] in buffer;
    }
  }
}
