/**
  What an event connection achieves: from every state in which it is up, the client comes to
  accept everything published, if and only if the subscription has dropped nothing
  (`daemon_event_server.py`, `daemon_event_client.py`).
 */
module EventProgress {
  import opened Prelude
  import opened JsonText
  import opened BoundedQueues
  import opened Framing
  import opened EventStream

  /** The worker gives the connection up exactly for a line over the server's limit; any other line it sends. */
  lemma TakeSendsIffItFits<E(!new)>(c: Setup<E>, s: State<E>)
    requires Enabled(c, s, Take)
    ensures var t, line := Next(c, s, Take), c.encode(s.queue[0]) + [NEWLINE];
            && (t.up <==> |line| <= c.serverMax)
            && (t.up ==> t.sent == s.sent + [s.queue[0]] && t.outgoing == line && t.queue == s.queue[1..])
            && (!t.up ==> t == s.(up := false))
            && t.published == s.published && t.lost == s.lost && t.inFlight == s.inFlight
            && t.buffer == s.buffer && t.last == s.last && t.accepted == s.accepted && t.reading == s.reading
  {
  }

  /** A reading client has exactly one thing to do: read a line, refuse a long one, or get more bytes. */
  lemma ClientIsDecided<E>(c: Setup<E>, s: State<E>)
    requires s.reading
    ensures Enabled(c, s, ReadFrame) <==> !Enabled(c, s, RefuseLongLine) && !NeedsBytes(c, s)
    ensures Enabled(c, s, RefuseLongLine) ==> !NeedsBytes(c, s)
    ensures NeedsBytes(c, s) ==> (Enabled(c, s, ReachEnd) <==> !s.up && s.inFlight == [])
    ensures NeedsBytes(c, s) && s.inFlight != [] ==> Enabled(c, s, Receive(1))
  {
  }

  // While nothing is dropped

  /** As long as nothing is dropped, the events sent have consecutive sequences. */
  ghost predicate Consecutive<E>(c: Setup<E>, s: State<E>) {
    s.lost == [] ==> forall i :: 0 <= i < |s.sent| ==> c.sequence(s.sent[i]) == c.sequence(s.checkpoint) + i
  }

  /** The checkpoint stays, and nothing published or dropped is forgotten. */
  ghost predicate Onwards<E>(s: State<E>, t: State<E>) {
    t.checkpoint == s.checkpoint && |s.published| <= |t.published| && s.lost <= t.lost
  }

  lemma NextOnwards<E>(c: Setup<E>, s: State<E>, step: Step<E>)
    requires Enabled(c, s, step)
    ensures Onwards(s, Next(c, s, step))
  {
  }

  lemma OnlyTakeSends<E>(c: Setup<E>, s: State<E>, step: Step<E>)
    requires Enabled(c, s, step) && (!step.Take? || !Next(c, s, step).up)
    ensures Next(c, s, step).sent == s.sent
  {
  }

  lemma SameSentConsecutive<E(!new)>(c: Setup<E>, s: State<E>, t: State<E>)
    requires Consecutive(c, s) && Onwards(s, t) && t.sent == s.sent
    ensures Consecutive(c, t)
  {
  }

  lemma OthersConsecutive<E(!new)>(c: Setup<E>, s: State<E>, step: Step<E>)
    requires Consecutive(c, s) && Enabled(c, s, step) && (!step.Take? || !Next(c, s, step).up)
    ensures Consecutive(c, Next(c, s, step))
  {
    OnlyTakeSends(c, s, step);
    NextOnwards(c, s, step);
    SameSentConsecutive(c, s, Next(c, s, step));
  }

  lemma TakenConsecutive<E(!new)>(c: Setup<E>, s: State<E>)
    requires Inv(c, s) && Consecutive(c, s) && Enabled(c, s, Take) && Taken(c, s).up
    ensures Consecutive(c, Taken(c, s))
  {
    TakeHolds(s.queue, s.checkpoint, s.waiting, s.published, c.sequence(s.checkpoint), s.delivered, |s.lost|,
              c.capacity);
    assert !s.waiting ==> Logged(c, s.queue[0], Passed(c, s), c.sequence(s.checkpoint));
  }

  lemma {:induction false} RunConsecutive<E(!new)>(c: Setup<E>, states: seq<State<E>>, steps: seq<Step<E>>, n: nat)
    requires Sound(c) && Run(c, states, steps) && n < |states|
    ensures Consecutive(c, states[n])
  {
    if n > 0 {
      RunConsecutive(c, states, steps, n - 1);
      RunInv(c, states, steps, n - 1);
      if steps[n - 1].Take? && Taken(c, states[n - 1]).up {
        TakenConsecutive(c, states[n - 1]);
      } else {
        OthersConsecutive(c, states[n - 1], steps[n - 1]);
      }
    }
  }

  // Continuations

  /** From `s` these steps lead to `t`. */
  ghost predicate Leads<E>(c: Setup<E>, s: State<E>, steps: seq<Step<E>>, t: State<E>)
    decreases |steps|
  {
    if steps == [] then t == s else Enabled(c, s, steps[0]) && Leads(c, Next(c, s, steps[0]), steps[1..], t)
  }

  lemma {:induction false} LeadsOn<E>(
      c: Setup<E>, s: State<E>, steps: seq<Step<E>>, t: State<E>, more: seq<Step<E>>, u: State<E>)
    requires Leads(c, s, steps, t) && Leads(c, t, more, u)
    ensures Leads(c, s, steps + more, u)
    decreases |steps|
  {
    if steps == [] {
      assert steps + more == more;
    } else {
      LeadsOn(c, Next(c, s, steps[0]), steps[1..], t, more, u);
      assert (steps + more)[1..] == steps[1..] + more;
    }
  }

  /** One step more. */
  lemma LeadsStep<E>(c: Setup<E>, s: State<E>, steps: seq<Step<E>>, t: State<E>, step: Step<E>)
    requires Leads(c, s, steps, t) && Enabled(c, t, step)
    ensures Leads(c, s, steps + [step], Next(c, t, step))
  {
    assert [step][1..] == [];
    LeadsOn(c, s, steps, t, [step], Next(c, t, step));
  }

  lemma {:induction false} LeadsKeeps<E(!new)>(c: Setup<E>, s: State<E>, steps: seq<Step<E>>, t: State<E>)
    requires Inv(c, s) && Leads(c, s, steps, t)
    ensures Inv(c, t) && Onwards(s, t)
    decreases |steps|
  {
    if steps != [] {
      NextInv(c, s, steps[0]);
      NextOnwards(c, s, steps[0]);
      LeadsKeeps(c, Next(c, s, steps[0]), steps[1..], t);
    }
  }

  // Getting a line to the client

  predicate LineFits<E>(c: Setup<E>, e: E, max: nat) {
    |c.encode(e)| + 1 <= max
  }

  /** Every event queued fits both limits, every line sent and not accepted the client's; the checkpoint is complete. */
  ghost predicate AllFit<E>(c: Setup<E>, s: State<E>) {
    && (forall e | e in s.queue :: LineFits(c, e, c.serverMax) && LineFits(c, e, c.clientMax))
    && (forall i | |s.accepted| <= i < |s.sent| :: LineFits(c, s.sent[i], c.clientMax))
    && c.startsClient(c.reread(s.checkpoint))
  }

  /** The connection is up, nothing was dropped, and everything to come fits. */
  ghost predicate Flowing<E(!new)>(c: Setup<E>, s: State<E>) {
    Inv(c, s) && Consecutive(c, s) && s.up && s.reading && s.lost == [] && AllFit(c, s)
  }

  /** What moving bytes does not change. */
  ghost predicate SameButBytes<E>(s: State<E>, t: State<E>) {
    t == s.(buffer := t.buffer, inFlight := t.inFlight, outgoing := t.outgoing)
  }

  lemma KeepsFlowing<E(!new)>(c: Setup<E>, s: State<E>, step: Step<E>)
    requires Flowing(c, s) && Enabled(c, s, step) && (step.Send? || step.Receive?)
    ensures Flowing(c, Next(c, s, step)) && SameButBytes(s, Next(c, s, step))
  {
    NextInv(c, s, step);
    OthersConsecutive(c, s, step);
  }

  /** An unread line that is not complete in the buffer leaves room for more, and there is more. */
  lemma MoreToCome<E(!new)>(c: Setup<E>, s: State<E>)
    requires Flowing(c, s) && |s.accepted| < |s.sent| && FindNewline(s.buffer).None?
    ensures |s.buffer| < c.clientMax && s.inFlight + s.outgoing != []
  {
    var m := |s.accepted|;
    var lines := Encodings(c, s.sent[m..]);
    LongBufferHasLine(s.buffer, s.inFlight + s.outgoing, lines);
    assert lines[0] == c.encode(s.sent[m]) && LineFits(c, s.sent[m], c.clientMax);
    assert |Wire(lines)| > |lines[0]|;
  }

  /** The next step that brings bytes to the client. */
  function Bring<E>(c: Setup<E>, s: State<E>): Step<E> {
    if s.inFlight == [] then Send(|s.outgoing|)
    else
      var room := c.clientMax - |s.buffer|;
      var most := if |s.inFlight| <= RECEIVE_SIZE then |s.inFlight| else RECEIVE_SIZE;
      if most <= room then Receive(most) else if room > 0 then Receive(room) else ReachEnd
  }

  /** The next unread line reaches the client's buffer. */
  lemma LineArrives<E(!new)>(c: Setup<E>, s: State<E>) returns (steps: seq<Step<E>>, t: State<E>)
    requires Flowing(c, s) && |s.accepted| < |s.sent|
    ensures Leads(c, s, steps, t) && Flowing(c, t) && SameButBytes(s, t) && FindNewline(t.buffer).Some?
  {
    steps, t := [], s;
    while FindNewline(t.buffer).None?
      invariant Leads(c, s, steps, t) && Flowing(c, t) && SameButBytes(s, t)
      decreases |t.inFlight| + 2 * |t.outgoing|
    {
      MoreToCome(c, t);
      var step := Bring(c, t);
      KeepsFlowing(c, t, step);
      LeadsStep(c, s, steps, t, step);
      steps, t := steps + [step], Next(c, t, step);
    }
  }

  /** The next unread event is accepted. */
  lemma EventArrives<E(!new)>(c: Setup<E>, s: State<E>) returns (steps: seq<Step<E>>, t: State<E>)
    requires Flowing(c, s) && |s.accepted| < |s.sent|
    ensures Leads(c, s, steps, t) && Flowing(c, t) && |t.accepted| == |s.accepted| + 1
    ensures t.sent == s.sent && t.queue == s.queue && t.published == s.published && t.checkpoint == s.checkpoint
  {
    var u;
    steps, u := LineArrives(c, s);
    t := Next(c, u, ReadFrame);
    LeadsStep(c, s, steps, u, ReadFrame);
    steps := steps + [ReadFrame];
    NextInv(c, u, ReadFrame);
    OthersConsecutive(c, u, ReadFrame);
    AcceptsExactly(c, u);
    SentStarts(c, u);
  }

  lemma SentStarts<E(!new)>(c: Setup<E>, s: State<E>)
    requires Inv(c, s) && s.sent != []
    ensures s.sent[0] == s.checkpoint
  {
  }

  /** The client catches up with what has been sent. */
  lemma SentArrives<E(!new)>(c: Setup<E>, s: State<E>) returns (steps: seq<Step<E>>, t: State<E>)
    requires Flowing(c, s)
    ensures Leads(c, s, steps, t) && Flowing(c, t) && |t.accepted| == |t.sent|
    ensures t.sent == s.sent && t.queue == s.queue && t.published == s.published && t.checkpoint == s.checkpoint
  {
    steps, t := [], s;
    while |t.accepted| < |t.sent|
      invariant Leads(c, s, steps, t) && Flowing(c, t)
      invariant t.sent == s.sent && t.queue == s.queue && t.published == s.published && t.checkpoint == s.checkpoint
      decreases |t.sent| - |t.accepted|
    {
      var more, u := EventArrives(c, t);
      LeadsOn(c, s, steps, t, more, u);
      steps, t := steps + more, u;
    }
  }

  /** With everything sent accepted, nothing is on its way, and the worker takes the next event and sends it. */
  lemma NextIsSent<E(!new)>(c: Setup<E>, s: State<E>)
    requires Flowing(c, s) && |s.accepted| == |s.sent| && s.queue != []
    ensures Enabled(c, s, Take) && Flowing(c, Next(c, s, Take)) && Next(c, s, Take).queue == s.queue[1..]
    ensures Next(c, s, Take).published == s.published && Next(c, s, Take).checkpoint == s.checkpoint
  {
    assert s.sent[|s.accepted|..] == [];
    assert s.outgoing == [];
    assert LineFits(c, s.queue[0], c.serverMax);
    NextInv(c, s, Take);
    TakenConsecutive(c, s);
  }

  /** With nothing queued, everything published after the checkpoint has been sent. */
  lemma EmptyQueueSentAll<E(!new)>(c: Setup<E>, s: State<E>)
    requires Inv(c, s) && s.up && s.lost == [] && s.queue == []
    ensures |s.sent| == |s.published| - c.sequence(s.checkpoint) + 1
  {
  }

  /** Everything published so far has been accepted. */
  ghost predicate CaughtUp<E>(c: Setup<E>, s: State<E>) {
    |s.accepted| == |s.published| - c.sequence(s.checkpoint) + 1
  }

  lemma EverythingArrives<E(!new)>(c: Setup<E>, s: State<E>) returns (steps: seq<Step<E>>, t: State<E>)
    requires Flowing(c, s)
    ensures Leads(c, s, steps, t) && Flowing(c, t) && t.published == s.published && CaughtUp(c, t)
  {
    steps, t := SentArrives(c, s);
    while t.queue != []
      invariant Leads(c, s, steps, t) && Flowing(c, t) && |t.accepted| == |t.sent|
      invariant t.published == s.published && t.checkpoint == s.checkpoint
      decreases |t.queue|
    {
      NextIsSent(c, t);
      LeadsStep(c, s, steps, t, Take);
      var u := Next(c, t, Take);
      var more, v := SentArrives(c, u);
      LeadsOn(c, s, steps + [Take], u, more, v);
      steps, t := steps + [Take] + more, v;
    }
    EmptyQueueSentAll(c, t);
  }

  /** Some continuation leads to a state in which the client has accepted everything published so far. */
  ghost predicate CanCatchUp<E(!new)>(c: Setup<E>, s: State<E>) {
    exists steps, t :: Leads(c, s, steps, t) && t.published == s.published && CaughtUp(c, t)
  }

  /** A dropped event keeps the client from ever catching up. */
  lemma DroppedIsMissed<E(!new)>(c: Setup<E>, s: State<E>, steps: seq<Step<E>>, t: State<E>)
    requires Inv(c, s) && s.up && s.lost != [] && Leads(c, s, steps, t)
    ensures !CaughtUp(c, t)
  {
    LeadsKeeps(c, s, steps, t);
    var d := s.lost[0];
    assert d == t.lost[0];
    LostWasPublished(c, s, d);
    AcceptedBeforeDrop(c, t, d);
    if t.accepted != [] {
      assert c.sequence(t.accepted[|t.accepted| - 1]) == c.sequence(t.checkpoint) + (|t.accepted| - 1) < d;
    }
  }

  lemma LostWasPublished<E(!new)>(c: Setup<E>, s: State<E>, d: nat)
    requires Inv(c, s) && s.up && d in s.lost
    ensures c.sequence(s.checkpoint) < d <= |s.published|
  {
  }

  /**
    Delivery: in every reachable state with the connection up, the client reading and lines that
    fit, the client can come to accept everything published if and only if nothing was dropped.
   */
  lemma CatchesUpIffNothingDropped<E(!new)>(c: Setup<E>, states: seq<State<E>>, steps: seq<Step<E>>, n: nat)
    requires Sound(c) && Run(c, states, steps) && n < |states|
    requires states[n].up && states[n].reading && AllFit(c, states[n])
    ensures CanCatchUp(c, states[n]) <==> states[n].lost == []
  {
    var s := states[n];
    RunInv(c, states, steps, n);
    RunConsecutive(c, states, steps, n);
    if s.lost == [] {
      var more, t := EverythingArrives(c, s);
    } else {
      forall more, t | Leads(c, s, more, t) ensures !CaughtUp(c, t) {
        DroppedIsMissed(c, s, more, t);
      }
    }
  }
}
