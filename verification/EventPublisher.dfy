/**
  The event publisher and its bounded subscriptions (`daemon_events.py`).

  Every method body is one lock region of the source; waiting for an event is left to callers.
 */
module EventPublisher {
  import opened Prelude
  import opened Texts
  import opened JsonText
  import Json
  import opened Payloads
  import opened Events
  import opened BoundedQueues

  datatype GetResult = Got(event: Event) | Empty | SubscriptionClosed

  /** The log a publisher writes: entry `i` carries sequence `i + 1` and is no checkpoint. */
  ghost predicate IsLog(published: seq<Event>) {
    forall i :: 0 <= i < |published| ==> published[i].sequence == i + 1 && published[i].kind != SNAPSHOT
  }

  class Subscription {
    const queueCapacity: nat
    var queue: seq<Event>
    var droppedEvents: nat
    var closed: bool
    ghost const checkpoint: Event
    /** Whether the checkpoint is still queued. */
    ghost var waiting: bool
    /** How many published events have been delivered. */
    ghost var delivered: nat

    /** The events at the back of the log that are neither delivered nor dropped are exactly those queued. */
    ghost predicate Valid(published: seq<Event>)
      reads this
    {
      && queueCapacity >= 2
      && checkpoint.kind == SNAPSHOT
      && (closed ==> queue == [])
      && (!closed ==>
            Holds(queue, checkpoint, waiting, published, checkpoint.sequence, delivered, droppedEvents, queueCapacity))
    }

    constructor (snapshot: Event, queueCapacity: nat, ghost published: seq<Event>)
      requires snapshot.kind == SNAPSHOT && snapshot.sequence == |published| && queueCapacity >= 2
      ensures Valid(published) && !closed && queue == [snapshot] && waiting
      ensures checkpoint == snapshot && delivered == 0 && droppedEvents == 0 && this.queueCapacity == queueCapacity
    {
      this.queueCapacity := queueCapacity;
      queue, droppedEvents, closed := [snapshot], 0, false;
      checkpoint, waiting, delivered := snapshot, true, 0;
    }

    /** `get` when it does not wait: the oldest queued event. */
    method Get(ghost published: seq<Event>) returns (r: GetResult)
      requires Valid(published)
      modifies this
      ensures Valid(published) && closed == old(closed) && droppedEvents == old(droppedEvents)
      ensures r.SubscriptionClosed? <==> closed
      ensures r.Empty? <==> !closed && old(queue) == []
      ensures !r.Got? ==> queue == old(queue) && waiting == old(waiting) && delivered == old(delivered)
      ensures r.Got? ==> !waiting && queue == old(queue)[1..]
      ensures r.Got? && old(waiting) ==> r.event == checkpoint && delivered == 0
      ensures r.Got? && !old(waiting) ==>
                && delivered == old(delivered) + 1
                && checkpoint.sequence + delivered + droppedEvents <= |published|
                && r.event == published[checkpoint.sequence + delivered + droppedEvents - 1]
    {
      if closed {
        return SubscriptionClosed;
      }
      if queue == [] {
        return Empty;
      }
      TakeHolds(queue, checkpoint, waiting, published, checkpoint.sequence, delivered, droppedEvents, queueCapacity);
      r := Got(queue[0]);
      queue := queue[1..];
      delivered := if waiting then 0 else delivered + 1;
      waiting := false;
    }

    /** `_enqueue` */
    method Enqueue(event: Event, ghost published: seq<Event>)
      requires Valid(published) && IsLog(published + [event])
      modifies this
      ensures Valid(published + [event])
      ensures closed == old(closed) && waiting == old(waiting) && delivered == old(delivered)
      ensures closed ==> queue == old(queue) && droppedEvents == old(droppedEvents)
      ensures !closed ==> droppedEvents == old(droppedEvents) + if |old(queue)| < queueCapacity then 0 else 1
    {
      if closed {
        return;
      }
      EnqueueHolds(queue, checkpoint, waiting, published, checkpoint.sequence, delivered, droppedEvents, queueCapacity,
          event);
      assert (published + [event])[..|published|] == published;
      if |queue| >= queueCapacity {
        if queue != [] && queue[0].kind == SNAPSHOT {
          queue := [queue[0]] + queue[2..];
        } else {
          queue := queue[1..];
        }
        droppedEvents := droppedEvents + 1;
      }
      queue := queue + [event];
    }

    /** `_close_from_publisher` */
    method CloseFromPublisher(ghost published: seq<Event>)
      requires Valid(published)
      modifies this
      ensures Valid(published) && closed && queue == []
      ensures old(closed) ==> droppedEvents == old(droppedEvents)
    {
      if closed {
        return;
      }
      closed := true;
      queue := [];
    }
  }

  datatype PublishError = PublisherClosed | TooManySubscribers | ReservedKind | InvalidEvent | EventTooLarge

  /** Every open subscription gets the event. */
  method Distribute(subscriptions: set<Subscription>, event: Event, ghost published: seq<Event>)
    requires IsLog(published) && event.sequence == |published| + 1 && event.kind != SNAPSHOT
    requires forall s | s in subscriptions :: s.Valid(published) && !s.closed
    modifies subscriptions
    ensures forall s | s in subscriptions :: s.Valid(published + [event]) && !s.closed
    ensures forall s | s in subscriptions :: s.delivered == old(s.delivered) && s.waiting == old(s.waiting)
  {
    var rest := subscriptions;
    while rest != {}
      invariant rest <= subscriptions
      invariant forall s | s in subscriptions ::
                  !s.closed && s.Valid(if s in rest then published else published + [event])
      invariant forall s | s in subscriptions :: s.delivered == old(s.delivered) && s.waiting == old(s.waiting)
      decreases rest
    {
      var s :| s in rest;
      s.Enqueue(event, published);
      rest := rest - {s};
    }
  }

  class Publisher {
    const queueCapacity: nat
    const maxSubscribers: nat
    const maxEventBytes: nat
    var subscriptions: set<Subscription>
    var sequence: nat
    var closed: bool
    /** Every event published so far. */
    ghost var published: seq<Event>

    ghost predicate Valid()
      reads this, subscriptions
    {
      && queueCapacity >= 2 && maxSubscribers > 0 && maxEventBytes > 0
      && sequence == |published|
      && IsLog(published)
      && |subscriptions| <= maxSubscribers
      && forall s | s in subscriptions :: s.Valid(published) && !s.closed && s.queueCapacity == queueCapacity
    }

    constructor (queueCapacity: nat, maxSubscribers: nat, maxEventBytes: nat)
      requires queueCapacity >= 2 && maxSubscribers > 0 && maxEventBytes > 0
      ensures Valid() && sequence == 0 && !closed && subscriptions == {} && published == []
      ensures this.queueCapacity == queueCapacity && this.maxSubscribers == maxSubscribers
      ensures this.maxEventBytes == maxEventBytes
    {
      this.queueCapacity, this.maxSubscribers, this.maxEventBytes := queueCapacity, maxSubscribers, maxEventBytes;
      subscriptions, sequence, closed, published := {}, 0, false, [];
    }

    /** `subscribe`: a new subscription starts with a checkpoint at the current sequence. */
    method Subscribe(snapshotPayload: Value, now: Text) returns (r: Result<Subscription, PublishError>)
      requires Valid()
      modifies this`subscriptions
      ensures Valid()
      ensures r.Err? ==> subscriptions == old(subscriptions)
      ensures if closed then r == Err(PublisherClosed)
              else if |old(subscriptions)| >= maxSubscribers then r == Err(TooManySubscribers)
              else if MakeEvent(sequence, now, SNAPSHOT, snapshotPayload).None? then r == Err(InvalidEvent)
              else if |Line(MakeEvent(sequence, now, SNAPSHOT, snapshotPayload).value)| > maxEventBytes
              then r == Err(EventTooLarge) else r.Ok?
      ensures r.Ok? ==> fresh(r.value) && subscriptions == old(subscriptions) + {r.value}
      ensures r.Ok? ==> r.value.queue == [r.value.checkpoint] && r.value.checkpoint.sequence == sequence
      ensures r.Ok? ==>
                && r.value.checkpoint.observedAt == now && r.value.checkpoint.kind == SNAPSHOT
                && Freeze(snapshotPayload) == Some(Json.Object(r.value.checkpoint.payload))
    {
      if closed {
        return Err(PublisherClosed);
      }
      if |subscriptions| >= maxSubscribers {
        return Err(TooManySubscribers);
      }
      match MakeEvent(sequence, now, SNAPSHOT, snapshotPayload)
      case None => return Err(InvalidEvent);
      case Some(snapshot) =>
        if |Line(snapshot)| > maxEventBytes {
          return Err(EventTooLarge);
        }
        var subscription := new Subscription(snapshot, queueCapacity, published);
        subscriptions := subscriptions + {subscription};
        return Ok(subscription);
    }

    /**
      `publish`: every open subscription gets the event. A publish that is rejected, for its
      size or otherwise, changes nothing.
     */
    method Publish(kind: Text, payload: Value, observedAt: Text) returns (r: Result<Event, PublishError>)
      requires Valid()
      modifies this`sequence, this`published, subscriptions
      ensures Valid()
      ensures r.Err? ==> sequence == old(sequence) && published == old(published)
                         && forall s | s in subscriptions :: s.queue == old(s.queue)
                             && s.droppedEvents == old(s.droppedEvents)
      ensures r.Ok? ==> r.value.sequence == sequence == old(sequence) + 1 && r.value.kind == kind != SNAPSHOT
                        && published == old(published) + [r.value] && |Line(r.value)| <= maxEventBytes
      ensures r.Ok? ==> r.value.observedAt == observedAt && Freeze(payload) == Some(Json.Object(r.value.payload))
      ensures if closed then r == Err(PublisherClosed) else if kind == SNAPSHOT then r == Err(ReservedKind)
              else if MakeEvent(old(sequence) + 1, observedAt, kind, payload).None? then r == Err(InvalidEvent)
              else if |Line(MakeEvent(old(sequence) + 1, observedAt, kind, payload).value)| > maxEventBytes
              then r == Err(EventTooLarge) else r.Ok?
      ensures forall s | s in subscriptions :: s.delivered == old(s.delivered) && s.waiting == old(s.waiting)
    {
      if closed {
        return Err(PublisherClosed);
      }
      if kind == SNAPSHOT {
        return Err(ReservedKind);
      }
      match MakeEvent(sequence + 1, observedAt, kind, payload)
      case None => return Err(InvalidEvent);
      case Some(event) =>
        if |Line(event)| > maxEventBytes {
          return Err(EventTooLarge);
        }
        Distribute(subscriptions, event, published);
        sequence := sequence + 1;
        published := published + [event];
        return Ok(event);
    }

    /** `close` */
    method Close()
      requires Valid()
      modifies this`closed, this`subscriptions, subscriptions
      ensures Valid() && closed
      ensures old(closed) ==> subscriptions == old(subscriptions)
      ensures !old(closed) ==> subscriptions == {} && forall s | s in old(subscriptions) :: s.closed && s.queue == []
    {
      if closed {
        return;
      }
      closed := true;
      var open := subscriptions;
      subscriptions := {};
      var rest := open;
      while rest != {}
        invariant rest <= open == old(subscriptions)
        invariant forall s | s in open :: s.Valid(published) && (s !in rest ==> s.closed && s.queue == [])
        invariant closed && subscriptions == {}
        decreases rest
      {
        var s :| s in rest;
        s.CloseFromPublisher(published);
        rest := rest - {s};
      }
    }

    /** `_close_subscription` */
    method CloseSubscription(s: Subscription)
      requires Valid() && s.Valid(published)
      modifies this`subscriptions, s
      ensures Valid() && subscriptions == old(subscriptions) - {s} && s.closed && s.queue == []
    {
      subscriptions := subscriptions - {s};
      s.CloseFromPublisher(published);
    }
  }
}
