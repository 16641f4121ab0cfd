/**
  The analysis publisher and its subscriptions (`analysis_subscriptions.py`): the bounded queues
  of `EventPublisher` without a checkpoint, and with exact loss reports. Nothing depends on what
  a response is.
 */
module Analysis {
  import opened Prelude
  import opened BoundedQueues

  datatype Publication<R> = Publication(sequence: nat, response: R)

  datatype Delivery<R> = Delivery(publication: Publication<R>, responsesDropped: nat, overflows: nat)

  datatype GetResult<R> = Got(delivery: Delivery<R>) | Empty | SubscriptionClosed

  ghost predicate IsLog<R>(published: seq<Publication<R>>) {
    forall i :: 0 <= i < |published| ==> published[i].sequence == i + 1
  }

  class AnalysisSubscription<R> {
    const queueCapacity: nat
    var queue: seq<Publication<R>>
    var responsesDelivered: nat
    var responsesDropped: nat
    var overflows: nat
    var lastDelivered: Option<nat>
    var lastDropped: Option<nat>
    var closed: bool
    /** The publisher's sequence at subscription. */
    ghost const base: nat

    /** Everything published up to here has been delivered or dropped. */
    ghost function Passed(): nat
      reads this
    {
      base + responsesDelivered + responsesDropped
    }

    ghost predicate Valid(published: seq<Publication<R>>)
      reads this
    {
      && queueCapacity >= 1
      && overflows == responsesDropped
      && (lastDropped.Some? <==> responsesDropped > 0) && (lastDelivered.Some? <==> responsesDelivered > 0)
      && (lastDropped.Some? ==> base < lastDropped.value <= Passed())
      && (lastDelivered.Some? ==> base < lastDelivered.value <= Passed())
      && (closed ==> queue == [])
      && (!closed ==> HoldsNewest(queue, published, base, responsesDelivered, responsesDropped, queueCapacity))
    }

    constructor (queueCapacity: nat, ghost published: seq<Publication<R>>)
      requires queueCapacity >= 1
      ensures Valid(published) && !closed && base == |published| && this.queueCapacity == queueCapacity
      ensures responsesDelivered == responsesDropped == 0
    {
      this.queueCapacity := queueCapacity;
      queue, responsesDelivered, responsesDropped, overflows := [], 0, 0, 0;
      lastDelivered, lastDropped, closed := None, None, false;
      base := |published|;
    }

    /**
      `get` when it does not wait. The sequence delivered is the sequence at subscription plus
      what has been delivered, this one included, plus the drops reported with it; it is above
      every sequence delivered or dropped before.
     */
    method Get(ghost published: seq<Publication<R>>) returns (r: GetResult<R>)
      requires Valid(published) && IsLog(published)
      modifies this
      ensures Valid(published) && closed == old(closed) && responsesDropped == old(responsesDropped)
                && lastDropped == old(lastDropped)
      ensures r.SubscriptionClosed? <==> closed
      ensures r.Empty? <==> !closed && old(queue) == []
      ensures !r.Got? ==>
                && queue == old(queue) && responsesDelivered == old(responsesDelivered)
                && lastDelivered == old(lastDelivered)
      ensures r.Got? ==>
                && responsesDelivered == old(responsesDelivered) + 1
                && r.delivery.responsesDropped == r.delivery.overflows == responsesDropped
                && r.delivery.publication.sequence == base + responsesDelivered + r.delivery.responsesDropped
                && r.delivery.publication.sequence <= |published|
                && r.delivery.publication == published[r.delivery.publication.sequence - 1]
                && lastDelivered == Some(r.delivery.publication.sequence)
                && (old(lastDelivered).Some? ==> r.delivery.publication.sequence > old(lastDelivered).value)
                && (lastDropped.Some? ==> r.delivery.publication.sequence > lastDropped.value)
    {
      if closed {
        return SubscriptionClosed;
      }
      if queue == [] {
        return Empty;
      }
      TakeNewest(queue, published, base, responsesDelivered, responsesDropped, queueCapacity);
      var publication := queue[0];
      queue := queue[1..];
      responsesDelivered := responsesDelivered + 1;
      lastDelivered := Some(publication.sequence);
      return Got(Delivery(publication, responsesDropped, overflows));
    }

    /** `_enqueue` */
    method Enqueue(publication: Publication<R>, ghost published: seq<Publication<R>>)
      requires Valid(published) && IsLog(published + [publication])
      modifies this
      ensures Valid(published + [publication]) && closed == old(closed)
      ensures responsesDelivered == old(responsesDelivered) && lastDelivered == old(lastDelivered)
      ensures closed || |old(queue)| < queueCapacity ==>
                && responsesDropped == old(responsesDropped)
                && lastDropped == old(lastDropped)
      ensures !closed && |old(queue)| == queueCapacity ==>
                responsesDropped == old(responsesDropped) + 1
                    && lastDropped == Some(old(Passed()) + 1) == Some(old(queue)[0].sequence)
    {
      if closed {
        return;
      }
      EnqueueNewest(queue, published, base, responsesDelivered, responsesDropped, queueCapacity, publication);
      if |queue| >= queueCapacity {
        var dropped := queue[0];
        assert dropped == (published + [publication])[Passed()];
        queue := queue[1..];
        responsesDropped := responsesDropped + 1;
        overflows := overflows + 1;
        lastDropped := Some(dropped.sequence);
      }
      queue := queue + [publication];
    }

    /** `_close_from_publisher` */
    method CloseFromPublisher(ghost published: seq<Publication<R>>)
      requires Valid(published)
      modifies this
      ensures Valid(published) && closed && queue == []
      ensures responsesDropped == old(responsesDropped) && responsesDelivered == old(responsesDelivered)
    {
      if closed {
        return;
      }
      closed := true;
      queue := [];
    }
  }

  datatype PublishError = PublisherClosed | TooManySubscribers

  /** Every open subscription gets the publication. */
  method Distribute<R>(
      subscriptions: set<AnalysisSubscription<R>>, publication: Publication<R>, ghost published: seq<Publication<R>>)
    requires IsLog(published + [publication])
    requires forall s | s in subscriptions :: s.Valid(published) && !s.closed
    modifies subscriptions
    ensures forall s | s in subscriptions :: s.Valid(published + [publication]) && !s.closed
    ensures forall s | s in subscriptions :: s.responsesDelivered == old(s.responsesDelivered)
  {
    var rest := subscriptions;
    while rest != {}
      invariant rest <= subscriptions
      invariant forall s | s in subscriptions ::
                  !s.closed && s.Valid(if s in rest then published else published + [publication])
      invariant forall s | s in subscriptions :: s.responsesDelivered == old(s.responsesDelivered)
      decreases rest
    {
      var s :| s in rest;
      s.Enqueue(publication, published);
      rest := rest - {s};
    }
  }

  class AnalysisPublisher<R> {
    const queueCapacity: nat
    const maxSubscribers: nat
    var subscriptions: set<AnalysisSubscription<R>>
    var sequence: nat
    var responsesPublished: nat
    var closed: bool
    ghost var published: seq<Publication<R>>

    ghost predicate Valid()
      reads this, subscriptions
    {
      && queueCapacity >= 1 && maxSubscribers >= 1
      && sequence == responsesPublished == |published|
      && IsLog(published)
      && |subscriptions| <= maxSubscribers
      && forall s | s in subscriptions :: s.Valid(published) && !s.closed && s.queueCapacity == queueCapacity
    }

    constructor (queueCapacity: nat, maxSubscribers: nat)
      requires queueCapacity >= 1 && maxSubscribers >= 1
      ensures Valid() && sequence == 0 && !closed && subscriptions == {}
      ensures this.queueCapacity == queueCapacity && this.maxSubscribers == maxSubscribers
    {
      this.queueCapacity, this.maxSubscribers := queueCapacity, maxSubscribers;
      subscriptions, sequence, responsesPublished, closed, published := {}, 0, 0, false, [];
    }

    /** `subscribe` */
    method Subscribe() returns (r: Result<AnalysisSubscription<R>, PublishError>)
      requires Valid()
      modifies this`subscriptions
      ensures Valid()
      ensures if closed then r == Err(PublisherClosed)
              else if |old(subscriptions)| >= maxSubscribers then r == Err(TooManySubscribers) else r.Ok?
      ensures r.Err? ==> subscriptions == old(subscriptions)
      ensures r.Ok? ==> fresh(r.value) && subscriptions == old(subscriptions) + {r.value} && r.value.base == sequence
    {
      if closed {
        return Err(PublisherClosed);
      }
      if |subscriptions| >= maxSubscribers {
        return Err(TooManySubscribers);
      }
      var subscription := new AnalysisSubscription(queueCapacity, published);
      subscriptions := subscriptions + {subscription};
      return Ok(subscription);
    }

    /** `publish` */
    method Publish(response: R) returns (r: Result<Publication<R>, PublishError>)
      requires Valid()
      modifies this`sequence, this`responsesPublished, this`published, subscriptions
      ensures Valid()
      ensures if closed then r == Err(PublisherClosed) else r.Ok?
      ensures r.Err? ==> published == old(published)
      ensures r.Ok? ==> r.value == Publication(old(sequence) + 1, response) && published == old(published) + [r.value]
      ensures forall s | s in subscriptions :: s.responsesDelivered == old(s.responsesDelivered)
    {
      if closed {
        return Err(PublisherClosed);
      }
      var publication := Publication(sequence + 1, response);
      Distribute(subscriptions, publication, published);
      sequence := sequence + 1;
      responsesPublished := responsesPublished + 1;
      published := published + [publication];
      return Ok(publication);
    }

    /** `close` */
    method Close()
      requires Valid()
      modifies this`closed, this`subscriptions, subscriptions
      ensures Valid() && closed
      ensures old(closed) ==> subscriptions == old(subscriptions)
      ensures !old(closed) ==> subscriptions == {} && forall s | s in old(subscriptions) :: s.closed && s.queue == []
    {
      if closed {
        return;
      }
      closed := true;
      var open := subscriptions;
      subscriptions := {};
      var rest := open;
      while rest != {}
        invariant rest <= open == old(subscriptions)
        invariant forall s | s in open :: s.Valid(published) && (s !in rest ==> s.closed && s.queue == [])
        invariant closed && subscriptions == {}
        decreases rest
      {
        var s :| s in rest;
        s.CloseFromPublisher(published);
        rest := rest - {s};
      }
    }

    /** `_close_subscription` */
    method CloseSubscription(s: AnalysisSubscription<R>)
      requires Valid() && s.Valid(published)
      modifies this`subscriptions, s
      ensures Valid() && subscriptions == old(subscriptions) - {s} && s.closed && s.queue == []
    {
      subscriptions := subscriptions - {s};
      s.CloseFromPublisher(published);
    }
  }
}
