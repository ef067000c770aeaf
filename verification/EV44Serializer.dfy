/** Event messages built in place: one buffer of times and one of pixels are
    filled, published and filled again. */
module EV44Serializer {
  import opened Basics

  /** A message as the consumer of the buffer reads it. */
  datatype Message = Message(id: nat, referenceTime: int, times: seq<int32>, pixels: seq<int32>)

  /** An event together with the reference time it belongs to. */
  datatype TaggedEvent = TaggedEvent(referenceTime: int, time: int32, pixel: int32)

  /** The calls a client makes. */
  datatype Call = AddEvent(time: int32, pixel: int32) | CheckAndSetReferenceTime(reference: int) | Produce

  // ---- what the calls ask for, without any buffering ----

  function ReferenceAfter(initial: int, calls: seq<Call>): int {
    if calls == [] then initial
    else
      var last := calls[|calls| - 1];
      if last.CheckAndSetReferenceTime? then last.reference else ReferenceAfter(initial, calls[..|calls| - 1])
  }

  /** Every added event, in order, with the reference time in force when it was added. */
  function Added(initial: int, calls: seq<Call>): seq<TaggedEvent> {
    if calls == [] then []
    else
      var before, last := calls[..|calls| - 1], calls[|calls| - 1];
      Added(initial, before)
      + if last.AddEvent? then [TaggedEvent(ReferenceAfter(initial, before), last.time, last.pixel)] else []
  }

  function ProduceCalls(calls: seq<Call>): nat {
    if calls == [] then 0
    else ProduceCalls(calls[..|calls| - 1]) + if calls[|calls| - 1].Produce? then 1 else 0
  }

  lemma CallsGrow(initial: int, calls: seq<Call>, call: Call)
    ensures ReferenceAfter(initial, calls + [call]) ==
            if call.CheckAndSetReferenceTime? then call.reference else ReferenceAfter(initial, calls)
    ensures Added(initial, calls + [call]) == Added(initial, calls)
              + if call.AddEvent? then [TaggedEvent(ReferenceAfter(initial, calls), call.time, call.pixel)] else []
    ensures ProduceCalls(calls + [call]) == ProduceCalls(calls) + if call.Produce? then 1 else 0
  {
    assert (calls + [call])[..|calls|] == calls;
  }

  // ---- what was published ----

  function Tag(referenceTime: int, times: seq<int32>, pixels: seq<int32>): seq<TaggedEvent>
    requires |times| == |pixels|
  {
    seq(|times|, i requires 0 <= i < |times| => TaggedEvent(referenceTime, times[i], pixels[i]))
  }

  lemma TagOneMore(referenceTime: int, times: seq<int32>, pixels: seq<int32>, time: int32, pixel: int32)
    requires |times| == |pixels|
    ensures Tag(referenceTime, times + [time], pixels + [pixel]) ==
            Tag(referenceTime, times, pixels) + [TaggedEvent(referenceTime, time, pixel)]
  {
  }

  /** Messages numbered 1, 2, 3, ..., each with 1 to maxEvents events. */
  ghost predicate WellNumbered(published: seq<Message>, maxEvents: nat) {
    forall i :: 0 <= i < |published| ==>
      && published[i].id == i + 1
      && 1 <= |published[i].times| == |published[i].pixels| <= maxEvents
  }

  ghost function Events(published: seq<Message>, maxEvents: nat): seq<TaggedEvent>
    requires WellNumbered(published, maxEvents)
  {
    if published == [] then []
    else
      var last := published[|published| - 1];
      Events(published[..|published| - 1], maxEvents) + Tag(last.referenceTime, last.times, last.pixels)
  }

  lemma PublishOne(published: seq<Message>, m: Message, maxEvents: nat)
    requires WellNumbered(published, maxEvents)
    requires m.id == |published| + 1 && 1 <= |m.times| == |m.pixels| <= maxEvents
    ensures WellNumbered(published + [m], maxEvents)
    ensures Events(published + [m], maxEvents) == Events(published, maxEvents) + Tag(m.referenceTime, m.times, m.pixels)
  {
    assert (published + [m])[..|published|] == published;
  }

  class Serializer {
    const maxEvents: nat
    var eventCount: nat
    var messageId: nat
    // the flatbuffer that is rewritten in place
    var bufferMessageId: nat
    var timeLength: nat
    var pixelLength: nat
    var bufferReferenceTime: int
    const offsetTimes: array<int32>
    const pixels: array<int32>
    // EV44SerializerStats
    var produceCalled: nat
    var produceRefTimeTriggered: nat
    var produceTriggeredMaxEvents: nat

    // the calls made so far, the content the buffer had at first, and what the callback received
    ghost var calls: seq<Call>
    ghost const initialReference: int
    ghost var published: seq<Message>

    /** Every added event is published or pending, exactly once and in order, with
        the reference time in force when it was added. */
    ghost predicate Valid()
      reads this, offsetTimes, pixels
    {
      && Consistent() && eventCount < maxEvents
      && Events(published, maxEvents) + Pending() == Added(initialReference, calls)
      && produceCalled == produceRefTimeTriggered + produceTriggeredMaxEvents + ProduceCalls(calls)
    }

    ghost predicate Consistent()
      reads this, offsetTimes, pixels
    {
      && offsetTimes != pixels && offsetTimes.Length == pixels.Length == maxEvents && eventCount <= maxEvents
      && messageId == |published| + 1 && WellNumbered(published, maxEvents)
      && bufferReferenceTime == ReferenceAfter(initialReference, calls)
    }

    ghost function Pending(): seq<TaggedEvent>
      requires offsetTimes.Length == pixels.Length == maxEvents && eventCount <= maxEvents
      reads this, offsetTimes, pixels
    {
      Tag(bufferReferenceTime, offsetTimes[..eventCount], pixels[..eventCount])
    }

    /** The reference time is uninitialised memory at first. */
    constructor (maxEvents: nat, uninitialised: int)
      requires maxEvents >= 1
      ensures Valid() && fresh(offsetTimes) && fresh(pixels)
      ensures this.maxEvents == maxEvents && calls == [] && published == [] && initialReference == uninitialised
    {
      this.maxEvents := maxEvents;
      eventCount, messageId := 0, 1;
      bufferMessageId, timeLength, pixelLength := 0, maxEvents, maxEvents;
      bufferReferenceTime := uninitialised;
      offsetTimes := new int32[maxEvents](_ => 0);
      pixels := new int32[maxEvents](_ => 0);
      produceCalled, produceRefTimeTriggered, produceTriggeredMaxEvents := 0, 0, 0;
      calls, published, initialReference := [], [], uninitialised;
    }

    /** Completes the message in the buffer and starts over. */
    method Serialize()
      requires eventCount <= maxEvents
      modifies this`bufferMessageId, this`timeLength, this`pixelLength, this`eventCount, this`messageId
      ensures bufferMessageId == old(messageId) && messageId == old(messageId) + 1
      ensures timeLength == pixelLength == old(eventCount) && eventCount == 0
    {
      bufferMessageId := messageId;
      timeLength := eventCount;
      pixelLength := eventCount;
      eventCount := 0;
      messageId := messageId + 1;
    }

    /** Publishes the pending events, if there are any. */
    method ProducePending() returns (sent: bool)
      requires Consistent()
      modifies this`bufferMessageId, this`timeLength, this`pixelLength, this`eventCount, this`messageId,
               this`produceCalled, this`published
      ensures offsetTimes.Length == pixels.Length == maxEvents && eventCount == 0
      ensures messageId == |published| + 1 && WellNumbered(published, maxEvents)
      ensures sent <==> old(eventCount) > 0
      ensures |published| == |old(published)| + (if sent then 1 else 0)
      ensures Events(published, maxEvents) == Events(old(published), maxEvents) + old(Pending())
      ensures produceCalled == old(produceCalled) + 1
    {
      produceCalled := produceCalled + 1;
      if eventCount != 0 {
        Serialize();
        ghost var message := Message(bufferMessageId, bufferReferenceTime, offsetTimes[..timeLength],
                                     pixels[..pixelLength]);
        PublishOne(published, message, maxEvents);
        published := published + [message];
        sent := true;
      } else {
        sent := false;
      }
    }

    method Produce() returns (sent: bool)
      requires Valid()
      modifies this
      ensures Valid() && calls == old(calls) + [Call.Produce]
      ensures eventCount == 0 && (sent <==> old(eventCount) > 0)
      ensures produceTriggeredMaxEvents == old(produceTriggeredMaxEvents)
    {
      sent := ProducePending();
      CallsGrow(initialReference, calls, Call.Produce);
      calls := calls + [Call.Produce];
    }

    /** A new reference time first publishes what belongs to the old one. */
    method CheckAndSetReferenceTime(time: int) returns (sent: bool)
      requires Valid()
      modifies this
      ensures Valid() && calls == old(calls) + [Call.CheckAndSetReferenceTime(time)]
      ensures bufferReferenceTime == time
      ensures sent <==> old(bufferReferenceTime) != time && old(eventCount) > 0
      ensures produceTriggeredMaxEvents == old(produceTriggeredMaxEvents)
    {
      sent := false;
      if time != bufferReferenceTime {
        sent := ProducePending();
        produceRefTimeTriggered := produceRefTimeTriggered + 1;
        bufferReferenceTime := time;
      }
      CallsGrow(initialReference, calls, Call.CheckAndSetReferenceTime(time));
      calls := calls + [Call.CheckAndSetReferenceTime(time)];
    }

    method Store(time: int32, pixel: int32)
      requires offsetTimes != pixels && offsetTimes.Length == pixels.Length == maxEvents && eventCount < maxEvents
      modifies this`eventCount, offsetTimes, pixels
      ensures eventCount == old(eventCount) + 1
      ensures Pending() == old(Pending()) + [TaggedEvent(bufferReferenceTime, time, pixel)]
    {
      ghost var times, ids := offsetTimes[..eventCount], pixels[..eventCount];
      offsetTimes[eventCount] := time;
      pixels[eventCount] := pixel;
      eventCount := eventCount + 1;
      assert offsetTimes[..eventCount] == times + [time];
      assert pixels[..eventCount] == ids + [pixel];
      TagOneMore(bufferReferenceTime, times, ids, time, pixel);
    }

    /** One more event pending, for which the buffer may now be full. */
    method StoreEvent(time: int32, pixel: int32)
      requires Valid()
      modifies this`eventCount, this`calls, offsetTimes, pixels
      ensures Consistent() && calls == old(calls) + [Call.AddEvent(time, pixel)] && eventCount == old(eventCount) + 1
      ensures Events(published, maxEvents) + Pending() == Added(initialReference, calls)
      ensures ProduceCalls(calls) == ProduceCalls(old(calls))
    {
      ghost var sofar, pending := Events(published, maxEvents), Pending();
      Store(time, pixel);
      ghost var event := TaggedEvent(bufferReferenceTime, time, pixel);
      assert sofar + (pending + [event]) == (sofar + pending) + [event];
      CallsGrow(initialReference, calls, Call.AddEvent(time, pixel));
      calls := calls + [Call.AddEvent(time, pixel)];
    }

    /** The buffer is full. */
    method ProduceFull()
      requires Consistent() && eventCount == maxEvents >= 1
      requires Events(published, maxEvents) + Pending() == Added(initialReference, calls)
      requires produceCalled == produceRefTimeTriggered + produceTriggeredMaxEvents + ProduceCalls(calls)
      modifies this`bufferMessageId, this`timeLength, this`pixelLength, this`eventCount, this`messageId
      modifies this`produceCalled, this`published, this`produceTriggeredMaxEvents
      ensures Valid() && eventCount == 0 && produceTriggeredMaxEvents == old(produceTriggeredMaxEvents) + 1
    {
      produceTriggeredMaxEvents := produceTriggeredMaxEvents + 1;
      var _ := ProducePending();
      assert Pending() == [];
    }

    /** Publishes as soon as the buffer is full. */
    method AddEvent(time: int32, pixel: int32) returns (sent: bool)
      requires Valid()
      modifies this, offsetTimes, pixels
      ensures Valid() && calls == old(calls) + [Call.AddEvent(time, pixel)]
      ensures sent <==> old(eventCount) + 1 == maxEvents
      ensures bufferReferenceTime == old(bufferReferenceTime)
      ensures eventCount == if sent then 0 else old(eventCount) + 1
      ensures produceTriggeredMaxEvents == old(produceTriggeredMaxEvents) + if sent then 1 else 0
    {
      StoreEvent(time, pixel);
      sent := eventCount >= maxEvents;
      if sent {
        ProduceFull();
      }
    }
  }
}
