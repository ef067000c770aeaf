/** From clusters to published events: the filter chain of the NMX instrument and the
    counters of the three components it uses. */
module NmxInstrument {
  import opened Basics
  import opened EssTime
  import EV44Serializer
  import Reduction

  /** The cfg of the configuration file, and the pixel of each pair of coordinates that the
      geometry knows. */
  datatype Config = Config(maxSpanX: int, minSpanX: int, maxSpanY: int, minSpanY: int, maxTimeSpan: int,
                           pixels: map<(uint16, uint16), uint32>) {
    function Pixel2D(x: uint16, y: uint16): uint32 {
      if (x, y) in pixels then pixels[(x, y)] else 0
    }
  }

  /** What is read of a cluster. */
  datatype Plane = Plane(hits: seq<Reduction.Hit>, bounds: Reduction.Bounds, latest: Reduction.Latest) {
    function CoordSpan(): int {
      Reduction.CoordSpan(hits, bounds.coord)
    }

    function TimeSpan(): int {
      if hits == [] then 0 else (bounds.time.end - bounds.time.start + 1) % TWO_64
    }

    predicate Formed() {
      hits != [] ==> 0 <= latest.first < |hits| && 0 <= latest.last < |hits|
    }

    /** The unweighted µTPC coordinate. */
    function Coordinate(): uint16
      requires Formed() && hits != []
    {
      hits[Reduction.UtpcIndex(hits, latest)].coordinate
    }
  }

  /** An event's two clusters. */
  datatype Event = Event(a: Plane, b: Plane) {
    predicate IsEmpty() {
      a.hits == [] && b.hits == []
    }

    predicate BothPlanes() {
      a.hits != [] && b.hits != []
    }

    function TimeEnd(): int {
      if a.hits == [] then b.bounds.time.end
      else if b.hits == [] then a.bounds.time.end
      else if a.bounds.time.end < b.bounds.time.end then b.bounds.time.end else a.bounds.time.end
    }

    /** Events have clusters with hits to point to and times that the clock can show. */
    predicate Formed() {
      a.Formed() && b.Formed() && 0 <= TimeEnd() < TWO_32 * SECOND
    }
  }

  /** The time span counts the times from the first to the last hit, modulo 2^64. */
  lemma TimeSpanCounts(p: Plane)
    requires p.hits != [] ==> Reduction.BoundsAre(p.hits, p.bounds)
    ensures p.hits == [] ==> p.TimeSpan() == 0
    ensures p.hits != [] ==>
              var n := |Reduction.Interval(p.bounds.time.start, p.bounds.time.end)|;
              p.TimeSpan() == if n == 0x1_0000_0000_0000_0000 then 0 else n
  {
    if p.hits != [] {
      Reduction.IntervalSize(p.bounds.time.start, p.bounds.time.end);
    }
  }

  function PlaneOf(c: Reduction.Cluster): Plane
    reads c
  {
    Plane(c.hits, Reduction.Bounds(Reduction.Range(c.timeStart, c.timeEnd), Reduction.Range(c.coordStart, c.coordEnd)),
          Reduction.Latest(c.utpcIdxMin, c.utpcIdxMax))
  }

  function EventOf(e: Reduction.Event): Event
    reads e.clusterA, e.clusterB
  {
    Event(PlaneOf(e.clusterA), PlaneOf(e.clusterB))
  }

  /** Clusters built by inserts and merges form an event as read here. */
  lemma ValidEventIsFormed(e: Reduction.Event)
    requires e.Valid() && e.TimeEnd() < TWO_32 * SECOND
    ensures EventOf(e).Formed() && EventOf(e).TimeEnd() == e.TimeEnd() && (EventOf(e).BothPlanes() <==> e.BothPlanes())
  {
  }

  /** The reference times in force and the longest time of flight. */
  datatype References = References(current: int, previous: int, maxTOF: int)

  // ---- what becomes of an event ----

  datatype Fate =
    | Empty | XOnly | YOnly
    | TooLargeSpanX | TooSmallSpanX | TooLongX | TooLargeSpanY | TooSmallSpanY | TooLongY
    | NoTof(outcome: Outcome) | BadPixel(outcome: Outcome) | Sent(outcome: Outcome, tof: nat, pixel: uint32)

  ghost predicate XFits(cfg: Config, e: Event) {
    cfg.minSpanX <= e.a.CoordSpan() <= cfg.maxSpanX
  }

  ghost predicate YFits(cfg: Config, e: Event) {
    cfg.minSpanY <= e.b.CoordSpan() <= cfg.maxSpanY
  }

  /** No limit on coordinates or times of a plane is exceeded. */
  ghost predicate SpansFit(cfg: Config, e: Event) {
    XFits(cfg, e) && e.a.TimeSpan() <= cfg.maxTimeSpan && YFits(cfg, e) && e.b.TimeSpan() <= cfg.maxTimeSpan
  }

  /** The first reason to leave an event out, if there is one. */
  function Filter(cfg: Config, e: Event): Option<Fate> {
    if e.IsEmpty() then Some(Empty)
    else if e.a.hits == [] then Some(YOnly)
    else if e.b.hits == [] then Some(XOnly)
    else if cfg.maxSpanX < e.a.CoordSpan() then Some(TooLargeSpanX)
    else if cfg.minSpanX > e.a.CoordSpan() then Some(TooSmallSpanX)
    else if cfg.maxTimeSpan < e.a.TimeSpan() then Some(TooLongX)
    else if cfg.maxSpanY < e.b.CoordSpan() then Some(TooLargeSpanY)
    else if cfg.minSpanY > e.b.CoordSpan() then Some(TooSmallSpanY)
    else if cfg.maxTimeSpan < e.b.TimeSpan() then Some(TooLongY)
    else None
  }

  function FlightOf(r: References, e: Event): Outcome
    requires e.Formed()
  {
    Flight(ToNS(FromNS(e.TimeEnd())), r.current, r.previous, r.maxTOF)
  }

  function PixelOf(cfg: Config, e: Event): uint32
    requires e.Formed() && e.BothPlanes()
  {
    cfg.Pixel2D(e.a.Coordinate(), e.b.Coordinate())
  }

  /** The pixel is that of one hit of each plane. A plane's hit has the largest time of the
      plane exactly if no hit that came by a later merge is later than the hit the indices of
      the first cluster point to. */
  lemma PixelAtLargestTimesIff(cfg: Config, e: Reduction.Event)
    requires e.Valid() && e.BothPlanes() && e.TimeEnd() < TWO_32 * SECOND
    requires e.clusterA.tracked > 0 && e.clusterB.tracked > 0
    ensures EventOf(e).Formed() && EventOf(e).BothPlanes()
    ensures var a, b := e.clusterA, e.clusterB;
            && PixelOf(cfg, EventOf(e)) == cfg.Pixel2D(a.hits[a.UtpcHit()].coordinate, b.hits[b.UtpcHit()].coordinate)
            && (Reduction.HasLargestTime(a.hits, a.UtpcHit()) <==>
                forall i :: a.tracked <= i < |a.hits| ==> a.hits[i].time <= a.hits[a.utpcIdxMin].time)
            && (Reduction.HasLargestTime(b.hits, b.UtpcHit()) <==>
                forall i :: b.tracked <= i < |b.hits| ==> b.hits[i].time <= b.hits[b.utpcIdxMin].time)
  {
    ValidEventIsFormed(e);
    e.clusterA.UtpcAtLargestTimeIff();
    e.clusterB.UtpcAtLargestTimeIff();
  }

  /** The coordinate that a plane contributes, told from its hits: first and last are the first
      and the last hit with the largest time of the cluster that the others were merged into. */
  ghost predicate ComesFrom(x: uint16, hits: seq<Reduction.Hit>, tracked: nat, first: nat, last: nat)
    requires first <= last < tracked <= |hits|
  {
    var before, after := first, |hits| - 1 - last;
    && hits[first].time == hits[last].time
    && (forall i :: 0 <= i < tracked ==> hits[i].time <= hits[first].time)
    && (forall i :: 0 <= i < first ==> hits[i].time < hits[first].time)
    && (forall i :: last < i < tracked ==> hits[i].time < hits[last].time)
    && x == if before < after || (before == after && hits[first].weight > hits[last].weight)
            then hits[first].coordinate else hits[last].coordinate
  }

  lemma CoordinateOfCloserEnd(c: Reduction.Cluster, x: uint16, first: nat, last: nat)
    requires c.Valid() && c.hits != [] && first <= last < c.tracked && ComesFrom(x, c.hits, c.tracked, first, last)
    ensures PlaneOf(c).Formed() && PlaneOf(c).Coordinate() == x
  {
    c.UtpcOfCloserEnd(first, last);
  }

  /** The pixel is what the geometry has for the coordinates of both planes, and 0 otherwise. */
  lemma PixelOfCloserEnds(cfg: Config, e: Reduction.Event, x: uint16, y: uint16,
                          firstX: nat, lastX: nat, firstY: nat, lastY: nat)
    requires e.Valid() && e.BothPlanes() && e.TimeEnd() < TWO_32 * SECOND
    requires firstX <= lastX < e.clusterA.tracked && firstY <= lastY < e.clusterB.tracked
    requires ComesFrom(x, e.clusterA.hits, e.clusterA.tracked, firstX, lastX)
    requires ComesFrom(y, e.clusterB.hits, e.clusterB.tracked, firstY, lastY)
    ensures EventOf(e).Formed() && EventOf(e).BothPlanes()
    ensures PixelOf(cfg, EventOf(e)) == if (x, y) in cfg.pixels then cfg.pixels[(x, y)] else 0
  {
    ValidEventIsFormed(e);
    CoordinateOfCloserEnd(e.clusterA, x, firstX, lastX);
    CoordinateOfCloserEnd(e.clusterB, y, firstY, lastY);
  }

  /** Two x clusters joined in an event with a y hit: the last x hit is at 20, and the pixel at
      10, where the first x cluster ended. */
  method PixelOfEarlierCluster(cfg: Config) returns (e: Reduction.Event)
    ensures fresh(e) && e.Valid() && e.planeA == 0 && e.planeB == 1
    ensures e.clusterA.hits == [Reduction.Hit(100, 10, 1, 0), Reduction.Hit(200, 20, 1, 0)]
    ensures e.clusterB.hits == [Reduction.Hit(150, 5, 1, 1)]
    ensures EventOf(e).Formed() && EventOf(e).BothPlanes()
    ensures PixelOf(cfg, EventOf(e)) == cfg.Pixel2D(10, 5)
  {
    e := Reduction.JoinTwo(Reduction.Hit(100, 10, 1, 0), Reduction.Hit(200, 20, 1, 0), Reduction.Hit(150, 5, 1, 1));
  }

  function Matched(cfg: Config, r: References, e: Event): Fate
    requires e.Formed() && e.BothPlanes()
  {
    var o, pixel := FlightOf(r, e), PixelOf(cfg, e);
    if Accepted(o).None? then NoTof(o) else if pixel == 0 then BadPixel(o) else Sent(o, Accepted(o).value, pixel)
  }

  function Classify(cfg: Config, r: References, e: Event): Fate
    requires e.Formed()
  {
    if Filter(cfg, e).Some? then Filter(cfg, e).value else Matched(cfg, r, e)
  }

  /** An event is sent exactly when both planes have hits, the spans fit, the geometry has a
      pixel, and the time of flight from the current or the previous reference is allowed;
      the time of flight sent is never above the maximum. */
  lemma SentIff(cfg: Config, r: References, e: Event)
    requires e.Formed()
    ensures Classify(cfg, r, e).Sent? <==>
            && e.BothPlanes() && SpansFit(cfg, e) && PixelOf(cfg, e) != 0
            && var t := ToNS(FromNS(e.TimeEnd()));
               0 <= t - r.current <= r.maxTOF || (t < r.current && 0 <= t - r.previous <= r.maxTOF)
    ensures Classify(cfg, r, e).Sent? ==>
              Classify(cfg, r, e).tof <= r.maxTOF && Classify(cfg, r, e).pixel == PixelOf(cfg, e)
    ensures Classify(cfg, r, e).Sent? ==>
              var measured := e.TimeEnd() - Classify(cfg, r, e).tof;
              r.current - 6 <= measured <= r.current + 6 || r.previous - 6 <= measured <= r.previous + 6
  {
    FlightAccepted(ToNS(FromNS(e.TimeEnd())), r.current, r.previous, r.maxTOF);
    FromNSError(e.TimeEnd());
  }

  /** A hit's time comes from a time stamp; when that is normal, the way there and back loses
      nothing, and the time of flight sent is the event's time less a reference time. */
  lemma SentExactly(cfg: Config, r: References, e: Event, s: Stamp)
    requires e.Formed() && s.Normal() && e.TimeEnd() == ToNS(s)
    ensures Classify(cfg, r, e).Sent? <==>
            && e.BothPlanes() && SpansFit(cfg, e) && PixelOf(cfg, e) != 0
            && (0 <= e.TimeEnd() - r.current <= r.maxTOF
                || (e.TimeEnd() < r.current && 0 <= e.TimeEnd() - r.previous <= r.maxTOF))
    ensures Classify(cfg, r, e).Sent? ==>
              Classify(cfg, r, e).tof == e.TimeEnd() - if e.TimeEnd() >= r.current then r.current else r.previous
  {
    RoundTripExact(s);
    FlightAccepted(e.TimeEnd(), r.current, r.previous, r.maxTOF);
  }

  /** The serializer stores times of flight in 32 bits with sign, which changes none of those
      allowed exactly when the maximum fits. */
  lemma TofFits32Iff(maxTOF: int)
    ensures maxTOF < 0x8000_0000 <==>
            forall time: int, current: int, previous: int ::
              Accepted(Flight(time, current, previous, maxTOF)).Some? ==>
                var tof := Accepted(Flight(time, current, previous, maxTOF)).value;
                ToInt32(tof) == tof
  {
    if maxTOF >= 0x8000_0000 {
      assert Accepted(Flight(maxTOF, 0, 0, maxTOF)).value == maxTOF;
      assert ToInt32(maxTOF) != maxTOF;
    } else {
      forall time: int, current: int, previous: int | Accepted(Flight(time, current, previous, maxTOF)).Some?
        ensures var tof := Accepted(Flight(time, current, previous, maxTOF)).value; ToInt32(tof) == tof
      {
        FlightAccepted(time, current, previous, maxTOF);
      }
    }
  }

  // ---- counting ----

  datatype Tally = Tally(clustersNoCoincidence: nat, clustersMatchedXOnly: nat, clustersMatchedYOnly: nat,
                         rejected: Rejected,
                         eventsMatchedClusters: nat, events: nat, pixelErrors: nat, tof: Counters)

  datatype Rejected = Rejected(tooLargeSpanX: nat, tooSmallSpanX: nat, tooLargeSpanY: nat, tooSmallSpanY: nat,
                               tooLargeTimeSpan: nat)

  function AllRejected(r: Rejected): nat {
    r.tooLargeSpanX + r.tooSmallSpanX + r.tooLargeSpanY + r.tooSmallSpanY + r.tooLargeTimeSpan
  }

  function AfterReject(r: Rejected, f: Fate): Rejected {
    match f
    case TooLargeSpanX => r.(tooLargeSpanX := r.tooLargeSpanX + 1)
    case TooSmallSpanX => r.(tooSmallSpanX := r.tooSmallSpanX + 1)
    case TooLargeSpanY => r.(tooLargeSpanY := r.tooLargeSpanY + 1)
    case TooSmallSpanY => r.(tooSmallSpanY := r.tooSmallSpanY + 1)
    case TooLongX => r.(tooLargeTimeSpan := r.tooLargeTimeSpan + 1)
    case TooLongY => r.(tooLargeTimeSpan := r.tooLargeTimeSpan + 1)
    case _ => r
  }

  function AfterEvent(t: Tally, f: Fate): Tally {
    match f
    case Empty => t
    case XOnly => t.(clustersNoCoincidence := t.clustersNoCoincidence + 1,
                     clustersMatchedXOnly := t.clustersMatchedXOnly + 1)
    case YOnly => t.(clustersNoCoincidence := t.clustersNoCoincidence + 1,
                     clustersMatchedYOnly := t.clustersMatchedYOnly + 1)
    case NoTof(o) => t.(eventsMatchedClusters := t.eventsMatchedClusters + 1, tof := AfterFlight(t.tof, o))
    case BadPixel(o) =>
      t.(eventsMatchedClusters := t.eventsMatchedClusters + 1, tof := AfterFlight(t.tof, o),
         pixelErrors := t.pixelErrors + 1)
    case Sent(o, _, _) => t.(eventsMatchedClusters := t.eventsMatchedClusters + 1, tof := AfterFlight(t.tof, o),
                             events := t.events + 1)
    case _ => t.(rejected := AfterReject(t.rejected, f))
  }

  function CallsOf(f: Fate): seq<EV44Serializer.Call> {
    if f.Sent? then [EV44Serializer.Call.AddEvent(ToInt32(f.tof), ToInt32(f.pixel))] else []
  }

  ghost predicate AllFormed(es: seq<Event>) {
    forall i :: 0 <= i < |es| ==> es[i].Formed()
  }

  /** The counters after the first n events. */
  ghost function AfterEvents(t: Tally, cfg: Config, r: References, es: seq<Event>, n: nat): Tally
    requires AllFormed(es) && n <= |es|
  {
    if n == 0 then t else AfterEvent(AfterEvents(t, cfg, r, es, n - 1), Classify(cfg, r, es[n - 1]))
  }

  /** What the first n events hand to the serializer, in order. */
  ghost function Handed(cfg: Config, r: References, es: seq<Event>, n: nat): seq<EV44Serializer.Call>
    requires AllFormed(es) && n <= |es|
  {
    if n == 0 then [] else Handed(cfg, r, es, n - 1) + CallsOf(Classify(cfg, r, es[n - 1]))
  }

  lemma HandedNext(calls: seq<EV44Serializer.Call>, cfg: Config, r: References, es: seq<Event>, n: nat)
    requires AllFormed(es) && n < |es|
    ensures calls + Handed(cfg, r, es, n + 1) == calls + Handed(cfg, r, es, n) + CallsOf(Classify(cfg, r, es[n]))
  {
  }

  function CountEmpty(es: seq<Event>, n: nat): nat
    requires n <= |es|
  {
    if n == 0 then 0 else CountEmpty(es, n - 1) + if es[n - 1].IsEmpty() then 1 else 0
  }

  /** How the counters of n events add up. */
  ghost predicate AccountedFor(t: Tally, t': Tally, n: nat, empty: nat, handed: nat) {
    && n == empty + (t'.clustersNoCoincidence - t.clustersNoCoincidence)
            + (AllRejected(t'.rejected) - AllRejected(t.rejected))
              + (t'.eventsMatchedClusters - t.eventsMatchedClusters)
    && t'.clustersNoCoincidence - t.clustersNoCoincidence ==
       (t'.clustersMatchedXOnly - t.clustersMatchedXOnly) + (t'.clustersMatchedYOnly - t.clustersMatchedYOnly)
    && t'.eventsMatchedClusters - t.eventsMatchedClusters ==
       (t'.events - t.events) + (t'.pixelErrors - t.pixelErrors) + (t'.tof.tofHigh - t.tof.tofHigh)
       + (t'.tof.prevTofNegative - t.tof.prevTofNegative) + (t'.tof.prevTofHigh - t.tof.prevTofHigh)
    && handed == t'.events - t.events
    && (Balanced(t.tof) ==> Balanced(t'.tof))
  }

  lemma AccountedTogether(t: Tally, t': Tally, t'': Tally, n: nat, empty: nat, handed: nat, empty': nat, handed': nat)
    requires AccountedFor(t, t', n, empty, handed) && AccountedFor(t', t'', 1, empty', handed')
    ensures AccountedFor(t, t'', n + 1, empty + empty', handed + handed')
  {
  }

  /** What time of flight accepts is not counted as one of its failures, and conversely. */
  predicate OutcomeFits(f: Fate) {
    match f
    case NoTof(o) => Accepted(o).None?
    case BadPixel(o) => Accepted(o).Some?
    case Sent(o, _, _) => Accepted(o).Some?
    case _ => true
  }

  lemma OneFate(t: Tally, f: Fate)
    requires OutcomeFits(f)
    ensures AccountedFor(t, AfterEvent(t, f), 1, if f.Empty? then 1 else 0, |CallsOf(f)|)
  {
  }

  lemma OneEvent(t: Tally, cfg: Config, r: References, e: Event)
    requires e.Formed()
    ensures var f := Classify(cfg, r, e);
            AccountedFor(t, AfterEvent(t, f), 1, if e.IsEmpty() then 1 else 0, |CallsOf(f)|)
  {
    var f := Classify(cfg, r, e);
    assert f.Empty? <==> e.IsEmpty();
    OneFate(t, f);
  }

  /** Nothing gets lost between the counters: events are empty, without coincidence, rejected
      or matched; matched events are sent, or fail their pixel or time of flight; and one
      event is handed to the serializer for each that is counted as sent. */
  lemma {:induction false} EventsAccountedFor(t: Tally, cfg: Config, r: References, es: seq<Event>, n: nat)
    requires AllFormed(es) && n <= |es|
    ensures AccountedFor(t, AfterEvents(t, cfg, r, es, n), n, CountEmpty(es, n), |Handed(cfg, r, es, n)|)
  {
    if n > 0 {
      var t', t'' := AfterEvents(t, cfg, r, es, n - 1), AfterEvents(t, cfg, r, es, n);
      EventsAccountedFor(t, cfg, r, es, n - 1);
      OneEvent(t', cfg, r, es[n - 1]);
      AccountedTogether(t, t', t'', n - 1, CountEmpty(es, n - 1), |Handed(cfg, r, es, n - 1)|,
                        if es[n - 1].IsEmpty() then 1 else 0, |CallsOf(Classify(cfg, r, es[n - 1]))|);
    }
  }

  // ---- the same, told from the events alone ----

  function One(b: bool): nat {
    if b then 1 else 0
  }

  /** Both planes have hits and no limit on their spans is exceeded. */
  ghost predicate Matches(cfg: Config, e: Event) {
    e.a.hits != [] && e.b.hits != [] && SpansFit(cfg, e)
  }

  /** The geometry has a pixel other than 0 for the coordinates of the planes. */
  ghost predicate HasPixel(cfg: Config, e: Event)
    requires e.Formed() && e.a.hits != [] && e.b.hits != []
  {
    && (e.a.Coordinate(), e.b.Coordinate()) in cfg.pixels
    && cfg.pixels[(e.a.Coordinate(), e.b.Coordinate())] != 0
  }

  /** A time at most maxTOF after the current reference, or before it and at most maxTOF after
      the previous one. */
  ghost predicate InTime(r: References, time: int) {
    0 <= time - r.current <= r.maxTOF || (time < r.current && 0 <= time - r.previous <= r.maxTOF)
  }

  /** An event to be published. */
  ghost predicate Passes(cfg: Config, r: References, e: Event)
    requires e.Formed()
  {
    Matches(cfg, e) && HasPixel(cfg, e) && InTime(r, e.TimeEnd())
  }

  /** The call that publishes an event: its end time less the reference in force, and its pixel,
      both in 32 bits with sign. */
  ghost predicate Publishes(call: EV44Serializer.Call, cfg: Config, r: References, e: Event)
    requires e.Formed() && Passes(cfg, r, e)
  {
    && call.AddEvent?
    && call.time == ToInt32(e.TimeEnd() - if e.TimeEnd() >= r.current then r.current else r.previous)
    && call.pixel == ToInt32(cfg.pixels[(e.a.Coordinate(), e.b.Coordinate())])
  }

  /** The time comes from a normal time stamp. */
  ghost predicate FromStamp(e: Event) {
    exists s: Stamp :: s.Normal() && e.TimeEnd() == ToNS(s)
  }

  ghost predicate AllFromStamps(es: seq<Event>) {
    forall i :: 0 <= i < |es| ==> FromStamp(es[i])
  }

  /** One event makes one call exactly if it passes, and the call publishes it. */
  lemma OneCall(cfg: Config, r: References, e: Event)
    requires e.Formed() && FromStamp(e)
    ensures Passes(cfg, r, e) <==> CallsOf(Classify(cfg, r, e)) != []
    ensures Passes(cfg, r, e) ==>
              var calls := CallsOf(Classify(cfg, r, e)); |calls| == 1 && Publishes(calls[0], cfg, r, e)
  {
    var s: Stamp :| s.Normal() && e.TimeEnd() == ToNS(s);
    SentExactly(cfg, r, e, s);
    SentIff(cfg, r, e);
  }

  /** The call for a matched event, from whatever time stamp. */
  lemma MatchedCall(cfg: Config, r: References, e: Event)
    requires e.Formed() && e.BothPlanes()
    ensures var time, calls := ToNS(FromNS(e.TimeEnd())), CallsOf(Matched(cfg, r, e));
            && |calls| == One(HasPixel(cfg, e) && InTime(r, time))
            && (calls != [] ==>
                  && calls[0].AddEvent?
                  && calls[0].time == ToInt32(time - if time >= r.current then r.current else r.previous)
                  && calls[0].pixel == ToInt32(cfg.pixels[(e.a.Coordinate(), e.b.Coordinate())]))
  {
  }

  /** Of the first n events those that pass, in order. */
  ghost function Passing(cfg: Config, r: References, es: seq<Event>, n: nat): (p: seq<Event>)
    requires AllFormed(es) && n <= |es|
    ensures forall k :: 0 <= k < |p| ==> p[k].Formed() && Passes(cfg, r, p[k])
  {
    if n == 0 then []
    else Passing(cfg, r, es, n - 1) + if Passes(cfg, r, es[n - 1]) then [es[n - 1]] else []
  }

  /** One call for each event, in the same order. */
  ghost predicate AllPublished(calls: seq<EV44Serializer.Call>, cfg: Config, r: References, es: seq<Event>)
    requires forall k :: 0 <= k < |es| ==> es[k].Formed() && Passes(cfg, r, es[k])
  {
    |calls| == |es| && forall k :: 0 <= k < |es| ==> Publishes(calls[k], cfg, r, es[k])
  }

  lemma {:induction false} HandedArePassing(cfg: Config, r: References, es: seq<Event>, n: nat)
    requires AllFormed(es) && n <= |es| && AllFromStamps(es)
    ensures AllPublished(Handed(cfg, r, es, n), cfg, r, Passing(cfg, r, es, n))
  {
    if n > 0 {
      HandedArePassing(cfg, r, es, n - 1);
      OneCall(cfg, r, es[n - 1]);
    }
  }

  /** What one event adds to the counters of the planes and of the spans: a limit counts if all
      before it are kept, x before y and coordinates before times. */
  lemma CountedBeforeMatch(t: Tally, cfg: Config, r: References, e: Event)
    requires e.Formed()
    ensures var t', both := AfterEvent(t, Classify(cfg, r, e)), e.a.hits != [] && e.b.hits != [];
            var x, y := e.a.CoordSpan(), e.b.CoordSpan();
            var xDone := both && XFits(cfg, e) && e.a.TimeSpan() <= cfg.maxTimeSpan;
            && t'.clustersMatchedXOnly == t.clustersMatchedXOnly + One(e.a.hits != [] && e.b.hits == [])
            && t'.clustersMatchedYOnly == t.clustersMatchedYOnly + One(e.a.hits == [] && e.b.hits != [])
            && t'.clustersNoCoincidence == t.clustersNoCoincidence + One((e.a.hits == []) != (e.b.hits == []))
            && t'.rejected.tooLargeSpanX == t.rejected.tooLargeSpanX + One(both && x > cfg.maxSpanX)
            && t'.rejected.tooSmallSpanX ==
               t.rejected.tooSmallSpanX + One(both && x <= cfg.maxSpanX && x < cfg.minSpanX)
            && t'.rejected.tooLargeSpanY == t.rejected.tooLargeSpanY + One(xDone && y > cfg.maxSpanY)
            && t'.rejected.tooSmallSpanY ==
               t.rejected.tooSmallSpanY + One(xDone && y <= cfg.maxSpanY && y < cfg.minSpanY)
            && t'.rejected.tooLargeTimeSpan == t.rejected.tooLargeTimeSpan
               + One(both && XFits(cfg, e) && e.a.TimeSpan() > cfg.maxTimeSpan)
               + One(xDone && YFits(cfg, e) && e.b.TimeSpan() > cfg.maxTimeSpan)
  {
  }

  /** And to the others: the flight of a matched event is counted by its outcome, then a missing
      pixel or the event. */
  lemma CountedAfterMatch(t: Tally, cfg: Config, r: References, e: Event)
    requires e.Formed()
    ensures var t', m := AfterEvent(t, Classify(cfg, r, e)), Matches(cfg, e);
            var time := ToNS(FromNS(e.TimeEnd()));
            var late := m && time < r.current;
            && t'.eventsMatchedClusters == t.eventsMatchedClusters + One(m)
            && t'.events == t.events + One(m && InTime(r, time) && HasPixel(cfg, e))
            && t'.pixelErrors == t.pixelErrors + One(m && InTime(r, time) && !HasPixel(cfg, e))
            && t'.tof.tofCount == t.tof.tofCount + One(m && 0 <= time - r.current <= r.maxTOF)
            && t'.tof.tofHigh == t.tof.tofHigh + One(m && time >= r.current && time - r.current > r.maxTOF)
            && t'.tof.tofNegative == t.tof.tofNegative + One(late)
            && t'.tof.prevTofCount == t.tof.prevTofCount + One(late && 0 <= time - r.previous <= r.maxTOF)
            && t'.tof.prevTofNegative == t.tof.prevTofNegative + One(late && time < r.previous)
            && t'.tof.prevTofHigh ==
               t.tof.prevTofHigh + One(late && time >= r.previous && time - r.previous > r.maxTOF)
  {
  }

  /** The counters that a matched event moves. */
  lemma MatchedTally(t: Tally, t': Tally, cfg: Config, r: References, e: Event)
    requires e.Formed() && e.BothPlanes()
    requires t'.tof == AfterFlight(t.tof, FlightOf(r, e)) && t'.eventsMatchedClusters == t.eventsMatchedClusters + 1
    requires t'.events == t.events + if Matched(cfg, r, e).Sent? then 1 else 0
    requires t'.pixelErrors == t.pixelErrors + if Matched(cfg, r, e).BadPixel? then 1 else 0
    requires t'.clustersNoCoincidence == t.clustersNoCoincidence && t'.rejected == t.rejected
    requires t'.clustersMatchedXOnly == t.clustersMatchedXOnly && t'.clustersMatchedYOnly == t.clustersMatchedYOnly
    ensures t' == AfterEvent(t, Matched(cfg, r, e))
  {
  }

  class Instrument {
    const cfg: Config
    const timeRef: ReferenceTime
    const serializer: EV44Serializer.Serializer
    var clustersNoCoincidence: nat
    var clustersMatchedXOnly: nat
    var clustersMatchedYOnly: nat
    var clustersTooLargeSpanX: nat
    var clustersTooSmallSpanX: nat
    var clustersTooLargeSpanY: nat
    var clustersTooSmallSpanY: nat
    var clustersTooLargeTimeSpan: nat
    var eventsMatchedClusters: nat
    var events: nat
    // the geometry's counter
    var pixelErrors: nat

    function Rejections(): Rejected
      reads `clustersTooLargeSpanX, `clustersTooSmallSpanX, `clustersTooLargeSpanY, `clustersTooSmallSpanY,
            `clustersTooLargeTimeSpan
    {
      Rejected(clustersTooLargeSpanX, clustersTooSmallSpanX, clustersTooLargeSpanY, clustersTooSmallSpanY,
               clustersTooLargeTimeSpan)
    }

    function Counted(): Tally
      reads this, timeRef
    {
      Tally(clustersNoCoincidence, clustersMatchedXOnly, clustersMatchedYOnly, Rejections(), eventsMatchedClusters,
            events, pixelErrors, timeRef.Counts())
    }

    function Refs(): References
      reads timeRef`timeInNS, timeRef`prevTimeInNS, timeRef`maxTOF
    {
      References(timeRef.timeInNS, timeRef.prevTimeInNS, timeRef.maxTOF)
    }

    constructor (cfg: Config, timeRef: ReferenceTime, serializer: EV44Serializer.Serializer)
      ensures this.cfg == cfg && this.timeRef == timeRef && this.serializer == serializer
      ensures Counted() == Tally(0, 0, 0, Rejected(0, 0, 0, 0, 0), 0, 0, 0, timeRef.Counts())
    {
      this.cfg, this.timeRef, this.serializer := cfg, timeRef, serializer;
      clustersNoCoincidence, clustersMatchedXOnly, clustersMatchedYOnly := 0, 0, 0;
      clustersTooLargeSpanX, clustersTooSmallSpanX, clustersTooLargeSpanY, clustersTooSmallSpanY := 0, 0, 0, 0;
      clustersTooLargeTimeSpan, eventsMatchedClusters, events, pixelErrors := 0, 0, 0, 0;
    }

    /** Counts an event that has no coincidence. */
    method CountPlanes(e: Event) returns (passed: bool)
      modifies `clustersNoCoincidence, `clustersMatchedXOnly, `clustersMatchedYOnly
      ensures passed <==> e.BothPlanes()
      ensures clustersMatchedXOnly == old(clustersMatchedXOnly) + One(e.a.hits != [] && e.b.hits == [])
      ensures clustersMatchedYOnly == old(clustersMatchedYOnly) + One(e.a.hits == [] && e.b.hits != [])
      ensures clustersNoCoincidence == old(clustersNoCoincidence) + One((e.a.hits == []) != (e.b.hits == []))
      ensures Counted() == if passed then old(Counted()) else AfterEvent(old(Counted()), Filter(cfg, e).value)
    {
      if e.a.hits == [] && e.b.hits == [] {
        return false;
      }
      if !(e.a.hits != [] && e.b.hits != []) {
        clustersNoCoincidence := clustersNoCoincidence + 1;
        if e.a.hits == [] {
          clustersMatchedYOnly := clustersMatchedYOnly + 1;
        }
        if e.b.hits == [] {
          clustersMatchedXOnly := clustersMatchedXOnly + 1;
        }
        return false;
      }
      return true;
    }

    /** Counts an event whose spans do not fit, by the first that does not. */
    method CountSpans(e: Event) returns (passed: bool)
      requires e.BothPlanes()
      modifies `clustersTooLargeSpanX, `clustersTooSmallSpanX, `clustersTooLargeSpanY, `clustersTooSmallSpanY,
               `clustersTooLargeTimeSpan
      ensures passed <==> Filter(cfg, e).None?
      ensures passed <==> Matches(cfg, e)
      ensures clustersTooLargeSpanX == old(clustersTooLargeSpanX) + One(e.a.CoordSpan() > cfg.maxSpanX)
      ensures clustersTooSmallSpanX ==
                old(clustersTooSmallSpanX) + One(e.a.CoordSpan() <= cfg.maxSpanX && e.a.CoordSpan() < cfg.minSpanX)
      ensures clustersTooLargeSpanY ==
                old(clustersTooLargeSpanY)
                + One(XFits(cfg, e) && e.a.TimeSpan() <= cfg.maxTimeSpan && e.b.CoordSpan() > cfg.maxSpanY)
      ensures clustersTooLargeTimeSpan > old(clustersTooLargeTimeSpan) <==>
                && XFits(cfg, e) && (e.a.TimeSpan() > cfg.maxTimeSpan
                                     || (YFits(cfg, e) && e.b.TimeSpan() > cfg.maxTimeSpan))
      ensures Counted() == if passed then old(Counted()) else AfterEvent(old(Counted()), Filter(cfg, e).value)
    {
      if cfg.maxSpanX < e.a.CoordSpan() {
        clustersTooLargeSpanX := clustersTooLargeSpanX + 1;
        return false;
      }
      if cfg.minSpanX > e.a.CoordSpan() {
        clustersTooSmallSpanX := clustersTooSmallSpanX + 1;
        return false;
      }
      if cfg.maxTimeSpan < e.a.TimeSpan() {
        clustersTooLargeTimeSpan := clustersTooLargeTimeSpan + 1;
        return false;
      }
      if cfg.maxSpanY < e.b.CoordSpan() {
        clustersTooLargeSpanY := clustersTooLargeSpanY + 1;
        return false;
      }
      if cfg.minSpanY > e.b.CoordSpan() {
        clustersTooSmallSpanY := clustersTooSmallSpanY + 1;
        return false;
      }
      if cfg.maxTimeSpan < e.b.TimeSpan() {
        clustersTooLargeTimeSpan := clustersTooLargeTimeSpan + 1;
        return false;
      }
      return true;
    }

    /** The pixel of the two µTPC coordinates. */
    method CalcPixel(e: Event) returns (pixel: uint32)
      requires e.Formed() && e.BothPlanes()
      modifies `pixelErrors
      ensures pixel == PixelOf(cfg, e) && pixelErrors == old(pixelErrors) + if pixel == 0 then 1 else 0
    {
      var x, y := e.a.Coordinate(), e.b.Coordinate();
      pixel := cfg.Pixel2D(x, y);
      if pixel == 0 {
        pixelErrors := pixelErrors + 1;
      }
    }

    /** Time of flight, pixel, serializer. */
    method SendMatched(e: Event)
      requires e.Formed() && e.BothPlanes() && serializer.Valid()
      modifies `eventsMatchedClusters, `events, `pixelErrors, timeRef, serializer, serializer.offsetTimes,
               serializer.pixels
      ensures Refs() == old(Refs()) && timeRef.Counts() == AfterFlight(old(timeRef.Counts()), FlightOf(Refs(), e))
      ensures eventsMatchedClusters == old(eventsMatchedClusters) + 1
      ensures events == old(events) + if Matched(cfg, Refs(), e).Sent? then 1 else 0
      ensures pixelErrors == old(pixelErrors) + if Matched(cfg, Refs(), e).BadPixel? then 1 else 0
      ensures serializer.Valid() && serializer.calls == old(serializer.calls) + CallsOf(Matched(cfg, Refs(), e))
    {
      eventsMatchedClusters := eventsMatchedClusters + 1;
      var tof := MeasureTof(e);
      if tof.Some? {
        Send(e, tof.value);
      }
    }

    method MeasureTof(e: Event) returns (tof: Option<nat>)
      requires e.Formed()
      modifies timeRef
      ensures tof == Accepted(FlightOf(Refs(), e)) && Refs() == old(Refs())
      ensures timeRef.Counts() == AfterFlight(old(timeRef.Counts()), FlightOf(Refs(), e))
    {
      tof := timeRef.GetTOF(FromNS(e.TimeEnd()), 0);
    }

    method Send(e: Event, tof: nat)
      requires e.Formed() && e.BothPlanes() && serializer.Valid()
      modifies `events, `pixelErrors, serializer, serializer.offsetTimes, serializer.pixels
      ensures events == old(events) + if PixelOf(cfg, e) == 0 then 0 else 1
      ensures pixelErrors == old(pixelErrors) + if PixelOf(cfg, e) == 0 then 1 else 0
      ensures serializer.Valid()
      ensures serializer.calls == old(serializer.calls) +
                if PixelOf(cfg, e) == 0 then []
                else [EV44Serializer.Call.AddEvent(ToInt32(tof), ToInt32(PixelOf(cfg, e)))]
    {
      var pixel := CalcPixel(e);
      if pixel == 0 {
        return;
      }
      var _ := serializer.AddEvent(ToInt32(tof), ToInt32(pixel));
      events := events + 1;
    }

    method FinishEvent(e: Event)
      requires e.Formed() && e.BothPlanes() && serializer.Valid()
      modifies `eventsMatchedClusters, `events, `pixelErrors, timeRef, serializer, serializer.offsetTimes,
               serializer.pixels
      ensures Counted() == AfterEvent(old(Counted()), Matched(cfg, Refs(), e)) && Refs() == old(Refs())
      ensures serializer.Valid() && serializer.calls == old(serializer.calls) + CallsOf(Matched(cfg, Refs(), e))
    {
      SendMatched(e);
      MatchedTally(old(Counted()), Counted(), cfg, Refs(), e);
    }

    method ProcessEvent(e: Event)
      requires e.Formed() && serializer.Valid()
      modifies this, timeRef, serializer, serializer.offsetTimes, serializer.pixels
      ensures Counted() == AfterEvent(old(Counted()), Classify(cfg, Refs(), e)) && Refs() == old(Refs())
      ensures serializer.Valid() && serializer.calls == old(serializer.calls) + CallsOf(Classify(cfg, Refs(), e))
    {
      var passed := CountPlanes(e);
      if passed {
        passed := CountSpans(e);
        if passed {
          FinishEvent(e);
        }
      }
    }

    /** The next event after the first n. */
    method ProcessNext(es: seq<Event>, n: nat, ghost counted: Tally, ghost calls: seq<EV44Serializer.Call>)
      requires serializer.Valid() && AllFormed(es) && n < |es|
      requires Counted() == AfterEvents(counted, cfg, Refs(), es, n)
      requires serializer.calls == calls + Handed(cfg, Refs(), es, n)
      modifies this, timeRef, serializer, serializer.offsetTimes, serializer.pixels
      ensures serializer.Valid() && Refs() == old(Refs())
      ensures Counted() == AfterEvents(counted, cfg, Refs(), es, n + 1)
      ensures serializer.calls == calls + Handed(cfg, Refs(), es, n + 1)
    {
      HandedNext(calls, cfg, Refs(), es, n);
      ProcessEvent(es[n]);
    }

    method ProcessAll(es: seq<Event>)
      requires serializer.Valid() && AllFormed(es)
      modifies this, timeRef, serializer, serializer.offsetTimes, serializer.pixels
      ensures Refs() == old(Refs())
      ensures Counted() == AfterEvents(old(Counted()), cfg, Refs(), es, |es|)
      ensures serializer.Valid() && serializer.calls == old(serializer.calls) + Handed(cfg, Refs(), es, |es|)
    {
      ghost var counted, calls := Counted(), serializer.calls;
      for i := 0 to |es|
        invariant serializer.Valid() && Refs() == old(Refs())
        invariant Counted() == AfterEvents(counted, cfg, Refs(), es, i)
        invariant serializer.calls == calls + Handed(cfg, Refs(), es, i)
      {
        ProcessNext(es, i, counted, calls);
      }
    }

    /** Processes the events and clears the list. When their times come from normal time stamps,
        the serializer receives one call for each event that passes, in order, with the event's
        own time of flight and pixel. */
    method GenerateEvents(es: seq<Event>) returns (left: seq<Event>)
      requires serializer.Valid() && AllFormed(es)
      modifies this, timeRef, serializer, serializer.offsetTimes, serializer.pixels
      ensures left == [] && Refs() == old(Refs())
      ensures Counted() == AfterEvents(old(Counted()), cfg, Refs(), es, |es|)
      ensures serializer.Valid() && serializer.calls == old(serializer.calls) + Handed(cfg, Refs(), es, |es|)
      ensures AllFromStamps(es) ==>
                && |old(serializer.calls)| <= |serializer.calls|
                && serializer.calls[..|old(serializer.calls)|] == old(serializer.calls)
                && AllPublished(serializer.calls[|old(serializer.calls)|..], cfg, Refs(),
                                Passing(cfg, Refs(), es, |es|))
    {
      ProcessAll(es);
      if AllFromStamps(es) {
        HandedArePassing(cfg, Refs(), es, |es|);
      }
      left := [];
    }
  }
}
