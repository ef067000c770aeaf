/** Clusters of detector hits with cached sums, bounds and indices, and events pairing two
    of them. Sums are exact numbers here; the program keeps them in doubles. */
module Reduction {
  import opened Basics
  import opened Multiples

  const INVALID_PLANE: uint8 := 255
  const INVALID_COORD: uint16 := 65535

  datatype Hit = Hit(time: uint64, coordinate: uint16, weight: uint16, plane: uint8)

  // ---- what the cached values mean, as functions of the hits ----

  /** The quantities that a cluster sums over its hits. */
  datatype Quantity = Weight | Weight2 | CoordMoment | CoordMoment2 | TimeMoment | TimeMoment2

  function Measure(q: Quantity, h: Hit): int {
    match q
    case Weight => h.weight
    case Weight2 => Times(h.weight, h.weight)
    case CoordMoment => Times(h.weight, h.coordinate)
    case CoordMoment2 => Times(Times(h.weight, h.weight), h.coordinate)
    case TimeMoment => Times(h.weight, h.time)
    case TimeMoment2 => Times(Times(h.weight, h.weight), h.time)
  }

  /** The sum over the first n hits. */
  function SumFirst(hits: seq<Hit>, n: nat, q: Quantity): int
    requires n <= |hits|
  {
    if n == 0 then 0 else SumFirst(hits, n - 1, q) + Measure(q, hits[n - 1])
  }

  function SumBy(hits: seq<Hit>, q: Quantity): int {
    SumFirst(hits, |hits|, q)
  }

  /** The six weighted sums a cluster keeps. */
  datatype Sums = Sums(weight: int, weight2: int, coordMass: int, coordMass2: int, timeMass: int, timeMass2: int)

  function Of(s: Sums, q: Quantity): int {
    match q
    case Weight => s.weight
    case Weight2 => s.weight2
    case CoordMoment => s.coordMass
    case CoordMoment2 => s.coordMass2
    case TimeMoment => s.timeMass
    case TimeMoment2 => s.timeMass2
  }

  function Zero(): Sums {
    Sums(0, 0, 0, 0, 0, 0)
  }

  /** Every sum is that of the hits, added to what it was stale by. */
  ghost predicate SumsAre(stale: Sums, hits: seq<Hit>, sums: Sums) {
    forall q: Quantity :: Of(sums, q) == Of(stale, q) + SumBy(hits, q)
  }

  function Plus(a: Sums, b: Sums): Sums {
    Sums(a.weight + b.weight, a.weight2 + b.weight2, a.coordMass + b.coordMass, a.coordMass2 + b.coordMass2,
         a.timeMass + b.timeMass, a.timeMass2 + b.timeMass2)
  }

  lemma NoHits(sums: Sums)
    ensures SumsAre(sums, [], sums)
  {
  }

  lemma {:induction false} SumFirstAppend(a: seq<Hit>, b: seq<Hit>, n: nat, q: Quantity)
    requires n <= |b|
    ensures SumFirst(a + b, |a| + n, q) == SumBy(a, q) + SumFirst(b, n, q)
  {
    if n == 0 {
      SumFirstPrefix(a, a + b, |a|, q);
    } else {
      SumFirstAppend(a, b, n - 1, q);
    }
  }

  lemma {:induction false} SumFirstPrefix(a: seq<Hit>, ab: seq<Hit>, n: nat, q: Quantity)
    requires n <= |a| <= |ab| && a == ab[..|a|]
    ensures SumFirst(a, n, q) == SumFirst(ab, n, q)
  {
    if n > 0 {
      SumFirstPrefix(a, ab, n - 1, q);
      assert a[n - 1] == ab[n - 1];
    }
  }

  lemma NothingStale(stale: Sums, sums: Sums)
    requires SumsAre(stale, [], sums)
    ensures stale == sums
  {
    assert forall q: Quantity :: Of(sums, q) == Of(stale, q);
    assert Of(sums, Weight) == Of(stale, Weight) && Of(sums, Weight2) == Of(stale, Weight2);
    assert Of(sums, CoordMoment) == Of(stale, CoordMoment) && Of(sums, CoordMoment2) == Of(stale, CoordMoment2);
    assert Of(sums, TimeMoment) == Of(stale, TimeMoment) && Of(sums, TimeMoment2) == Of(stale, TimeMoment2);
  }

  lemma SumsMerge(a: seq<Hit>, b: seq<Hit>, staleA: Sums, staleB: Sums, sumsA: Sums, sumsB: Sums)
    requires SumsAre(staleA, a, sumsA) && SumsAre(staleB, b, sumsB)
    ensures SumsAre(Plus(staleA, staleB), a + b, Plus(sumsA, sumsB))
  {
    forall q: Quantity ensures Of(Plus(sumsA, sumsB), q) == Of(Plus(staleA, staleB), q) + SumBy(a + b, q) {
      SumFirstAppend(a, b, |b|, q);
      assert Of(sumsA, q) == Of(staleA, q) + SumBy(a, q);
      assert Of(sumsB, q) == Of(staleB, q) + SumBy(b, q);
    }
  }

  /** The sums after adding one hit, computed as insert does. */
  function PlusHit(s: Sums, e: Hit): Sums {
    var w := e.weight;
    Sums(s.weight + w, s.weight2 + w * w, s.coordMass + w * e.coordinate, s.coordMass2 + w * w * e.coordinate,
         s.timeMass + w * e.time, s.timeMass2 + w * w * e.time)
  }

  lemma SumsInsert(stale: Sums, hits: seq<Hit>, sums: Sums, e: Hit)
    requires SumsAre(stale, hits, sums)
    ensures SumsAre(stale, hits + [e], PlusHit(sums, e))
  {
    forall q: Quantity ensures Of(PlusHit(sums, e), q) == Of(stale, q) + SumBy(hits + [e], q) {
      SumFirstAppend(hits, [e], 1, q);
      MeasureIsProduct(e, q);
      assert Of(PlusHit(sums, e), q) == Of(sums, q) + Measure(q, e);
    }
  }

  lemma MeasureIsProduct(e: Hit, q: Quantity)
    ensures Measure(q, e) == match q
                             case Weight => e.weight
                             case Weight2 => e.weight * e.weight
                             case CoordMoment => e.weight * e.coordinate
                             case CoordMoment2 => e.weight * e.weight * e.coordinate
                             case TimeMoment => e.weight * e.time
                             case TimeMoment2 => e.weight * e.weight * e.time
  {
    TimesIsProduct(e.weight, e.weight);
    TimesIsProduct(e.weight, e.coordinate);
    TimesIsProduct(e.weight * e.weight, e.coordinate);
    TimesIsProduct(e.weight, e.time);
    TimesIsProduct(e.weight * e.weight, e.time);
  }

  /** The common plane of the hits, or the invalid plane when they differ. */
  ghost function CommonPlane(hits: seq<Hit>): uint8
    requires hits != []
  {
    if forall i :: 0 <= i < |hits| ==> hits[i].plane == hits[0].plane then hits[0].plane else INVALID_PLANE
  }

  lemma CommonPlaneAppend(a: seq<Hit>, b: seq<Hit>)
    requires a != [] && b != []
    ensures CommonPlane(a + b) == if CommonPlane(b) != CommonPlane(a) then INVALID_PLANE else CommonPlane(a)
  {
    var ab := a + b;
    assert forall i :: 0 <= i < |a| ==> ab[i] == a[i];
    assert forall i :: 0 <= i < |b| ==> ab[|a| + i] == b[i];
    if forall i :: 0 <= i < |ab| ==> ab[i].plane == ab[0].plane {
      assert forall i :: 0 <= i < |b| ==> b[i].plane == ab[0].plane;
    } else {
      var i :| 0 <= i < |ab| && ab[i].plane != ab[0].plane;
      assert i < |a| || ab[i] == b[i - |a|];
    }
  }

  datatype Range = Range(start: int, end: int)

  datatype Bounds = Bounds(time: Range, coord: Range)

  /** The time and coordinate ranges of the hits. */
  ghost predicate BoundsAre(hits: seq<Hit>, b: Bounds) {
    && (forall i :: 0 <= i < |hits| ==> b.time.start <= hits[i].time <= b.time.end)
    && (forall i :: 0 <= i < |hits| ==> b.coord.start <= hits[i].coordinate <= b.coord.end)
    && (exists i :: 0 <= i < |hits| && hits[i].time == b.time.start)
    && (exists i :: 0 <= i < |hits| && hits[i].time == b.time.end)
    && (exists i :: 0 <= i < |hits| && hits[i].coordinate == b.coord.start)
    && (exists i :: 0 <= i < |hits| && hits[i].coordinate == b.coord.end)
  }

  function Span(a: Range, b: Range): Range {
    Range(if b.start < a.start then b.start else a.start, if b.end > a.end then b.end else a.end)
  }

  function Hull(a: Bounds, b: Bounds): Bounds {
    Bounds(Span(a.time, b.time), Span(a.coord, b.coord))
  }

  function Point(e: Hit): Bounds {
    Bounds(Range(e.time, e.time), Range(e.coordinate, e.coordinate))
  }

  lemma BoundsAppend(a: seq<Hit>, b: seq<Hit>, ba: Bounds, bb: Bounds)
    requires BoundsAre(a, ba) && BoundsAre(b, bb)
    ensures BoundsAre(a + b, Hull(ba, bb))
  {
    var ab := a + b;
    assert forall i :: 0 <= i < |a| ==> ab[i] == a[i];
    assert forall i :: 0 <= i < |b| ==> ab[|a| + i] == b[i];
  }

  /** Bounds are determined by the hits. */
  lemma BoundsUnique(hits: seq<Hit>, b: Bounds, b': Bounds)
    requires BoundsAre(hits, b) && BoundsAre(hits, b')
    ensures b == b'
  {
    var i :| 0 <= i < |hits| && hits[i].time == b.time.start;
    var j :| 0 <= j < |hits| && hits[j].time == b.time.end;
    var k :| 0 <= k < |hits| && hits[k].coordinate == b.coord.start;
    var l :| 0 <= l < |hits| && hits[l].coordinate == b.coord.end;
  }

  /** Where the hits with the largest time are. */
  datatype Latest = Latest(first: int, last: int)

  /** The two indices are the first and the last hit with the largest time. */
  ghost predicate LatestAre(hits: seq<Hit>, l: Latest) {
    && 0 <= l.first <= l.last < |hits| && hits[l.first].time == hits[l.last].time
    && (forall i :: 0 <= i < |hits| ==> hits[i].time <= hits[l.last].time)
    && (forall i :: 0 <= i < l.first ==> hits[i].time < hits[l.first].time)
    && (forall i :: l.last < i < |hits| ==> hits[i].time < hits[l.last].time)
  }

  ghost predicate HasLargestTime(hits: seq<Hit>, k: int) {
    0 <= k < |hits| && forall i :: 0 <= i < |hits| ==> hits[i].time <= hits[k].time
  }

  /** The hit is the first one with the smallest time. */
  ghost predicate IsEarliest(hits: seq<Hit>, e: int) {
    && 0 <= e < |hits| && (forall i :: 0 <= i < |hits| ==> hits[e].time <= hits[i].time)
    && (forall i :: 0 <= i < e ==> hits[e].time < hits[i].time)
  }

  ghost predicate EarliestIs(hits: seq<Hit>, coordEarliest: int) {
    exists e :: IsEarliest(hits, e) && hits[e].coordinate == coordEarliest
  }

  /** The hit is the first one with the largest time. */
  ghost predicate IsLatest(hits: seq<Hit>, l: int) {
    && 0 <= l < |hits| && (forall i :: 0 <= i < |hits| ==> hits[i].time <= hits[l].time)
    && (forall i :: 0 <= i < l ==> hits[i].time < hits[l].time)
  }

  ghost predicate LatestIs(hits: seq<Hit>, coordLatest: int) {
    exists l :: IsLatest(hits, l) && hits[l].coordinate == coordLatest
  }

  function NextLatest(l: Latest, n: int, timeEnd: int, e: Hit): Latest {
    if e.time > timeEnd then Latest(n, n) else if e.time == timeEnd then l.(last := n) else l
  }

  lemma LatestGrow(hits: seq<Hit>, l: Latest, timeEnd: int, e: Hit)
    requires LatestAre(hits, l) && hits[l.last].time == timeEnd
    ensures LatestAre(hits + [e], NextLatest(l, |hits|, timeEnd, e))
  {
  }

  lemma LatestUnique(hits: seq<Hit>, n: nat, l: Latest, l': Latest)
    requires n <= |hits| && LatestAre(hits[..n], l) && 0 <= l'.first <= l'.last < n
    requires hits[l'.first].time == hits[l'.last].time
    requires forall i :: 0 <= i < n ==> hits[i].time <= hits[l'.first].time
    requires forall i :: 0 <= i < l'.first ==> hits[i].time < hits[l'.first].time
    requires forall i :: l'.last < i < n ==> hits[i].time < hits[l'.last].time
    ensures l == l'
  {
    assert forall i :: 0 <= i < n ==> hits[..n][i] == hits[i];
  }

  lemma LatestTime(hits: seq<Hit>, l: Latest, b: Bounds)
    requires LatestAre(hits, l) && BoundsAre(hits, b)
    ensures hits[l.last].time == b.time.end
  {
    var end :| 0 <= end < |hits| && hits[end].time == b.time.end;
  }

  lemma EarliestTime(hits: seq<Hit>, e: int, b: Bounds)
    requires IsEarliest(hits, e) && BoundsAre(hits, b)
    ensures hits[e].time == b.time.start
  {
    var start :| 0 <= start < |hits| && hits[start].time == b.time.start;
  }

  lemma LargestTime(hits: seq<Hit>, l: int, b: Bounds)
    requires IsLatest(hits, l) && BoundsAre(hits, b)
    ensures hits[l].time == b.time.end
  {
    var end :| 0 <= end < |hits| && hits[end].time == b.time.end;
  }

  /** The bounds, plane, indices and extreme coordinates of a cluster as a value. */
  datatype Shape = Shape(bounds: Bounds, plane: int, latest: Latest, coordEarliest: int, coordLatest: int)

  /** The cached bounds and plane are those of the hits, and the indices are those of the
      largest time of the first so many hits; 0 when nothing is known of them. */
  ghost predicate ShapeIs(hits: seq<Hit>, s: Shape, tracked: nat) {
    && tracked <= |hits|
    && (hits != [] ==>
          && BoundsAre(hits, s.bounds) && s.plane == CommonPlane(hits)
          && 0 <= s.latest.first <= s.latest.last < |hits|
          && (tracked > 0 ==> LatestAre(hits[..tracked], s.latest)))
  }

  /** What insert makes of the shape of a cluster with n > 0 hits. */
  function NextShape(s: Shape, n: int, e: Hit): Shape {
    Shape(Hull(s.bounds, Point(e)), if s.plane != e.plane then INVALID_PLANE else s.plane,
          NextLatest(s.latest, n, s.bounds.time.end, e),
          if e.time < s.bounds.time.start then e.coordinate else s.coordEarliest,
          if e.time > s.bounds.time.end then e.coordinate else s.coordLatest)
  }

  function FirstShape(e: Hit): Shape {
    Shape(Point(e), e.plane, Latest(0, 0), e.coordinate, e.coordinate)
  }

  /** How many hits the indices account for after an insert: all of them, if they did before
      or the hit is later than all; a hit at the largest time joins them if they point to
      that time, and otherwise leaves them pointing to two different times. */
  function NextTracked(hits: seq<Hit>, s: Shape, tracked: nat, e: Hit): nat
    requires hits != [] ==> 0 <= s.latest.first < |hits|
  {
    if hits == [] || tracked == |hits| || e.time > s.bounds.time.end then |hits| + 1
    else if e.time < s.bounds.time.end then tracked
    else if tracked > 0 && hits[s.latest.first].time == s.bounds.time.end then |hits| + 1
    else 0
  }

  lemma TrackedGrows(hits: seq<Hit>, s: Shape, tracked: nat, e: Hit)
    requires hits != [] && ShapeIs(hits, s, tracked)
    ensures var t := NextTracked(hits, s, tracked, e);
            && t <= |hits| + 1
            && (t > 0 ==> LatestAre((hits + [e])[..t], NextLatest(s.latest, |hits|, s.bounds.time.end, e)))
  {
    var t, end := NextTracked(hits, s, tracked, e), s.bounds.time.end;
    if t == |hits| + 1 {
      assert (hits + [e])[..t] == hits + [e];
      if e.time <= end && tracked == |hits| {
        assert hits[..tracked] == hits;
        LatestTime(hits, s.latest, s.bounds);
        LatestGrow(hits, s.latest, end, e);
      } else if e.time <= end {
        assert forall i :: 0 <= i < tracked ==> hits[..tracked][i] == hits[i];
      }
    } else {
      assert (hits + [e])[..t] == hits[..t];
    }
  }

  lemma ShapeGrows(hits: seq<Hit>, s: Shape, tracked: nat, e: Hit)
    requires hits != [] && ShapeIs(hits, s, tracked)
    ensures ShapeIs(hits + [e], NextShape(s, |hits|, e), NextTracked(hits, s, tracked, e))
  {
    assert [e][0] == e;
    BoundsAppend(hits, [e], s.bounds, Point(e));
    CommonPlaneAppend(hits, [e]);
    TrackedGrows(hits, s, tracked, e);
  }

  function ShapeAfter(hits: seq<Hit>, s: Shape, e: Hit): Shape {
    if hits == [] then FirstShape(e) else NextShape(s, |hits|, e)
  }

  lemma InsertKeepsShape(hits: seq<Hit>, s: Shape, tracked: nat, e: Hit)
    requires ShapeIs(hits, s, tracked)
    ensures ShapeIs(hits + [e], ShapeAfter(hits, s, e), NextTracked(hits, s, tracked, e))
  {
    if hits == [] {
      assert [] + [e] == [e] == [e][..1];
    } else {
      ShapeGrows(hits, s, tracked, e);
    }
  }

  /** An insert keeps the coordinate at the smallest time right. */
  lemma InsertKeepsEarliest(hits: seq<Hit>, b: Bounds, c: int, e: Hit)
    requires BoundsAre(hits, b) && EarliestIs(hits, c)
    ensures EarliestIs(hits + [e], if e.time < b.time.start then e.coordinate else c)
  {
    var early :| IsEarliest(hits, early) && hits[early].coordinate == c;
    EarliestTime(hits, early, b);
    assert IsEarliest(hits + [e], if e.time < b.time.start then |hits| else early);
  }

  /** And the coordinate at the largest. */
  lemma InsertKeepsCoordLatest(hits: seq<Hit>, b: Bounds, c: int, e: Hit)
    requires BoundsAre(hits, b) && LatestIs(hits, c)
    ensures LatestIs(hits + [e], if e.time > b.time.end then e.coordinate else c)
  {
    var late :| IsLatest(hits, late) && hits[late].coordinate == c;
    LargestTime(hits, late, b);
    assert IsLatest(hits + [e], if e.time > b.time.end then |hits| else late);
  }

  lemma ExtremesOfOne(e: Hit)
    ensures EarliestIs([] + [e], e.coordinate) && LatestIs([] + [e], e.coordinate)
  {
    assert IsEarliest([] + [e], 0) && IsLatest([] + [e], 0);
  }

  /** What merge makes of the shapes of two clusters with hits. */
  function MergedShape(sa: Shape, sb: Shape): Shape {
    sa.(bounds := Hull(sa.bounds, sb.bounds), plane := if sb.plane != sa.plane then INVALID_PLANE else sa.plane)
  }

  lemma ShapesMerge(a: seq<Hit>, b: seq<Hit>, sa: Shape, sb: Shape, ta: nat, tb: nat)
    requires a != [] && b != [] && ShapeIs(a, sa, ta) && ShapeIs(b, sb, tb)
    ensures ShapeIs(a + b, MergedShape(sa, sb), ta)
  {
    BoundsAppend(a, b, sa.bounds, sb.bounds);
    CommonPlaneAppend(a, b);
    assert (a + b)[..ta] == a[..ta];
  }

  /** Merging keeps the indices of the receiver: they are still the first and the last hit with
      the largest time exactly when every time of the other cluster is smaller. */
  lemma MergeKeepsLatestIff(a: seq<Hit>, b: seq<Hit>, l: Latest, ba: Bounds, bb: Bounds)
    requires LatestAre(a, l) && BoundsAre(a, ba) && BoundsAre(b, bb)
    ensures LatestAre(a + b, l) <==> bb.time.end < ba.time.end
  {
    LatestTime(a, l, ba);
    var ab := a + b;
    assert forall i :: 0 <= i < |a| ==> ab[i] == a[i];
    assert forall i :: 0 <= i < |b| ==> ab[|a| + i] == b[i];
    var j :| 0 <= j < |b| && b[j].time == bb.time.end;
    assert ab[|a| + j].time == bb.time.end && ab[l.last].time == ba.time.end;
  }

  /** The first hit with the smallest time of two lists, one after the other. */
  lemma JoinedEarliest(a: seq<Hit>, b: seq<Hit>, ea: int, eb: int) returns (e: int)
    requires IsEarliest(a, ea) && IsEarliest(b, eb)
    ensures IsEarliest(a + b, e) && (a + b)[e] == if a[ea].time <= b[eb].time then a[ea] else b[eb]
  {
    e := if a[ea].time <= b[eb].time then ea else |a| + eb;
  }

  lemma JoinedLatest(a: seq<Hit>, b: seq<Hit>, la: int, lb: int) returns (l: int)
    requires IsLatest(a, la) && IsLatest(b, lb)
    ensures IsLatest(a + b, l) && (a + b)[l] == if b[lb].time <= a[la].time then a[la] else b[lb]
  {
    l := if b[lb].time <= a[la].time then la else |a| + lb;
  }

  lemma EarliestIsOne(hits: seq<Hit>, e: int, c: int)
    requires IsEarliest(hits, e)
    ensures EarliestIs(hits, c) <==> hits[e].coordinate == c
  {
  }

  lemma LatestIsOne(hits: seq<Hit>, l: int, c: int)
    requires IsLatest(hits, l)
    ensures LatestIs(hits, c) <==> hits[l].coordinate == c
  {
  }

  /** Merging keeps the receiver's earliest coordinate, which is that of the first hit with the
      smallest time exactly if no time of the other cluster is smaller, or the coordinates at
      both smallest times agree. */
  lemma MergeKeepsEarliestIff(a: seq<Hit>, b: seq<Hit>, ba: Bounds, bb: Bounds, ca: int, cb: int)
    requires BoundsAre(a, ba) && BoundsAre(b, bb) && EarliestIs(a, ca) && EarliestIs(b, cb)
    ensures EarliestIs(a + b, ca) <==> ba.time.start <= bb.time.start || ca == cb
  {
    var ea :| IsEarliest(a, ea) && a[ea].coordinate == ca;
    var eb :| IsEarliest(b, eb) && b[eb].coordinate == cb;
    EarliestTime(a, ea, ba);
    EarliestTime(b, eb, bb);
    var e := JoinedEarliest(a, b, ea, eb);
    EarliestIsOne(a + b, e, ca);
  }

  /** The same of the latest coordinate. */
  lemma MergeKeepsCoordLatestIff(a: seq<Hit>, b: seq<Hit>, ba: Bounds, bb: Bounds, ca: int, cb: int)
    requires BoundsAre(a, ba) && BoundsAre(b, bb) && LatestIs(a, ca) && LatestIs(b, cb)
    ensures LatestIs(a + b, ca) <==> bb.time.end <= ba.time.end || ca == cb
  {
    var la :| IsLatest(a, la) && a[la].coordinate == ca;
    var lb :| IsLatest(b, lb) && b[lb].coordinate == cb;
    LargestTime(a, la, ba);
    LargestTime(b, lb, bb);
    var l := JoinedLatest(a, b, la, lb);
    LatestIsOne(a + b, l, ca);
  }

  // ---- what the readers of a cluster compute ----

  /** The number of coordinates from the first to the last, cut to 16 bits. */
  function CoordSpan(hits: seq<Hit>, coord: Range): int {
    if hits == [] then 0 else (coord.end - coord.start + 1) % 65536
  }

  predicate HasGap(hits: seq<Hit>, coord: Range, maxAllowedGap: uint8) {
    |hits| + maxAllowedGap < CoordSpan(hits, coord)
  }

  function HitCoordinates(hits: seq<Hit>): set<int> {
    set i | 0 <= i < |hits| :: hits[i].coordinate as int
  }

  function Interval(start: int, end: int): (s: set<int>)
    ensures forall c :: c in s <==> start <= c <= end
    decreases end - start
  {
    if start > end then {} else Interval(start, end - 1) + {end}
  }

  /** The coordinates within the range that no hit has. */
  function Unhit(hits: seq<Hit>, coord: Range): set<int> {
    Interval(coord.start, coord.end) - HitCoordinates(hits)
  }

  ghost predicate DistinctCoordinates(hits: seq<Hit>) {
    forall i, j :: 0 <= i < j < |hits| ==> hits[i].coordinate != hits[j].coordinate
  }

  lemma {:induction false} IntervalSize(start: int, end: int)
    requires start <= end + 1
    ensures |Interval(start, end)| == end - start + 1
    decreases end - start
  {
    if start <= end {
      IntervalSize(start, end - 1);
    }
  }

  lemma CoordinatesGrow(hits: seq<Hit>, last: Hit)
    ensures HitCoordinates(hits + [last]) == HitCoordinates(hits) + {last.coordinate as int}
    ensures DistinctCoordinates(hits + [last]) <==>
              DistinctCoordinates(hits) && last.coordinate as int !in HitCoordinates(hits)
  {
    var more := hits + [last];
    assert more[|hits|] == last;
    assert forall i :: 0 <= i < |hits| ==> more[i] == hits[i];
  }

  /** At most as many coordinates as hits, and as many exactly when they are distinct. */
  lemma {:induction false} CoordinateCount(hits: seq<Hit>)
    ensures |HitCoordinates(hits)| <= |hits|
    ensures |HitCoordinates(hits)| == |hits| <==> DistinctCoordinates(hits)
  {
    if hits == [] {
      assert HitCoordinates(hits) == {};
    } else {
      var init, last := hits[..|hits| - 1], hits[|hits| - 1];
      CoordinateCount(init);
      CoordinatesGrow(init, last);
      assert hits == init + [last];
    }
  }

  lemma UnhitCount(hits: seq<Hit>, b: Bounds)
    requires hits != [] && BoundsAre(hits, b)
    ensures |Unhit(hits, b.coord)| == b.coord.end - b.coord.start + 1 - |HitCoordinates(hits)|
  {
    IntervalSize(b.coord.start, b.coord.end);
    assert HitCoordinates(hits) <= Interval(b.coord.start, b.coord.end);
  }

  /** The span is the number of coordinates from the smallest to the largest of the hits, modulo
      2^16; an empty cluster has none. */
  lemma CoordSpanCounts(hits: seq<Hit>, b: Bounds)
    requires hits != [] ==> BoundsAre(hits, b)
    ensures hits == [] ==> CoordSpan(hits, b.coord) == 0
    ensures hits != [] ==>
              var n := |Interval(b.coord.start, b.coord.end)|;
              CoordSpan(hits, b.coord) == if n == 65536 then 0 else n
  {
    if hits != [] {
      IntervalSize(b.coord.start, b.coord.end);
    }
  }

  /** A reported gap is real: more than the allowed number of coordinates within the range
      have no hit. */
  lemma GapIsReal(hits: seq<Hit>, b: Bounds, maxAllowedGap: uint8)
    requires hits != [] && BoundsAre(hits, b) && HasGap(hits, b.coord, maxAllowedGap)
    ensures |Unhit(hits, b.coord)| > maxAllowedGap
  {
    UnhitCount(hits, b);
    CoordinateCount(hits);
  }

  /** Exactly when a gap is reported: hits that repeat a coordinate count against it, and over
      all 65536 coordinates the span is cut to zero. */
  lemma GapIffUnhit(hits: seq<Hit>, b: Bounds, maxAllowedGap: uint8)
    requires hits != [] && BoundsAre(hits, b)
    ensures HasGap(hits, b.coord, maxAllowedGap) <==>
              && |Unhit(hits, b.coord)| > maxAllowedGap + (|hits| - |HitCoordinates(hits)|)
              && b.coord.end - b.coord.start < 65535
  {
    UnhitCount(hits, b);
  }

  /** Distinct coordinates below the invalid one leave no exception. */
  lemma GapOfValidCoordinates(hits: seq<Hit>, b: Bounds, maxAllowedGap: uint8)
    requires hits != [] && BoundsAre(hits, b) && DistinctCoordinates(hits)
    requires forall i :: 0 <= i < |hits| ==> hits[i].coordinate < INVALID_COORD
    ensures HasGap(hits, b.coord, maxAllowedGap) <==> |Unhit(hits, b.coord)| > maxAllowedGap
  {
    GapIffUnhit(hits, b, maxAllowedGap);
    CoordinateCount(hits);
  }

  /** Hits at both ends of the full range hide every gap, however few hits there are. */
  lemma FullRangeHidesGap(hits: seq<Hit>, b: Bounds, maxAllowedGap: uint8)
    requires hits != [] && BoundsAre(hits, b) && b.coord.end - b.coord.start == 65535
    ensures !HasGap(hits, b.coord, maxAllowedGap)
    ensures |Unhit(hits, b.coord)| == 65536 - |HitCoordinates(hits)| >= 65536 - |hits|
  {
    UnhitCount(hits, b);
    CoordinateCount(hits);
  }

  /** The centre of mass, when there is weight. */
  function Center(mass: int, weight: int): Option<real> {
    if weight == 0 then None else Some(mass as real / weight as real)
  }

  /** The centre times the weight is the mass. */
  lemma CenterBalances(mass: int, weight: int)
    ensures Center(mass, weight).Some? <==> weight != 0
    ensures weight != 0 ==> Center(mass, weight).value * weight as real == mass as real
  {
  }

  /** The weight that goes with a coordinate sum. */
  function WeightOf(moment: Quantity): Quantity {
    if moment == CoordMoment2 then Weight2 else Weight
  }

  /** A weighted coordinate sum lies between its weight times the coordinate bounds. */
  lemma {:induction false} MassWithin(hits: seq<Hit>, n: nat, lo: nat, hi: nat, moment: Quantity)
    requires n <= |hits| && (moment == CoordMoment || moment == CoordMoment2)
    requires forall i :: 0 <= i < n ==> lo <= hits[i].coordinate <= hi
    ensures var w, m := SumFirst(hits, n, WeightOf(moment)), SumFirst(hits, n, moment);
            0 <= w && Times(w, lo) <= m <= Times(w, hi)
  {
    if n > 0 {
      MassWithin(hits, n - 1, lo, hi, moment);
      var e, w := Measure(WeightOf(moment), hits[n - 1]), SumFirst(hits, n - 1, WeightOf(moment));
      TimesMonotone(e, lo, hits[n - 1].coordinate);
      TimesMonotone(e, hits[n - 1].coordinate, hi);
      TimesAdds(w, e, lo);
      TimesAdds(w, e, hi);
    }
  }

  lemma QuotientBetween(m: real, w: real, lo: real, hi: real)
    requires w > 0.0 && w * lo <= m <= w * hi
    ensures lo <= m / w <= hi
  {
    assert w * (m / w) == m;
  }

  /** The nearest integer, halves away from zero, of a number that is not negative. */
  function Round(x: real): int
    requires x >= 0.0
  {
    (x + 0.5).Floor
  }

  /** No integer is closer, and of two equally close ones it is the larger. */
  lemma RoundIsNearest(x: real, n: int)
    requires x >= 0.0
    ensures -0.5 <= Round(x) as real - x
    ensures Round(x) as real - x <= 0.5 && x - Round(x) as real < 0.5
    ensures n as real - x <= 0.5 && x - n as real < 0.5 ==> n == Round(x)
  {
  }

  lemma RealTimes(w: nat, c: nat)
    ensures Times(w, c) as real == w as real * c as real
  {
    TimesIsProduct(w, c);
  }

  lemma CenterBetween(m: int, w: nat, lo: nat, hi: nat)
    requires w > 0 && Times(w, lo) <= m <= Times(w, hi)
    ensures lo as real <= Center(m, w).value <= hi as real
  {
    RealTimes(w, lo);
    RealTimes(w, hi);
    QuotientBetween(m as real, w as real, lo as real, hi as real);
  }

  lemma RoundBetween(x: real, lo: nat, hi: nat)
    requires lo as real <= x <= hi as real
    ensures lo <= Round(x) <= hi
  {
  }

  /** The centre of mass of hits with weight lies between their coordinates, so that
      rounding it loses nothing in 16 bits. */
  lemma CenterWithinHits(hits: seq<Hit>, b: Bounds)
    requires hits != [] && BoundsAre(hits, b) && SumBy(hits, Weight) > 0
    ensures var c := Center(SumBy(hits, CoordMoment), SumBy(hits, Weight));
            c.Some? && 0.0 <= b.coord.start as real <= c.value <= b.coord.end as real
            && 0 <= b.coord.start <= Round(c.value) <= b.coord.end < 65536
  {
    MassWithin(hits, |hits|, b.coord.start, b.coord.end, CoordMoment);
    CenterBetween(SumBy(hits, CoordMoment), SumBy(hits, Weight), b.coord.start, b.coord.end);
    RoundBetween(Center(SumBy(hits, CoordMoment), SumBy(hits, Weight)).value, b.coord.start, b.coord.end);
  }

  // ---- the coordinate at the largest time ----

  /** The hit that the µTPC coordinate is taken from, given the first and the last index with
      the largest time: the one closer to its end of the list, or the heavier one. */
  function UtpcIndex(hits: seq<Hit>, l: Latest): int
    requires 0 <= l.first < |hits| && 0 <= l.last < |hits|
  {
    if l.first == l.last then l.last
    else if l.first < |hits| - 1 - l.last then l.first
    else if l.first > |hits| - 1 - l.last then l.last
    else if hits[l.first].weight > hits[l.last].weight then l.first
    else l.last
  }

  /** The square-weighted mean of the hit and its existing neighbours. */
  function UtpcMean(hits: seq<Hit>, k: int): Option<real>
    requires 0 <= k < |hits|
  {
    var c2, w2 := hits[k].coordinate, hits[k].weight;
    var c1, w1 := if k > 0 then hits[k - 1].coordinate else 0, if k > 0 then hits[k - 1].weight else 0;
    var c3 := if k < |hits| - 1 then hits[k + 1].coordinate else 0;
    var w3 := if k < |hits| - 1 then hits[k + 1].weight else 0;
    Center(c1 * w1 * w1 + c2 * w2 * w2 + c3 * w3 * w3, w1 * w1 + w2 * w2 + w3 * w3)
  }

  /** With indices that are right for the first so many hits, the chosen hit has the largest
      time of all exactly if none of the other hits is later than the hit they point to. */
  lemma UtpcIsLatestIff(hits: seq<Hit>, l: Latest, tracked: nat)
    requires 0 < tracked <= |hits| && LatestAre(hits[..tracked], l)
    ensures UtpcIndex(hits, l) == l.first || UtpcIndex(hits, l) == l.last
    ensures HasLargestTime(hits, UtpcIndex(hits, l)) <==>
              forall i :: tracked <= i < |hits| ==> hits[i].time <= hits[l.first].time
  {
    assert forall i :: 0 <= i < tracked ==> hits[..tracked][i] == hits[i];
  }

  /** After a merge that is so exactly if the other cluster ends no later. */
  lemma MergedUtpcIff(a: seq<Hit>, b: seq<Hit>, l: Latest, ba: Bounds, bb: Bounds)
    requires LatestAre(a, l) && BoundsAre(a, ba) && BoundsAre(b, bb)
    ensures HasLargestTime(a + b, UtpcIndex(a + b, l)) <==> bb.time.end <= ba.time.end
  {
    var ab := a + b;
    assert ab[..|a|] == a;
    LatestTime(a, l, ba);
    UtpcIsLatestIff(ab, l, |a|);
    assert forall i :: 0 <= i < |b| ==> ab[|a| + i] == b[i];
    var j :| 0 <= j < |b| && b[j].time == bb.time.end;
    assert ab[|a| + j].time == bb.time.end;
  }

  /** A hit and its existing neighbours. */
  function Neighbourhood(hits: seq<Hit>, k: int): seq<Hit>
    requires 0 <= k < |hits|
  {
    hits[if k > 0 then k - 1 else 0..if k < |hits| - 1 then k + 2 else |hits|]
  }

  lemma SumOfNeighbourhood(hits: seq<Hit>, k: int, q: Quantity)
    requires 0 <= k < |hits|
    ensures SumBy(Neighbourhood(hits, k), q) ==
            (if k > 0 then Measure(q, hits[k - 1]) else 0) + Measure(q, hits[k])
              + if k < |hits| - 1 then Measure(q, hits[k + 1]) else 0
  {
    var near := Neighbourhood(hits, k);
    assert SumFirst(near, 0, q) == 0;
    assert SumFirst(near, 1, q) == Measure(q, near[0]);
    if |near| > 1 {
      assert SumFirst(near, 2, q) == Measure(q, near[0]) + Measure(q, near[1]);
    }
  }

  lemma UtpcMeanIsCenter(hits: seq<Hit>, k: int)
    requires 0 <= k < |hits|
    ensures var near := Neighbourhood(hits, k);
            UtpcMean(hits, k) == Center(SumBy(near, CoordMoment2), SumBy(near, Weight2))
  {
    SumOfNeighbourhood(hits, k, CoordMoment2);
    SumOfNeighbourhood(hits, k, Weight2);
    SquareWeighted(hits[k]);
    if k > 0 {
      SquareWeighted(hits[k - 1]);
    }
    if k < |hits| - 1 {
      SquareWeighted(hits[k + 1]);
    }
  }

  lemma SquareWeighted(e: Hit)
    ensures Measure(CoordMoment2, e) == e.coordinate * e.weight * e.weight && Measure(Weight2, e) == e.weight * e.weight
  {
    TimesIsProduct(e.weight, e.weight);
    TimesIsProduct(e.weight * e.weight, e.coordinate);
    assert e.weight * e.weight * e.coordinate == e.coordinate * e.weight * e.weight;
  }

  /** The weighted µTPC coordinate is a number exactly when the hit or a neighbour has weight,
      and then lies within any range that holds their coordinates. */
  lemma UtpcBetweenNeighbours(hits: seq<Hit>, k: int, lo: nat, hi: nat)
    requires 0 <= k < |hits|
    requires forall i :: 0 <= i < |hits| && k - 1 <= i <= k + 1 ==> lo <= hits[i].coordinate <= hi
    ensures UtpcMean(hits, k).Some? <==> exists i :: 0 <= i < |hits| && k - 1 <= i <= k + 1 && hits[i].weight > 0
    ensures UtpcMean(hits, k).Some? ==> lo as real <= UtpcMean(hits, k).value <= hi as real
  {
    var near := Neighbourhood(hits, k);
    UtpcMeanIsCenter(hits, k);
    SumOfNeighbourhood(hits, k, Weight2);
    SquaresPositive(hits[k]);
    if k > 0 {
      SquaresPositive(hits[k - 1]);
    }
    if k < |hits| - 1 {
      SquaresPositive(hits[k + 1]);
    }
    forall i | 0 <= i < |near| ensures lo <= near[i].coordinate <= hi {
      assert near[i] == hits[i + if k > 0 then k - 1 else 0];
    }
    MassWithin(near, |near|, lo, hi, CoordMoment2);
    if SumBy(near, Weight2) > 0 {
      CenterBetween(SumBy(near, CoordMoment2), SumBy(near, Weight2), lo, hi);
    }
  }

  lemma SquaresPositive(e: Hit)
    ensures Measure(Weight2, e) >= 0 && (Measure(Weight2, e) > 0 <==> e.weight > 0)
  {
    TimesIsProduct(e.weight, e.weight);
  }

  // ---- two time ranges ----

  /** What 64 bits hold of a count of at most 2^64. */
  function Cut64(n: nat): nat {
    if n == 0x1_0000_0000_0000_0000 then 0 else n
  }

  /** From the later start to the earlier end. */
  function Shared(a: Range, b: Range): Range {
    Range(if b.start < a.start then a.start else b.start, if a.end < b.end then a.end else b.end)
  }

  /** How many times two ranges share, in 64 bits; nothing for an empty cluster. */
  function RangeOverlap(a: Option<Range>, b: Option<Range>): int {
    if a.None? || b.None? then 0
    else
      var shared := Shared(a.value, b.value);
      if shared.start > shared.end then 0 else Cut64(shared.end - shared.start + 1)
  }

  function RangeGap(a: Option<Range>, b: Option<Range>): int {
    if a.None? || b.None? then 0xFFFF_FFFF_FFFF_FFFF
    else
      var shared := Shared(a.value, b.value);
      if shared.start <= shared.end then 0 else shared.start - shared.end
  }

  function SharedTimes(a: Range, b: Range): set<int> {
    Interval(a.start, a.end) * Interval(b.start, b.end)
  }

  lemma SharedCount(a: Range, b: Range)
    requires a.start <= a.end && b.start <= b.end
    ensures var shared := Shared(a, b);
            if shared.start <= shared.end then |SharedTimes(a, b)| == shared.end - shared.start + 1
            else |SharedTimes(a, b)| == 0
  {
    var shared := Shared(a, b);
    assert SharedTimes(a, b) == Interval(shared.start, shared.end);
    if shared.start <= shared.end {
      IntervalSize(shared.start, shared.end);
    }
  }

  /** Non-empty ranges share a time exactly when there is no gap; the overlap counts the
      shared times unless there are 2^64 of them, and a gap is the distance between the
      nearest times. */
  lemma RangesOverlapOrGap(a: Range, b: Range)
    requires 0 <= a.start <= a.end < 0x1_0000_0000_0000_0000 && 0 <= b.start <= b.end < 0x1_0000_0000_0000_0000
    ensures RangeGap(Some(a), Some(b)) == 0 <==> |SharedTimes(a, b)| > 0
    ensures var shared := |SharedTimes(a, b)|;
            RangeOverlap(Some(a), Some(b)) == if shared == 0x1_0000_0000_0000_0000 then 0 else shared
    ensures RangeGap(Some(a), Some(b)) > 0 ==>
              RangeGap(Some(a), Some(b)) == if a.end < b.start then b.start - a.end else a.start - b.end
  {
    SharedCount(a, b);
  }

  class Cluster {
    var hits: seq<Hit>
    var plane: uint8
    var coordStart: uint16
    var coordEnd: uint16
    var coordEarliest: uint16
    var coordLatest: uint16
    var timeStart: uint64
    var timeEnd: uint64
    var sums: Sums
    var utpcIdxMin: int
    var utpcIdxMax: int
    // what the sums held when the cluster was last emptied
    ghost var stale: Sums
    // how many of the first hits the indices account for
    ghost var tracked: nat

    ghost function CachedShape(): Shape
      reads `timeStart, `timeEnd, `coordStart, `coordEnd, `plane, `utpcIdxMin, `utpcIdxMax, `coordEarliest, `coordLatest
    {
      Shape(Bounds(Range(timeStart, timeEnd), Range(coordStart, coordEnd)), plane,
            Latest(utpcIdxMin, utpcIdxMax), coordEarliest, coordLatest)
    }

    /** Bounds, plane and indices of a non-empty cluster are those of its hits, and the sums
        are those of the hits added to what they were stale by. */
    ghost predicate Valid()
      reads this
    {
      ShapeIs(hits, CachedShape(), tracked) && SumsAre(stale, hits, sums)
    }

    /** All cached values summarise the hits. */
    ghost predicate Accurate()
      reads this
    {
      Valid() && stale == Zero()
    }

    /** The indices account for every hit: no merge since they were last right. */
    ghost predicate FullyTracked()
      reads this
    {
      tracked == |hits|
    }

    ghost predicate EarliestRight()
      reads this
    {
      hits != [] ==> EarliestIs(hits, coordEarliest)
    }

    ghost predicate LatestRight()
      reads this
    {
      hits != [] ==> LatestIs(hits, coordLatest)
    }

    /** As the constructor and clear leave it. */
    ghost predicate Cleared()
      reads this
    {
      hits == [] && plane == INVALID_PLANE && sums == Zero()
    }

    // ---- the readers ----

    predicate Gap(maxAllowedGap: uint8)
      reads this
    {
      HasGap(hits, Range(coordStart, coordEnd), maxAllowedGap)
    }

    function TimeRange(): Option<Range>
      reads this
    {
      if hits == [] then None else Some(Range(timeStart, timeEnd))
    }

    /** The hit that the cached indices choose. */
    function UtpcHit(): (k: int)
      requires Valid() && hits != []
      reads this
      ensures 0 <= k < |hits|
    {
      UtpcIndex(hits, Latest(utpcIdxMin, utpcIdxMax))
    }

    function CoordUtpc(weighted: bool): Option<real>
      requires Valid() && hits != []
      reads this
    {
      if weighted then UtpcMean(hits, UtpcHit()) else Some(hits[UtpcHit()].coordinate as real)
    }

    /** The coordinate is taken at the largest time exactly if no hit that came by a merge, and
        is not accounted for, is later than the hit the indices point to. */
    lemma UtpcAtLargestTimeIff()
      requires Valid() && tracked > 0
      ensures HasLargestTime(hits, UtpcHit()) <==>
                forall i :: tracked <= i < |hits| ==> hits[i].time <= hits[utpcIdxMin].time
      ensures HasLargestTime(hits, UtpcHit()) <==> hits[utpcIdxMin].time == timeEnd
    {
      UtpcIsLatestIff(hits, CachedShape().latest, tracked);
      assert hits[..tracked][utpcIdxMin] == hits[utpcIdxMin] && hits[..tracked][utpcIdxMax] == hits[utpcIdxMax];
      var end :| 0 <= end < |hits| && hits[end].time == timeEnd;
    }

    /** The weighted coordinate is a number exactly if the chosen hit or a neighbour has weight,
        and between their coordinates. */
    lemma UtpcNearHit(lo: nat, hi: nat)
      requires Valid() && hits != []
      requires forall i :: 0 <= i < |hits| && UtpcHit() - 1 <= i <= UtpcHit() + 1 ==> lo <= hits[i].coordinate <= hi
      ensures CoordUtpc(true).Some? <==>
                exists i :: 0 <= i < |hits| && UtpcHit() - 1 <= i <= UtpcHit() + 1 && hits[i].weight > 0
      ensures CoordUtpc(true).Some? ==> lo as real <= CoordUtpc(true).value <= hi as real
    {
      UtpcBetweenNeighbours(hits, UtpcHit(), lo, hi);
    }

    /** The unweighted coordinate, where first and last are the first and the last hit with the
        largest time, of all hits or of those before a merge: that of the one closer to its end
        of the list, of the heavier one if both are as close, and else of the last. */
    lemma UtpcOfCloserEnd(first: nat, last: nat)
      requires Valid() && 0 < tracked <= |hits| && first <= last < tracked
      requires hits[first].time == hits[last].time
      requires forall i :: 0 <= i < tracked ==> hits[i].time <= hits[first].time
      requires forall i :: 0 <= i < first ==> hits[i].time < hits[first].time
      requires forall i :: last < i < tracked ==> hits[i].time < hits[last].time
      ensures var before, after := first, |hits| - 1 - last;
              && (before < after ==> CoordUtpc(false) == Some(hits[first].coordinate as real))
              && (before > after ==> CoordUtpc(false) == Some(hits[last].coordinate as real))
              && (before == after && hits[first].weight > hits[last].weight ==>
                    CoordUtpc(false) == Some(hits[first].coordinate as real))
              && (before == after && hits[first].weight <= hits[last].weight ==>
                    CoordUtpc(false) == Some(hits[last].coordinate as real))
      ensures UtpcHit() == first || UtpcHit() == last
      ensures hits[UtpcHit()].coordinate as real == CoordUtpc(false).value
    {
      LatestUnique(hits, tracked, CachedShape().latest, Latest(first, last));
    }

    function TimeOverlap(other: Cluster): int
      reads this, other
    {
      RangeOverlap(TimeRange(), other.TimeRange())
    }

    function TimeGap(other: Cluster): int
      reads this, other
    {
      RangeGap(TimeRange(), other.TimeRange())
    }

    /** The times between the first and the last hit of both clusters are counted by the
        overlap, and there are none exactly if there is a gap. An empty cluster shares no time
        and lies as far away as can be. */
    lemma OverlapOrGap(other: Cluster)
      requires Valid() && other.Valid()
      ensures hits == [] || other.hits == [] ==> TimeOverlap(other) == 0 && TimeGap(other) == 0xFFFF_FFFF_FFFF_FFFF
      ensures hits != [] && other.hits != [] ==>
                var shared := SharedTimes(Range(timeStart, timeEnd), Range(other.timeStart, other.timeEnd));
                && TimeOverlap(other) == (if |shared| == 0x1_0000_0000_0000_0000 then 0 else |shared|)
                && (TimeGap(other) == 0 <==> |shared| > 0)
      ensures hits != [] && other.hits != [] && TimeGap(other) > 0 ==>
                TimeGap(other) == if timeEnd < other.timeStart then other.timeStart - timeEnd
                                  else timeStart - other.timeEnd
    {
      if hits != [] && other.hits != [] {
        RangesOverlapOrGap(Range(timeStart, timeEnd), Range(other.timeStart, other.timeEnd));
      }
    }

    /** The cached sums of any cluster built by inserts and merges put its centre of mass
        within its cached coordinates, where rounding fits 16 bits. */
    lemma CenterWithin()
      requires Accurate() && hits != [] && sums.weight > 0
      ensures var c := Center(sums.coordMass, sums.weight);
              c.Some? && c.value >= 0.0 && 0 <= coordStart <= Round(c.value) <= coordEnd < 65536
      ensures Center(sums.coordMass, sums.weight).value * sums.weight as real == sums.coordMass as real
    {
      CenterBalances(sums.coordMass, sums.weight);
      assert Of(sums, Weight) == Of(stale, Weight) + SumBy(hits, Weight);
      assert Of(sums, CoordMoment) == Of(stale, CoordMoment) + SumBy(hits, CoordMoment);
      CenterWithinHits(hits, CachedShape().bounds);
    }

    /** Each sum is that of its own quantity, and what it was stale by. */
    lemma SumsOfHits()
      requires Valid()
      ensures sums.weight == stale.weight + SumBy(hits, Weight)
      ensures sums.weight2 == stale.weight2 + SumBy(hits, Weight2)
      ensures sums.coordMass == stale.coordMass + SumBy(hits, CoordMoment)
      ensures sums.coordMass2 == stale.coordMass2 + SumBy(hits, CoordMoment2)
      ensures sums.timeMass == stale.timeMass + SumBy(hits, TimeMoment)
      ensures sums.timeMass2 == stale.timeMass2 + SumBy(hits, TimeMoment2)
      ensures Accurate() ==> stale.weight == stale.weight2 == stale.coordMass == stale.coordMass2 == 0
      ensures Accurate() ==> stale.timeMass == stale.timeMass2 == 0
    {
      assert Of(sums, Weight) == Of(stale, Weight) + SumBy(hits, Weight);
      assert Of(sums, Weight2) == Of(stale, Weight2) + SumBy(hits, Weight2);
      assert Of(sums, CoordMoment) == Of(stale, CoordMoment) + SumBy(hits, CoordMoment);
      assert Of(sums, CoordMoment2) == Of(stale, CoordMoment2) + SumBy(hits, CoordMoment2);
      assert Of(sums, TimeMoment) == Of(stale, TimeMoment) + SumBy(hits, TimeMoment);
      assert Of(sums, TimeMoment2) == Of(stale, TimeMoment2) + SumBy(hits, TimeMoment2);
    }

    constructor ()
      ensures Accurate() && Cleared() && FullyTracked()
    {
      hits, plane := [], INVALID_PLANE;
      coordStart, coordEnd, coordEarliest, coordLatest := INVALID_COORD, 0, INVALID_COORD, INVALID_COORD;
      timeStart, timeEnd := 0xFFFF_FFFF_FFFF_FFFF, 0;
      sums := Zero();
      utpcIdxMin, utpcIdxMax := 0, 0;
      stale, tracked := Zero(), 0;
      new;
      NoHits(sums);
    }

    method Insert(e: Hit)
      requires Valid()
      modifies this
      ensures Valid() && hits == old(hits) + [e] && stale == old(stale)
      ensures CachedShape() == ShapeAfter(old(hits), old(CachedShape()), e)
      ensures tracked == NextTracked(old(hits), old(CachedShape()), old(tracked), e)
      ensures old(FullyTracked()) || (old(hits) != [] && e.time > old(timeEnd)) ==> FullyTracked()
      ensures old(hits) != [] && e.time < old(timeEnd) ==> tracked >= old(tracked)
      ensures old(EarliestRight()) ==> EarliestRight()
      ensures old(LatestRight()) ==> LatestRight()
    {
      ExtremesAfter(e);
      AddToSums(e);
      InsertShape(e);
      Append([e]);
    }

    lemma ExtremesAfter(e: Hit)
      requires Valid()
      ensures EarliestRight() ==> EarliestIs(hits + [e], ShapeAfter(hits, CachedShape(), e).coordEarliest)
      ensures LatestRight() ==> LatestIs(hits + [e], ShapeAfter(hits, CachedShape(), e).coordLatest)
    {
      if hits == [] {
        ExtremesOfOne(e);
      } else {
        if EarliestRight() {
          InsertKeepsEarliest(hits, CachedShape().bounds, coordEarliest, e);
        }
        if LatestRight() {
          InsertKeepsCoordLatest(hits, CachedShape().bounds, coordLatest, e);
        }
      }
    }

    method Append(more: seq<Hit>)
      requires ShapeIs(hits + more, CachedShape(), tracked) && SumsAre(stale, hits + more, sums)
      modifies `hits
      ensures Valid() && hits == old(hits) + more
    {
      hits := hits + more;
    }

    method InsertShape(e: Hit)
      requires ShapeIs(hits, CachedShape(), tracked)
      modifies `tracked, `timeStart, `timeEnd, `coordStart, `coordEnd, `plane, `utpcIdxMin, `utpcIdxMax,
               `coordEarliest, `coordLatest
      ensures ShapeIs(hits + [e], CachedShape(), tracked)
      ensures CachedShape() == ShapeAfter(hits, old(CachedShape()), e)
      ensures tracked == NextTracked(hits, old(CachedShape()), old(tracked), e)
    {
      InsertKeepsShape(hits, CachedShape(), tracked, e);
      tracked := NextTracked(hits, CachedShape(), tracked, e);
      UpdateShape(e);
    }

    method UpdateShape(e: Hit)
      modifies `timeStart, `timeEnd, `coordStart, `coordEnd, `plane, `utpcIdxMin, `utpcIdxMax, `coordEarliest,
               `coordLatest
      ensures CachedShape() == ShapeAfter(hits, old(CachedShape()), e)
    {
      if hits == [] {
        StartShape(e);
      }
      WidenByHit(e);
    }

    method StartShape(e: Hit)
      modifies `timeStart, `timeEnd, `coordStart, `coordEnd, `plane, `utpcIdxMin, `utpcIdxMax, `coordEarliest,
               `coordLatest
      ensures CachedShape() == FirstShape(e)
    {
      plane := e.plane;
      timeStart, timeEnd := e.time, e.time;
      coordStart, coordEnd, coordEarliest, coordLatest := e.coordinate, e.coordinate, e.coordinate, e.coordinate;
      utpcIdxMin := 0;
      utpcIdxMax := 0;
    }

    /** The hit is the next in the list; its own point, as StartShape leaves it, takes it in
        without a change. */
    method WidenByHit(e: Hit)
      modifies `timeStart, `timeEnd, `coordStart, `coordEnd, `plane, `utpcIdxMin, `utpcIdxMax, `coordEarliest,
               `coordLatest
      ensures CachedShape() == NextShape(old(CachedShape()), |hits|, e)
    {
      WidenCoords(e);
      var size := |hits| + 1;
      if plane != e.plane {
        plane := INVALID_PLANE;
      }
      if e.time < timeStart {
        timeStart := e.time;
        coordEarliest := e.coordinate;
      }
      // more than one hit with the same largest time
      if e.time == timeEnd {
        utpcIdxMax := size - 1;
      } else if e.time > timeEnd {
        utpcIdxMin := size - 1;
        utpcIdxMax := utpcIdxMin;
        timeEnd := e.time;
        coordLatest := e.coordinate;
      }
    }

    method WidenCoords(e: Hit)
      modifies `coordStart, `coordEnd
      ensures Range(coordStart, coordEnd) == Span(Range(old(coordStart), old(coordEnd)),
                                                  Range(e.coordinate, e.coordinate))
    {
      coordStart := if e.coordinate < coordStart then e.coordinate else coordStart;
      coordEnd := if e.coordinate > coordEnd then e.coordinate else coordEnd;
    }

    method AddToSums(e: Hit)
      requires SumsAre(stale, hits, sums)
      modifies `sums
      ensures SumsAre(stale, hits + [e], sums)
    {
      SumsInsert(stale, hits, sums, e);
      var we, we2 := e.weight, e.weight * e.weight;
      sums := Sums(sums.weight + we, sums.weight2 + we2, sums.coordMass + we * e.coordinate,
                   sums.coordMass2 + we2 * e.coordinate,
                   sums.timeMass + we * e.time, sums.timeMass2 + we2 * e.time);
    }

    /** Empties the cluster; bounds and indices keep their old values. */
    method Clear()
      modifies `hits, `plane, `stale, `tracked, `sums
      ensures Accurate() && Cleared() && FullyTracked()
    {
      hits := [];
      plane := INVALID_PLANE;
      sums := Zero();
      stale, tracked := Zero(), 0;
      NoHits(sums);
    }

    /** Moves the other cluster's hits to the end of this one. The other cluster is meant to be
        cleared; it is exactly when both had hits, or its plane and sums already were those
        of a cleared cluster. */
    method Merge(other: Cluster)
      requires this != other && Valid() && other.Valid()
      modifies this, other
      ensures Valid() && hits == old(hits) + old(other.hits)
      ensures old(stale == Zero() && other.stale == Zero()) ==> stale == Zero()
      ensures other.Valid() && other.hits == []
      ensures other.Cleared() <==>
                old(hits != [] && other.hits != []) || old(other.plane == INVALID_PLANE && other.sums == Zero())
      ensures other.stale == Zero() <==> old(hits != [] && other.hits != []) || old(other.sums == Zero())
      ensures other.FullyTracked() && tracked == if old(hits) == [] then old(other.tracked) else old(tracked)
      ensures old(hits) == [] && old(other.hits) != [] ==>
              CachedShape() == old(other.CachedShape()) && other.stale == old(other.sums)
      ensures old(other.hits) == [] ==> CachedShape() == old(CachedShape())
      ensures old(hits != [] && other.hits != [] && FullyTracked()) ==>
              (HasLargestTime(hits, UtpcHit()) <==> old(other.timeEnd) <= old(timeEnd))
      ensures old(hits != [] && other.hits != [] && EarliestRight() && other.EarliestRight()) ==>
              (EarliestRight() <==> old(timeStart <= other.timeStart || coordEarliest == other.coordEarliest))
      ensures old(hits != [] && other.hits != [] && LatestRight() && other.LatestRight()) ==>
              (LatestRight() <==> old(other.timeEnd <= timeEnd || coordLatest == other.coordLatest))
      ensures old(hits != [] && other.hits != []) ==>
              CachedShape() == MergedShape(old(CachedShape()), old(other.CachedShape()))
    {
      if other.hits == [] {
        assert old(hits) + old(other.hits) == old(hits);
        NothingStale(other.stale, other.sums);
        return;
      }
      if hits == [] {
        assert old(hits) + old(other.hits) == old(other.hits);
        TakeOver(other);
        return;
      }
      MergedExtremes(other);
      Absorb(other);
      other.Clear();
    }

    /** What is left right of the indices and the extreme coordinates when the other cluster's
        hits are joined. */
    lemma MergedExtremes(other: Cluster)
      requires Valid() && other.Valid() && hits != [] && other.hits != []
      ensures FullyTracked() ==>
                (HasLargestTime(hits + other.hits, UtpcIndex(hits + other.hits, CachedShape().latest))
                 <==> other.timeEnd <= timeEnd)
      ensures EarliestRight() && other.EarliestRight() ==>
                (EarliestIs(hits + other.hits, coordEarliest)
                 <==> timeStart <= other.timeStart || coordEarliest == other.coordEarliest)
      ensures LatestRight() && other.LatestRight() ==>
                (LatestIs(hits + other.hits, coordLatest)
                 <==> other.timeEnd <= timeEnd || coordLatest == other.coordLatest)
    {
      var s, s' := CachedShape(), other.CachedShape();
      if FullyTracked() {
        assert hits[..tracked] == hits;
        MergedUtpcIff(hits, other.hits, s.latest, s.bounds, s'.bounds);
      }
      if EarliestRight() && other.EarliestRight() {
        MergeKeepsEarliestIff(hits, other.hits, s.bounds, s'.bounds, coordEarliest, other.coordEarliest);
      }
      if LatestRight() && other.LatestRight() {
        MergeKeepsCoordLatestIff(hits, other.hits, s.bounds, s'.bounds, coordLatest, other.coordLatest);
      }
    }

    /** The move assignment: the other cluster loses its hits and keeps its numbers. */
    method TakeOver(other: Cluster)
      requires this != other && other.Valid() && other.hits != []
      modifies this, other`hits, other`stale, other`tracked
      ensures Valid() && hits == old(other.hits) && stale == old(other.stale) && tracked == old(other.tracked)
      ensures CachedShape() == old(other.CachedShape())
      ensures other.Valid() && other.hits == [] && other.stale == other.sums && other.tracked == 0
    {
      CopyShape(other);
      hits, stale, tracked, sums := other.hits, other.stale, other.tracked, other.sums;
      other.LoseHits();
    }

    /** As its hits are moved away: everything else keeps its value. */
    method LoseHits()
      modifies `hits, `stale, `tracked
      ensures Valid() && hits == [] && stale == sums && tracked == 0
    {
      NoHits(sums);
      hits, stale, tracked := [], sums, 0;
    }

    method CopyShape(other: Cluster)
      modifies `timeStart, `timeEnd, `coordStart, `coordEnd, `plane, `utpcIdxMin, `utpcIdxMax, `coordEarliest,
               `coordLatest
      ensures CachedShape() == other.CachedShape()
    {
      plane := other.plane;
      coordStart, coordEnd := other.coordStart, other.coordEnd;
      coordEarliest, coordLatest := other.coordEarliest, other.coordLatest;
      timeStart, timeEnd := other.timeStart, other.timeEnd;
      utpcIdxMin, utpcIdxMax := other.utpcIdxMin, other.utpcIdxMax;
    }

    /** The other cluster's hits join this cluster's. */
    method Absorb(other: Cluster)
      requires this != other && Valid() && other.Valid() && hits != [] && other.hits != []
      modifies this
      ensures Valid() && hits == old(hits) + other.hits && stale == Plus(old(stale), other.stale)
      ensures tracked == old(tracked)
      ensures CachedShape() == MergedShape(old(CachedShape()), other.CachedShape())
    {
      AbsorbShape(other);
      AbsorbSums(other);
      Append(other.hits);
    }

    method AbsorbSums(other: Cluster)
      requires this != other && SumsAre(stale, hits, sums) && SumsAre(other.stale, other.hits, other.sums)
      modifies `sums, `stale
      ensures SumsAre(stale, hits + other.hits, sums) && stale == Plus(old(stale), other.stale)
    {
      SumsMerge(hits, other.hits, stale, other.stale, sums, other.sums);
      sums := Sums(sums.weight + other.sums.weight, sums.weight2 + other.sums.weight2,
                   sums.coordMass + other.sums.coordMass, sums.coordMass2 + other.sums.coordMass2,
                   sums.timeMass + other.sums.timeMass, sums.timeMass2 + other.sums.timeMass2);
      stale := Plus(stale, other.stale);
    }

    method AbsorbShape(other: Cluster)
      requires this != other && hits != [] && other.hits != []
      requires ShapeIs(hits, CachedShape(), tracked) && ShapeIs(other.hits, other.CachedShape(), other.tracked)
      modifies `plane, `timeStart, `timeEnd, `coordStart, `coordEnd
      ensures ShapeIs(hits + other.hits, CachedShape(), tracked)
      ensures CachedShape() == MergedShape(old(CachedShape()), other.CachedShape())
    {
      ShapesMerge(hits, other.hits, CachedShape(), other.CachedShape(), tracked, other.tracked);
      WidenShape(other);
    }

    method WidenShape(other: Cluster)
      requires this != other
      modifies `plane, `timeStart, `timeEnd, `coordStart, `coordEnd
      ensures CachedShape() == MergedShape(old(CachedShape()), other.CachedShape())
    {
      if other.plane != plane {
        plane := INVALID_PLANE;
      }
      timeStart := if other.timeStart < timeStart then other.timeStart else timeStart;
      timeEnd := if timeEnd < other.timeEnd then other.timeEnd else timeEnd;
      coordStart := if other.coordStart < coordStart then other.coordStart else coordStart;
      coordEnd := if coordEnd < other.coordEnd then other.coordEnd else coordEnd;
    }
  }

  /** A cluster merged into an empty one and filled again counts the weight of hits it no
      longer has: its one hit weighs 7, its sum is 12. */
  method ReuseAfterMerge() returns (hitCount: nat, weight: int)
    ensures hitCount == 1 && weight == 12
  {
    var receiver := new Cluster();
    var other := new Cluster();
    other.Insert(Hit(100, 10, 5, 0));
    WeightIs(other.stale, other.hits, other.sums);
    receiver.Merge(other);
    other.Insert(Hit(200, 20, 7, 0));
    WeightIs(other.stale, other.hits, other.sums);
    return |other.hits|, other.sums.weight;
  }

  /** Two hits at the largest time at the front of the list: the first is closer to its end. */
  method UtpcOfFirst() returns (c: Cluster)
    ensures c.Valid() && c.hits == [Hit(10, 3, 1, 0), Hit(10, 4, 1, 0), Hit(5, 5, 1, 0)]
    ensures c.CoordUtpc(false) == Some(3.0)
  {
    c := ClusterOfAll([Hit(10, 3, 1, 0), Hit(10, 4, 1, 0), Hit(5, 5, 1, 0)]);
    c.UtpcOfCloserEnd(0, 1);
  }

  /** A cluster built by inserts alone: every cached value is that of its hits. */
  method ClusterOfAll(hits: seq<Hit>) returns (c: Cluster)
    ensures fresh(c) && c.Accurate() && c.FullyTracked() && c.hits == hits
  {
    c := new Cluster();
    InsertFrom(c, hits, 0);
  }

  method InsertFrom(c: Cluster, hits: seq<Hit>, n: nat)
    requires n <= |hits| && c.Accurate() && c.FullyTracked() && c.hits == hits[..n]
    modifies c
    ensures c.Accurate() && c.FullyTracked() && c.hits == hits
    decreases |hits| - n
  {
    if n < |hits| {
      AddTracked(c, hits[n]);
      InsertFrom(c, hits, n + 1);
    }
  }

  method AddTracked(c: Cluster, h: Hit)
    requires c.Accurate() && c.FullyTracked()
    modifies c
    ensures c.Accurate() && c.FullyTracked() && c.hits == old(c.hits) + [h]
  {
    c.Insert(h);
  }

  /** Two hits at the ends of the coordinates, 65534 coordinates without a hit between them,
      and no gap. */
  method HiddenGap(maxAllowedGap: uint8) returns (hitCount: nat, gap: bool, ghost unhit: nat)
    ensures hitCount == 2 && unhit == 65534 && !gap
  {
    var cluster := new Cluster();
    cluster.Insert(Hit(100, 0, 1, 0));
    cluster.Insert(Hit(100, INVALID_COORD, 1, 0));
    gap := cluster.Gap(maxAllowedGap);
    EndsHideGap(cluster.hits, cluster.CachedShape().bounds, maxAllowedGap);
    unhit := |Unhit(cluster.hits, cluster.CachedShape().bounds.coord)|;
    hitCount := |cluster.hits|;
  }

  lemma EndsHideGap(hits: seq<Hit>, b: Bounds, maxAllowedGap: uint8)
    requires |hits| == 2 && BoundsAre(hits, b) && hits[1].coordinate - hits[0].coordinate == 65535
    ensures !HasGap(hits, b.coord, maxAllowedGap) && |Unhit(hits, b.coord)| == 65534
  {
    BoundsOfTwo(hits, b);
    TwoCoordinates(hits);
    FullRangeHidesGap(hits, b, maxAllowedGap);
  }

  lemma BoundsOfTwo(hits: seq<Hit>, b: Bounds)
    requires |hits| == 2 && BoundsAre(hits, b) && hits[0].coordinate <= hits[1].coordinate
    ensures b.coord == Range(hits[0].coordinate, hits[1].coordinate)
  {
    assert b.coord.start <= hits[0].coordinate && hits[1].coordinate <= b.coord.end;
  }

  lemma TwoCoordinates(hits: seq<Hit>)
    requires |hits| == 2 && hits[0].coordinate != hits[1].coordinate
    ensures |HitCoordinates(hits)| == 2
  {
    CoordinateCount(hits);
  }

  lemma WeightIs(stale: Sums, hits: seq<Hit>, sums: Sums)
    requires SumsAre(stale, hits, sums) && |hits| == 1
    ensures sums.weight == stale.weight + hits[0].weight
  {
    assert Of(sums, Weight) == Of(stale, Weight) + SumBy(hits, Weight);
    assert SumFirst(hits, 0, Weight) == 0;
  }

  /** The cluster has taken in the hit. */
  twostate predicate Inserted(c: Cluster, e: Hit)
    requires old(c.Valid())
    reads c
  {
    && c.hits == old(c.hits) + [e] && c.stale == old(c.stale)
    && c.CachedShape() == ShapeAfter(old(c.hits), old(c.CachedShape()), e)
    && c.tracked == NextTracked(old(c.hits), old(c.CachedShape()), old(c.tracked), e)
  }

  /** The cluster has taken in the other's hits: with their shape if it had none itself, and
      otherwise with the joined bounds and plane. */
  twostate predicate Merged(c: Cluster, other: Cluster)
    reads c
  {
    && c.hits == old(c.hits) + old(other.hits)
    && (old(c.stale == Zero() && other.stale == Zero()) ==> c.stale == Zero())
    && (c.tracked == if old(c.hits) == [] then old(other.tracked) else old(c.tracked))
    && (old(other.hits) != [] ==>
          c.CachedShape() == if old(c.hits) == [] then old(other.CachedShape())
                             else MergedShape(old(c.CachedShape()), old(other.CachedShape())))
  }

  /** The rounded centre fits 16 bits and lies between the coordinates of two hits. */
  ghost predicate CenterAmong(hits: seq<Hit>, c: Option<real>) {
    && c.Some? && c.value >= 0.0 && 0 <= Round(c.value) < 65536
    && exists i, j :: 0 <= i < |hits| && 0 <= j < |hits| && hits[i].coordinate <= Round(c.value) <= hits[j].coordinate
  }

  lemma BoundsAmong(hits: seq<Hit>, b: Bounds, c: int)
    requires BoundsAre(hits, b) && b.coord.start <= c <= b.coord.end
    ensures exists i, j :: 0 <= i < |hits| && 0 <= j < |hits| && hits[i].coordinate <= c <= hits[j].coordinate
  {
    var i :| 0 <= i < |hits| && hits[i].coordinate == b.coord.start;
    var j :| 0 <= j < |hits| && hits[j].coordinate == b.coord.end;
  }

  /** The two planes of a detector event. */
  class Event {
    const planeA: uint8
    const planeB: uint8
    const clusterA: Cluster
    const clusterB: Cluster

    ghost predicate Valid()
      reads clusterA, clusterB
    {
      && clusterA != clusterB && clusterA.Valid() && clusterB.Valid()
      && (planeA != INVALID_PLANE ==> OnPlane(clusterA.hits, planeA))
      && (planeB != INVALID_PLANE ==> OnPlane(clusterB.hits, planeB))
    }

    constructor (plane1: uint8, plane2: uint8)
      ensures Valid() && fresh(clusterA) && fresh(clusterB) && planeA == plane1 && planeB == plane2
      ensures clusterA.Cleared() && clusterB.Cleared()
      ensures clusterA.Accurate() && clusterB.Accurate() && clusterA.FullyTracked() && clusterB.FullyTracked()
    {
      planeA, planeB := plane1, plane2;
      clusterA := new Cluster();
      clusterB := new Cluster();
    }

    /** A hit goes to the cluster of its plane, by the cluster's own insert; a hit on another
        plane is dropped. */
    method Insert(e: Hit)
      requires Valid()
      modifies clusterA, clusterB
      ensures Valid()
      ensures e.plane == planeA ==> clusterA.hits == old(clusterA.hits) + [e]
      ensures e.plane == planeB != planeA ==> clusterB.hits == old(clusterB.hits) + [e]
      ensures if e.plane == planeA then Inserted(clusterA, e) else unchanged(clusterA)
      ensures if e.plane != planeA && e.plane == planeB then Inserted(clusterB, e) else unchanged(clusterB)
    {
      if e.plane == planeA {
        clusterA.Insert(e);
      } else if e.plane == planeB {
        clusterB.Insert(e);
      }
    }

    /** A cluster goes to its plane's cluster and loses its hits; one on another plane is
        left alone. */
    method Merge(cluster: Cluster)
      requires Valid() && cluster.Valid() && cluster != clusterA && cluster != clusterB
      modifies clusterA, clusterB, cluster
      ensures Valid() && cluster.Valid()
      ensures old(cluster.plane) == planeA ==> clusterA.hits == old(clusterA.hits) + old(cluster.hits)
      ensures old(cluster.plane) == planeB != planeA ==> clusterB.hits == old(clusterB.hits) + old(cluster.hits)
      ensures if old(cluster.plane) == planeA then Merged(clusterA, cluster) else unchanged(clusterA)
      ensures if old(cluster.plane) != planeA && old(cluster.plane) == planeB then Merged(clusterB, cluster)
              else unchanged(clusterB)
      ensures cluster.hits == if old(cluster.plane) == planeA || old(cluster.plane) == planeB then []
                              else old(cluster.hits)
    {
      PlaneOfHits(cluster.hits, cluster.plane);
      if cluster.plane == planeA {
        OnPlaneAppend(clusterA.hits, cluster.hits, planeA);
        clusterA.Merge(cluster);
      } else if cluster.plane == planeB {
        OnPlaneAppend(clusterB.hits, cluster.hits, planeB);
        clusterB.Merge(cluster);
      }
    }

    /** The rounded centres that a pixel is calculated from lie within the hits of the planes. */
    lemma CentersWithin()
      requires Valid() && BothPlanes() && clusterA.Accurate() && clusterB.Accurate()
      requires clusterA.sums.weight > 0 && clusterB.sums.weight > 0
      ensures CenterAmong(clusterA.hits, Center(clusterA.sums.coordMass, clusterA.sums.weight))
      ensures CenterAmong(clusterB.hits, Center(clusterB.sums.coordMass, clusterB.sums.weight))
    {
      clusterA.CenterWithin();
      clusterB.CenterWithin();
      var x := Center(clusterA.sums.coordMass, clusterA.sums.weight);
      var y := Center(clusterB.sums.coordMass, clusterB.sums.weight);
      BoundsAmong(clusterA.hits, clusterA.CachedShape().bounds, Round(x.value));
      BoundsAmong(clusterB.hits, clusterB.CachedShape().bounds, Round(y.value));
    }

    function BothPlanes(): bool
      reads clusterA, clusterB
    {
      clusterA.hits != [] && clusterB.hits != []
    }

    function TimeStart(): uint64
      reads clusterA, clusterB
    {
      if clusterA.hits == [] then clusterB.timeStart
      else if clusterB.hits == [] then clusterA.timeStart
      else if clusterB.timeStart < clusterA.timeStart then clusterB.timeStart else clusterA.timeStart
    }

    function TimeEnd(): uint64
      reads clusterA, clusterB
    {
      if clusterA.hits == [] then clusterB.timeEnd
      else if clusterB.hits == [] then clusterA.timeEnd
      else if clusterA.timeEnd < clusterB.timeEnd then clusterB.timeEnd else clusterA.timeEnd
    }

    /** The event's times are the smallest and the largest of all its hits. */
    lemma TimesOfHits()
      requires Valid() && clusterA.hits + clusterB.hits != []
      ensures var all := clusterA.hits + clusterB.hits;
              && (forall i :: 0 <= i < |all| ==> TimeStart() <= all[i].time <= TimeEnd())
              && (exists i :: 0 <= i < |all| && all[i].time == TimeStart())
              && (exists i :: 0 <= i < |all| && all[i].time == TimeEnd())
    {
      var a, b := clusterA.hits, clusterB.hits;
      if a == [] {
        assert a + b == b;
      } else if b == [] {
        assert a + b == a;
      } else {
        BoundsAppend(a, b, clusterA.CachedShape().bounds, clusterB.CachedShape().bounds);
      }
    }
  }

  /** A cluster of one hit. */
  method ClusterOf(h: Hit) returns (c: Cluster)
    ensures fresh(c) && c.Accurate() && c.hits == [h] && c.tracked == 1 && c.CachedShape() == FirstShape(h)
  {
    c := new Cluster();
    c.Insert(h);
  }

  /** A cluster of one hit joins an event on the hit's plane. */
  method JoinHit(e: Event, h: Hit)
    requires e.Valid() && h.plane == e.planeA != e.planeB
    modifies e.clusterA, e.clusterB
    ensures e.Valid() && unchanged(e.clusterB) && e.clusterA.hits == old(e.clusterA.hits) + [h]
    ensures e.clusterA.CachedShape() == if old(e.clusterA.hits) == [] then FirstShape(h)
                                        else MergedShape(old(e.clusterA.CachedShape()), FirstShape(h))
  {
    var c := ClusterOf(h);
    e.Merge(c);
  }

  /** Two clusters of one hit each joined in an event on one plane: the indices stay with the
      first of them. */
  method JoinTwo(a: Hit, later: Hit, b: Hit) returns (e: Event)
    requires a.plane == later.plane == 0 && b.plane == 1
    ensures fresh(e) && e.Valid() && e.planeA == 0 && e.planeB == 1
    ensures e.clusterA.hits == [a, later] && e.clusterB.hits == [b]
    ensures e.clusterA.CachedShape() == MergedShape(FirstShape(a), FirstShape(later))
    ensures e.clusterB.CachedShape() == FirstShape(b)
  {
    e := new Event(0, 1);
    JoinHit(e, a);
    JoinHit(e, later);
    e.Insert(b);
  }

  ghost predicate OnPlane(hits: seq<Hit>, plane: uint8) {
    forall i :: 0 <= i < |hits| ==> hits[i].plane == plane
  }

  lemma OnPlaneAppend(a: seq<Hit>, b: seq<Hit>, plane: uint8)
    ensures OnPlane(a, plane) && OnPlane(b, plane) ==> OnPlane(a + b, plane)
  {
  }

  /** The cached plane is valid exactly if it is that of every hit. */
  lemma PlaneOfHits(hits: seq<Hit>, plane: uint8)
    requires hits != [] ==> plane == CommonPlane(hits)
    ensures plane != INVALID_PLANE ==> OnPlane(hits, plane)
    ensures forall p: uint8 :: p != INVALID_PLANE && hits != [] ==> (OnPlane(hits, p) <==> plane == p)
  {
    if hits != [] {
      assert forall p: uint8 :: OnPlane(hits, p) ==> hits[0].plane == p;
    }
  }
}
