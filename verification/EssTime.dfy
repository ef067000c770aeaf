/** Timestamps in seconds and ticks of the 88052500 Hz clock, whose tick is exactly
    400000/35221 ns, and times of flight against a current and a previous reference. */
module EssTime {
  import opened Basics

  const FREQUENCY := 88052500
  const SECOND := 1_000_000_000

  datatype Stamp = Stamp(high: uint32, low: uint32) {
    predicate Normal() {
      low < FREQUENCY
    }
  }

  // ---- nanoseconds ----

  /** The whole nanoseconds in a number of ticks. */
  function TicksToNS(ticks: nat): nat {
    ticks * 400000 / 35221
  }

  /** The number of ticks closest to a number of nanoseconds, halves rounded up. */
  function NSToTicks(ns: nat): nat {
    (2 * ns * 35221 + 400000) / 800000
  }

  function ToNS(s: Stamp): nat {
    s.high * SECOND + TicksToNS(s.low)
  }

  /** The constructor from nanoseconds; the seconds must fit 32 bits. */
  function FromNS(ns: nat): Stamp
    requires ns < TWO_32 * SECOND
  {
    SecondsFit(ns);
    Stamp(ns / SECOND, NSToTicks(ns % SECOND))
  }

  lemma SecondsFit(ns: nat)
    requires ns < TWO_32 * SECOND
    ensures ns / SECOND < TWO_32 && NSToTicks(ns % SECOND) <= FREQUENCY
  {
  }

  /** A time in nanoseconds is its seconds and the largest number of whole nanoseconds that is
      not above its ticks. */
  lemma ToNSIsFloor(s: Stamp)
    ensures var ns := ToNS(s) - s.high * 1_000_000_000;
            0 <= ns && 35221 * ns <= 400000 * s.low < 35221 * (ns + 1)
  {
  }

  /** Nanoseconds become their whole seconds, and the number of ticks closest to the rest, of
      two equally close ones the larger. */
  lemma FromNSIsClosest(ns: nat)
    requires ns < TWO_32 * SECOND
    ensures var s := FromNS(ns);
            var rest := ns - s.high * 1_000_000_000;
            && 0 <= rest < 1_000_000_000
            && 2 * (400000 * s.low - 35221 * rest) <= 400000 && 2 * (35221 * rest - 400000 * s.low) < 400000
  {
  }

  /** Times below one second give fewer ticks than a second has, except in the last 5 ns,
      which are rounded up to a whole second that is not carried to the high part. */
  lemma FromNSNormalIff(ns: nat)
    requires ns < TWO_32 * SECOND
    ensures FromNS(ns).low <= FREQUENCY
    ensures FromNS(ns).Normal() <==> ns % SECOND < 999_999_995
  {
  }

  /** Converting a normal time to nanoseconds and back returns it, even when the conversion
      is off by one nanosecond within the same second. */
  lemma RoundTrip(s: Stamp, ns: nat)
    requires s.Normal() && ToNS(s) - 1 <= ns <= ToNS(s) + 1 && s.high * SECOND <= ns < (s.high + 1) * SECOND
    ensures FromNS(ns) == s
  {
  }

  lemma RoundTripExact(s: Stamp)
    requires s.Normal()
    ensures ToNS(s) < TWO_32 * SECOND && FromNS(ToNS(s)) == s
  {
  }

  /** Nanoseconds to a time and back are off by at most 6 ns. */
  lemma FromNSError(ns: nat)
    requires ns < TWO_32 * SECOND
    ensures -6 <= ToNS(FromNS(ns)) - ns <= 6
  {
  }

  predicate Earlier(a: Stamp, b: Stamp) {
    a.high < b.high || (a.high == b.high && a.low < b.low)
  }

  /** On normal times, nanoseconds are ordered exactly as the two parts are. */
  lemma ToNSIsMonotone(a: Stamp, b: Stamp)
    requires a.Normal() && b.Normal()
    ensures ToNS(a) < ToNS(b) <==> Earlier(a, b)
  {
  }

  /** Any two 32-bit parts, normal or not, stay well below 2^63 ns. */
  lemma ToNSFits(s: Stamp, delay: uint32)
    ensures ToNS(s) + delay < TWO_63
  {
  }

  // ---- ticks ----

  function Ticks(s: Stamp): nat {
    s.high * FREQUENCY + s.low
  }

  /** The normal time at a number of ticks; seconds wrap at 32 bits. */
  function AtTicks(ticks: nat): (s: Stamp)
    ensures s.Normal()
  {
    Stamp(ticks / FREQUENCY % TWO_32, ticks % FREQUENCY)
  }

  /** Adding a and then b is adding a + b. */
  lemma AddsUp(start: nat, a: nat, b: nat)
    ensures AtTicks(Ticks(AtTicks(start + a)) + b) == AtTicks(start + (a + b))
  {
    var q, r := (start + a) / FREQUENCY, (start + a) % FREQUENCY;
    var c := (r + b) / FREQUENCY;
    assert start + (a + b) == q * FREQUENCY + (r + b);
    assert (start + (a + b)) / FREQUENCY == q + c;
    assert (q % TWO_32 * FREQUENCY + r + b) / FREQUENCY == q % TWO_32 + c;
    assert (q % TWO_32 + c) % TWO_32 == (q + c) % TWO_32;
  }

  /** Seconds and ticks added separately, with at most one carry. */
  lemma Carry(high: uint32, low: uint32, seconds: nat, ticks: nat)
    requires low <= FREQUENCY && ticks < FREQUENCY && seconds < TWO_32
    ensures var sum := low + ticks;
            AtTicks(high * FREQUENCY + low + (seconds * FREQUENCY + ticks)) ==
            if sum >= FREQUENCY then Stamp(((high + seconds) % TWO_32 + 1) % TWO_32, sum - FREQUENCY)
            else Stamp((high + seconds) % TWO_32, sum)
  {
  }

  /** The class ESSTime: its high and low parts are updated in place. */
  class Clock {
    var timeHigh: uint32
    var timeLow: uint32

    function Value(): Stamp
      reads this
    {
      Stamp(timeHigh, timeLow)
    }

    constructor (high: uint32, low: uint32)
      ensures Value() == Stamp(high, low)
    {
      timeHigh, timeLow := high, low;
    }

    constructor FromNanoseconds(ns: nat)
      requires ns < TWO_32 * SECOND
      ensures Value() == FromNS(ns)
    {
      SecondsFit(ns);
      timeHigh := ns / SECOND;
      timeLow := (2 * (ns - ns / SECOND * SECOND) * 35221 + 400000) / 800000;
    }

    /** Adds exactly the ticks, modulo 2^32 seconds, and leaves the time normal, if it started
        from no more than a full second; from more than that a single carry may not do. */
    method AddTicks(ticks: uint32)
      modifies this
      ensures old(timeLow) <= FREQUENCY ==> Value().Normal() && Value() == AtTicks(Ticks(old(Value())) + ticks)
      ensures Value().Normal() <==> (old(timeLow) + ticks % FREQUENCY) % TWO_32 < 2 * FREQUENCY
    {
      if timeLow <= FREQUENCY {
        Carry(timeHigh, timeLow, ticks / FREQUENCY, ticks % FREQUENCY);
      }
      ghost var start := Value();
      assert ticks == ticks / FREQUENCY * FREQUENCY + ticks % FREQUENCY;
      var ticksToAdd := 0;
      if ticks >= FREQUENCY {
        timeHigh := (timeHigh + ticks / FREQUENCY) % TWO_32;
        ticksToAdd := ticksToAdd + ticks % FREQUENCY;
      } else {
        ticksToAdd := ticksToAdd + ticks;
      }
      assert ticksToAdd == ticks % FREQUENCY && timeHigh == (start.high + ticks / FREQUENCY) % TWO_32;
      assert timeLow <= FREQUENCY ==> (timeLow + ticksToAdd) % TWO_32 == timeLow + ticksToAdd;
      if (timeLow + ticksToAdd) % TWO_32 >= FREQUENCY {
        timeHigh := (timeHigh + 1) % TWO_32;
        timeLow := (timeLow + ticksToAdd) % TWO_32 - FREQUENCY;
      } else {
        timeLow := (timeLow + ticksToAdd) % TWO_32;
      }
    }

    /** Adds the whole ticks in a duration, which must fit 32 bits. */
    method AddNanoseconds(ns: nat)
      requires ns * 35221 / 400000 < TWO_32
      modifies this
      ensures old(timeLow) <= FREQUENCY ==>
              Value().Normal() && Value() == AtTicks(Ticks(old(Value())) + ns * 35221 / 400000)
    {
      AddTicks(ns * 35221 / 400000);
    }
  }

  /** Unless the seconds wrap, adding a duration moves the time by no more than it, and by at
      most 12 ns less. */
  lemma AddedNanoseconds(s: Stamp, ns: nat)
    requires s.low <= FREQUENCY && (Ticks(s) + ns * 35221 / 400000) / FREQUENCY < TWO_32
    ensures ns - 12 <= ToNS(AtTicks(Ticks(s) + ns * 35221 / 400000)) - ToNS(s) <= ns
  {
  }

  /** Five nanoseconds before the second is full the clock shows 0 seconds and a full second of
      ticks. */
  method UncarriedSecond() returns (high: uint32, low: uint32)
    ensures high == 0 && low == FREQUENCY
  {
    var clock := new Clock.FromNanoseconds(999_999_995);
    return clock.timeHigh, clock.timeLow;
  }

  // ---- times of flight ----

  function ToInt64(x: uint64): int {
    if x >= TWO_63 then x - TWO_64 else x
  }

  datatype Outcome = Tof(ns: nat) | TofHigh | PrevTof(ns: nat) | PrevTofNegative | PrevTofHigh

  /** What becomes of an event: measured from the reference when it is not before it, otherwise
      from the previous one; too long a flight is discarded. */
  function Flight(time: int, reference: int, previous: int, maxTOF: int): Outcome {
    if time >= reference then
      if time - reference > maxTOF then TofHigh else Tof(time - reference)
    else if time < previous then PrevTofNegative
    else if time - previous > maxTOF then PrevTofHigh
    else PrevTof(time - previous)
  }

  function Accepted(o: Outcome): Option<nat> {
    match o
    case Tof(ns) => Some(ns)
    case PrevTof(ns) => Some(ns)
    case _ => None
  }

  /** A time of flight is given exactly when the event is at most maxTOF after the reference,
      or is before it and at most maxTOF after the previous reference; it is never larger. */
  lemma FlightAccepted(time: int, reference: int, previous: int, maxTOF: int)
    ensures Accepted(Flight(time, reference, previous, maxTOF)).Some? <==>
            0 <= time - reference <= maxTOF || (time < reference && 0 <= time - previous <= maxTOF)
    ensures var t := Accepted(Flight(time, reference, previous, maxTOF));
            t.Some? ==> t.value <= maxTOF && (t.value == time - reference || t.value == time - previous)
  {
  }

  datatype Counters = Counters(tofCount: nat, tofNegative: nat, prevTofCount: nat, prevTofNegative: nat, tofHigh: nat,
                               prevTofHigh: nat)

  /** Every event before the reference is counted once more for the previous reference. */
  predicate Balanced(c: Counters) {
    c.tofNegative == c.prevTofCount + c.prevTofNegative + c.prevTofHigh
  }

  class ReferenceTime {
    var timeInNS: int
    var prevTimeInNS: int
    var maxTOF: int
    var tofCount: nat
    var tofNegative: nat
    var prevTofCount: nat
    var prevTofNegative: nat
    var tofHigh: nat
    var prevTofHigh: nat

    function Counts(): Counters
      reads this
    {
      Counters(tofCount, tofNegative, prevTofCount, prevTofNegative, tofHigh, prevTofHigh)
    }

    constructor ()
      ensures timeInNS == prevTimeInNS == 0 && maxTOF == 0x7FFF_FFFF && Counts() == Counters(0, 0, 0, 0, 0, 0)
    {
      timeInNS, prevTimeInNS, maxTOF := 0, 0, 0x7FFF_FFFF;
      tofCount, tofNegative, prevTofCount, prevTofNegative, tofHigh, prevTofHigh := 0, 0, 0, 0, 0, 0;
    }

    method SetReference(time: Stamp) returns (ns: int)
      modifies `timeInNS
      ensures ns == timeInNS == ToNS(time) < TWO_63
    {
      ToNSFits(time, 0);
      timeInNS := ToNS(time);
      ns := timeInNS;
    }

    method SetReferenceNS(time: uint64)
      modifies `timeInNS
      ensures timeInNS == if time < 0x8000_0000_0000_0000 then time else time - 0x1_0000_0000_0000_0000
    {
      timeInNS := ToInt64(time);
    }

    method SetPrevReference(time: Stamp) returns (ns: int)
      modifies `prevTimeInNS
      ensures ns == prevTimeInNS == ToNS(time) < TWO_63
    {
      ToNSFits(time, 0);
      prevTimeInNS := ToNS(time);
      ns := prevTimeInNS;
    }

    method SetMaxTOF(newMaxTOF: uint64)
      modifies `maxTOF
      ensures maxTOF == if newMaxTOF < 0x8000_0000_0000_0000 then newMaxTOF else newMaxTOF - 0x1_0000_0000_0000_0000
    {
      maxTOF := ToInt64(newMaxTOF);
    }

    method GetTOF(time: Stamp, delay: uint32) returns (tof: Option<nat>)
      modifies `tofCount, `tofNegative, `tofHigh, `prevTofCount, `prevTofNegative, `prevTofHigh
      ensures tof == Accepted(Flight(ToNS(time) + delay, timeInNS, prevTimeInNS, maxTOF))
      ensures Counts() == AfterFlight(old(Counts()), Flight(ToNS(time) + delay, timeInNS, prevTimeInNS, maxTOF))
      ensures var timeval := ToNS(time) + delay;
              tof == if 0 <= timeval - timeInNS <= maxTOF then Some(timeval - timeInNS)
                     else if timeval < timeInNS && 0 <= timeval - prevTimeInNS <= maxTOF
                     then Some(timeval - prevTimeInNS)
                     else None
      ensures var timeval, c := ToNS(time) + delay, old(Counts());
              Counts() == if timeval - timeInNS > maxTOF && timeval >= timeInNS then c.(tofHigh := c.tofHigh + 1)
                          else if timeval >= timeInNS then c.(tofCount := c.tofCount + 1)
                          else if timeval < prevTimeInNS
                          then c.(tofNegative := c.tofNegative + 1, prevTofNegative := c.prevTofNegative + 1)
                          else if timeval - prevTimeInNS > maxTOF
                          then c.(tofNegative := c.tofNegative + 1, prevTofHigh := c.prevTofHigh + 1)
                          else c.(tofNegative := c.tofNegative + 1, prevTofCount := c.prevTofCount + 1)
    {
      ToNSFits(time, delay);
      var timeval := ToNS(time) + delay;
      if timeval < timeInNS {
        tofNegative := tofNegative + 1;
        tof := GetPrevTOF(time, delay);
        return;
      }
      if timeval - timeInNS > maxTOF {
        tofHigh := tofHigh + 1;
        return None;
      }
      tofCount := tofCount + 1;
      return Some(timeval - timeInNS);
    }

    method GetPrevTOF(time: Stamp, delay: uint32) returns (tof: Option<nat>)
      modifies `prevTofCount, `prevTofNegative, `prevTofHigh
      ensures var timeval, c := ToNS(time) + delay, old(Counts());
              && tof == (if 0 <= timeval - prevTimeInNS <= maxTOF then Some(timeval - prevTimeInNS) else None)
              && Counts() == if timeval < prevTimeInNS then c.(prevTofNegative := c.prevTofNegative + 1)
                             else if timeval - prevTimeInNS > maxTOF then c.(prevTofHigh := c.prevTofHigh + 1)
                             else c.(prevTofCount := c.prevTofCount + 1)
    {
      var timeval := ToNS(time) + delay;
      if timeval < prevTimeInNS {
        prevTofNegative := prevTofNegative + 1;
        return None;
      }
      if timeval - prevTimeInNS > maxTOF {
        prevTofHigh := prevTofHigh + 1;
        return None;
      }
      prevTofCount := prevTofCount + 1;
      return Some(timeval - prevTimeInNS);
    }
  }

  function AfterFlight(c: Counters, o: Outcome): Counters {
    match o
    case Tof(_) => c.(tofCount := c.tofCount + 1)
    case TofHigh => c.(tofHigh := c.tofHigh + 1)
    case PrevTof(_) => c.(tofNegative := c.tofNegative + 1, prevTofCount := c.prevTofCount + 1)
    case PrevTofNegative => c.(tofNegative := c.tofNegative + 1, prevTofNegative := c.prevTofNegative + 1)
    case PrevTofHigh => c.(tofNegative := c.tofNegative + 1, prevTofHigh := c.prevTofHigh + 1)
  }

  /** Counters of a run: each event is counted once as accepted or rejected. */
  function AfterFlights(c: Counters, os: seq<Outcome>): Counters {
    if os == [] then c else AfterFlight(AfterFlights(c, os[..|os| - 1]), os[|os| - 1])
  }

  function CountAccepted(os: seq<Outcome>): nat {
    if os == [] then 0 else CountAccepted(os[..|os| - 1]) + if Accepted(os[|os| - 1]).Some? then 1 else 0
  }

  lemma {:induction false} FlightsBalance(c: Counters, os: seq<Outcome>)
    requires Balanced(c)
    ensures var c' := AfterFlights(c, os);
            && Balanced(c')
            && c'.tofCount + c'.prevTofCount == c.tofCount + c.prevTofCount + CountAccepted(os)
            && (c'.tofHigh - c.tofHigh) + (c'.prevTofNegative - c.prevTofNegative) + (c'.prevTofHigh - c.prevTofHigh)
               == |os| - CountAccepted(os)
  {
    if os != [] {
      FlightsBalance(c, os[..|os| - 1]);
    }
  }
}
