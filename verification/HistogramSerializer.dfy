/** Histograms of event values, summed over a fixed number of reference times
    (frames) and published when the window of frames is complete. */
module HistogramSerializer {
  import opened Basics
  import opened Multiples

  /** The bin axis and the window size. Times past the axis are dropped or go to
      the last bin; what is published of a bin is its sum or its average. */
  datatype Config = Config(binCount: nat, binOffset: int, step: nat, aggregatedFrames: nat, lastBin: bool,
                           average: bool) {
    predicate Valid() {
      binCount >= 1 && aggregatedFrames >= 1
    }
  }

  /** An accepted event; sent says that a direct call of produce has taken it out of the bins. */
  datatype Hit = Hit(bin: nat, value: int, sent: bool)

  /** A reference time and the events accepted while it was in force. */
  datatype Frame = Frame(reference: int, accepted: seq<Hit>)

  datatype Call = SetReference(time: int) | AddEvent(time: int, value: int) | Produce

  datatype Message = Message(referenceTime: int, frameTime: seq<int>, signal: seq<int>,
                             referenceOffsets: seq<int>, frameTotal: seq<int>)

  // ---- binning, by looking along the axis ----

  function Edge(cfg: Config, i: nat): int {
    cfg.binOffset + Times(i, cfg.step)
  }

  datatype Placement = InBin(bin: nat) | BeforeAxis | PastAxis

  /** The last of the first n bins that starts at or before the time. */
  function LastStarted(cfg: Config, time: int, n: nat): Placement {
    if n == 0 then BeforeAxis
    else if Edge(cfg, n - 1) <= time then InBin(n - 1)
    else LastStarted(cfg, time, n - 1)
  }

  function Place(cfg: Config, time: int): Placement {
    if Edge(cfg, cfg.binCount) <= time then
      if cfg.lastBin && cfg.binCount > 0 then InBin(cfg.binCount - 1) else PastAxis
    else LastStarted(cfg, time, cfg.binCount)
  }

  lemma {:induction false} LastStartedIs(cfg: Config, time: int, n: nat, bin: nat)
    requires bin < n && Edge(cfg, bin) <= time < Edge(cfg, bin + 1)
    ensures LastStarted(cfg, time, n) == InBin(bin)
    decreases n
  {
    if bin < n - 1 {
      StepsApart(bin, n - 1, cfg.step);
      LastStartedIs(cfg, time, n - 1, bin);
    }
  }

  lemma {:induction false} NoneStarted(cfg: Config, time: int, n: nat)
    requires time < cfg.binOffset
    ensures LastStarted(cfg, time, n) == BeforeAxis
  {
    if n > 0 {
      NoneStarted(cfg, time, n - 1);
    }
  }

  /** Each time has exactly one place: a bin on the axis holds precisely the
      times between its edges. */
  lemma PlaceIsOnAxis(cfg: Config, time: int, bin: nat)
    requires cfg.Valid() && bin < cfg.binCount && (!cfg.lastBin || time < Edge(cfg, cfg.binCount))
    ensures Place(cfg, time) == InBin(bin) <==> Edge(cfg, bin) <= time < Edge(cfg, bin + 1)
  {
    if Edge(cfg, bin) <= time < Edge(cfg, bin + 1) {
      LastStartedIs(cfg, time, cfg.binCount, bin);
      if bin + 1 < cfg.binCount {
        StepsApart(bin + 1, cfg.binCount, cfg.step);
      }
    } else if Place(cfg, time) == InBin(bin) {
      PlacedBetweenEdges(cfg, time, cfg.binCount);
    }
  }

  lemma {:induction false} PlacedBetweenEdges(cfg: Config, time: int, n: nat)
    requires time < Edge(cfg, n)
    ensures var p := LastStarted(cfg, time, n);
            p.InBin? ==> p.bin < n && Edge(cfg, p.bin) <= time < Edge(cfg, p.bin + 1)
  {
    if n > 0 && time < Edge(cfg, n - 1) {
      PlacedBetweenEdges(cfg, time, n - 1);
    }
  }

  // ---- what the calls ask for, without any buffering ----

  /** The frames of complete windows, and those of the window that is open. */
  datatype Windows = Windows(done: seq<Frame>, open: seq<Frame>)

  function WithHit(frames: seq<Frame>, hit: Hit): seq<Frame>
    requires frames != []
  {
    var last := frames[|frames| - 1];
    frames[..|frames| - 1] + [Frame(last.reference, last.accepted + [hit])]
  }

  function Marked(hits: seq<Hit>): seq<Hit> {
    seq(|hits|, i requires 0 <= i < |hits| => hits[i].(sent := true))
  }

  function MarkedFrames(frames: seq<Frame>): seq<Frame> {
    seq(|frames|, i requires 0 <= i < |frames| => Frame(frames[i].reference, Marked(frames[i].accepted)))
  }

  function NextFrames(cfg: Config, w: Windows, call: Call): Windows {
    match call
    case SetReference(time) =>
      if w.open != [] && w.open[|w.open| - 1].reference == time then w
      else if |w.open| >= cfg.aggregatedFrames then Windows(w.done + w.open, [Frame(time, [])])
      else w.(open := w.open + [Frame(time, [])])
    case AddEvent(time, value) =>
      var p := Place(cfg, time);
      if w.open != [] && p.InBin? then w.(open := WithHit(w.open, Hit(p.bin, value, false))) else w
    case Produce => w.(open := MarkedFrames(w.open))
  }

  /** The frames so far; an event before the first reference time is not allowed. */
  function Frames(cfg: Config, calls: seq<Call>): Windows {
    if calls == [] then Windows([], []) else NextFrames(cfg, Frames(cfg, calls[..|calls| - 1]), calls[|calls| - 1])
  }

  function CountPlaced(cfg: Config, calls: seq<Call>, p: Placement): nat {
    if calls == [] then 0
    else
      var call := calls[|calls| - 1];
      CountPlaced(cfg, calls[..|calls| - 1], p) + if call.AddEvent? && Place(cfg, call.time) == p then 1 else 0
  }

  function Adds(calls: seq<Call>): nat {
    if calls == [] then 0 else Adds(calls[..|calls| - 1]) + if calls[|calls| - 1].AddEvent? then 1 else 0
  }

  lemma CallsGrow(cfg: Config, calls: seq<Call>, call: Call)
    ensures (calls + [call])[..|calls|] == calls
    ensures Adds(calls + [call]) == Adds(calls) + if call.AddEvent? then 1 else 0
    ensures forall p :: CountPlaced(cfg, calls + [call], p) ==
              CountPlaced(cfg, calls, p) + if call.AddEvent? && Place(cfg, call.time) == p then 1 else 0
  {
    assert (calls + [call])[..|calls|] == calls;
  }

  // ---- sums over events ----

  function Total(hits: seq<Hit>): int {
    if hits == [] then 0 else Total(hits[..|hits| - 1]) + hits[|hits| - 1].value
  }

  /** What is still in the bin. */
  function BinSum(hits: seq<Hit>, bin: nat): int {
    if hits == [] then 0
    else
      var h := hits[|hits| - 1];
      BinSum(hits[..|hits| - 1], bin) + if h.bin == bin && !h.sent then h.value else 0
  }

  function BinHits(hits: seq<Hit>, bin: nat): nat {
    if hits == [] then 0
    else
      var h := hits[|hits| - 1];
      BinHits(hits[..|hits| - 1], bin) + if h.bin == bin && !h.sent then 1 else 0
  }

  /** What was taken out of the bin, and out of all bins. */
  function EarlySum(hits: seq<Hit>, bin: nat): int {
    if hits == [] then 0
    else
      var h := hits[|hits| - 1];
      EarlySum(hits[..|hits| - 1], bin) + if h.bin == bin && h.sent then h.value else 0
  }

  function EarlyTotal(hits: seq<Hit>): int {
    if hits == [] then 0
    else
      var h := hits[|hits| - 1];
      EarlyTotal(hits[..|hits| - 1]) + if h.sent then h.value else 0
  }

  /** Nothing is left in the bins. */
  predicate AllSent(hits: seq<Hit>) {
    forall i :: 0 <= i < |hits| ==> hits[i].sent
  }

  function AllHits(frames: seq<Frame>): seq<Hit> {
    if frames == [] then [] else AllHits(frames[..|frames| - 1]) + frames[|frames| - 1].accepted
  }

  lemma HitsGrow(hits: seq<Hit>, hit: Hit)
    requires !hit.sent
    ensures Total(hits + [hit]) == Total(hits) + hit.value
    ensures forall bin :: BinSum(hits + [hit], bin) == BinSum(hits, bin) + if hit.bin == bin then hit.value else 0
    ensures forall bin :: BinHits(hits + [hit], bin) == BinHits(hits, bin) + if hit.bin == bin then 1 else 0
  {
    assert (hits + [hit])[..|hits|] == hits;
  }

  /** Taking everything out of the bins leaves the totals. */
  lemma {:induction false} MarkedHits(hits: seq<Hit>, bin: nat)
    ensures Total(Marked(hits)) == Total(hits) && BinSum(Marked(hits), bin) == BinHits(Marked(hits), bin) == 0
  {
    if hits != [] {
      MarkedHits(hits[..|hits| - 1], bin);
      assert Marked(hits)[..|hits| - 1] == Marked(hits[..|hits| - 1]);
    }
  }

  lemma {:induction false} AllHitsMarked(frames: seq<Frame>)
    ensures AllHits(MarkedFrames(frames)) == Marked(AllHits(frames))
  {
    if frames != [] {
      AllHitsMarked(frames[..|frames| - 1]);
      assert MarkedFrames(frames)[..|frames| - 1] == MarkedFrames(frames[..|frames| - 1]);
    }
  }

  lemma FramesGrow(frames: seq<Frame>, frame: Frame)
    ensures AllHits(frames + [frame]) == AllHits(frames) + frame.accepted
  {
    assert (frames + [frame])[..|frames|] == frames;
  }

  lemma {:induction false} AllHitsAppend(a: seq<Frame>, b: seq<Frame>)
    ensures AllHits(a + b) == AllHits(a) + AllHits(b)
  {
    if b == [] {
      assert a + b == a;
    } else {
      var init, last := b[..|b| - 1], b[|b| - 1];
      AllHitsAppend(a, init);
      FramesGrow(a + init, last);
      FramesGrow(init, last);
      Regroup(a, init, [last]);
      Regroup(AllHits(a), AllHits(init), last.accepted);
      assert init + [last] == b;
    }
  }

  lemma Regroup<T>(a: seq<T>, b: seq<T>, c: seq<T>)
    ensures a + b + c == a + (b + c)
  {
  }

  /** All hits lie in one of the n bins. */
  ghost predicate Within(hits: seq<Hit>, n: nat) {
    forall i :: 0 <= i < |hits| ==> hits[i].bin < n
  }

  /** Some bin is hit exactly when a hit is not sent yet. */
  lemma {:induction false} SomeBinHit(hits: seq<Hit>, n: nat)
    requires Within(hits, n)
    ensures AllSent(hits) <==> forall bin :: 0 <= bin < n ==> BinHits(hits, bin) == 0
  {
    if hits != [] {
      var init, last := hits[..|hits| - 1], hits[|hits| - 1];
      SomeBinHit(init, n);
      if AllSent(init) {
        assert AllSent(hits) <==> last.sent;
        assert !last.sent ==> BinHits(hits, last.bin) > 0;
        forall bin: nat | last.sent && bin < n
          ensures BinHits(hits, bin) == 0
        {
          assert BinHits(init, bin) == 0;
        }
      } else {
        var bin :| 0 <= bin < n && BinHits(init, bin) != 0;
        assert BinHits(hits, bin) == BinHits(init, bin) + if last.bin == bin && !last.sent then 1 else 0;
        var i :| 0 <= i < |init| && !init[i].sent;
        assert hits[i] == init[i];
      }
    }
  }

  // ---- what is to be published ----

  function Signal(hits: seq<Hit>, binCount: nat): seq<int> {
    seq(binCount, bin requires 0 <= bin < binCount => BinSum(hits, bin))
  }

  function HitCounts(hits: seq<Hit>, binCount: nat): seq<nat> {
    seq(binCount, bin requires 0 <= bin < binCount => BinHits(hits, bin))
  }

  /** The average of a 32-bit sum, which the division takes as an unsigned number, as it does
      the count. */
  function Average(sum: int, count: nat): int {
    if count == 0 then sum else ToInt32(sum % TWO_32 / count)
  }

  function Aggregate(cfg: Config, sum: int, count: nat): int {
    if cfg.average then Average(sum, count) else sum
  }

  function Aggregated(cfg: Config, sums: seq<int>, counts: seq<nat>): seq<int>
    requires |sums| == |counts|
  {
    seq(|sums|, i requires 0 <= i < |sums| => Aggregate(cfg, sums[i], counts[i]))
  }

  lemma SumsStay(cfg: Config, sums: seq<int>, counts: seq<nat>)
    requires |sums| == |counts| && !cfg.average
    ensures Aggregated(cfg, sums, counts) == sums
  {
  }

  function Truncated(a: int, b: nat): int
    requires b > 0
  {
    if a >= 0 then a / b else -(-a / b)
  }

  /** That is the sum divided by the count exactly if the sum is not negative, the count is 1, or
      it is so large that both are 0. */
  lemma AverageIsMeanIff(sum: int32, count: uint32)
    requires count > 0
    ensures Average(sum, count) == Truncated(sum, count) <==> sum >= 0 || count == 1 || TWO_32 + sum < count
  {
    if sum >= 0 {
      Unsigned(sum);
      Quotient(sum, count);
      ToInt32Wraps(sum / count);
    } else {
      var unsigned, magnitude: nat := TWO_32 + sum, 0 - sum;
      Unsigned(sum);
      Quotient(unsigned, count);
      Quotient(magnitude, count);
      ToInt32Wraps(unsigned / count);
    }
  }

  lemma Unsigned(sum: int32)
    ensures sum % TWO_32 == if sum >= 0 then sum else TWO_32 + sum
  {
  }

  lemma Quotient(n: nat, d: nat)
    requires d > 0
    ensures 0 <= n / d <= n && (n / d == 0 <==> n < d) && (d >= 2 ==> n / d <= n / 2)
  {
    var q := n / d;
    PointInStep(n, d);
    TimesMonotone(q, 1, d);
    TimesIsProduct(q, 1);
    if d >= 2 {
      TimesMonotone(q, 2, d);
      TimesIsProduct(q, 2);
    }
  }

  lemma {:induction false} NoHitsNoSum(hits: seq<Hit>, bin: nat)
    requires BinHits(hits, bin) == 0
    ensures BinSum(hits, bin) == 0
  {
    if hits != [] {
      NoHitsNoSum(hits[..|hits| - 1], bin);
    }
  }

  /** A quotient by its two bounds. */
  lemma QuotientBounds(n: nat, d: nat)
    requires d > 0
    ensures d * (n / d) <= n < d * (n / d + 1)
  {
    PointInStep(n, d);
    TimesIsProduct(n / d, d);
  }

  /** The average of a sum that is not negative is the largest integer that, times the count, is
      not above it; of a negative sum it is that of the sum plus 2^32, in 32 bits with sign. */
  lemma AverageBounds(sum: int32, count: nat)
    requires count > 0
    ensures sum >= 0 ==> count * Average(sum, count) <= sum < count * (Average(sum, count) + 1)
    ensures sum < 0 ==>
              var a := Average(sum, count);
              var u := if a < 0 then a + 0x1_0000_0000 else a;
              count * u <= sum + 0x1_0000_0000 < count * (u + 1)
  {
    Unsigned(sum);
    var n := if sum >= 0 then sum else TWO_32 + sum;
    QuotientBounds(n, count);
    Quotient(n, count);
    ToInt32Wraps(n / count);
  }

  /** What a message may say of a bin: the sum, or, of a bin that is averaged, the largest
      integer that times the count is not above the sum; a sum below zero counts as 2^32 more,
      and so does what is said of it if that is below zero. Nothing is said of an average
      whose sum does not fit 32 bits with sign. */
  ghost predicate BinTold(cfg: Config, said: int, sum: int, count: nat) {
    && (!cfg.average ==> said == sum) && (count == 0 ==> said == sum == 0)
    && (cfg.average && count > 0 && 0 <= sum < 0x8000_0000 ==> count * said <= sum < count * (said + 1))
    && (cfg.average && count > 0 && -0x8000_0000 <= sum < 0 ==>
          var unsigned := if said < 0 then said + 0x1_0000_0000 else said;
          count * unsigned <= sum + 0x1_0000_0000 < count * (unsigned + 1))
  }

  lemma AggregateTells(cfg: Config, sum: int, count: nat)
    requires count == 0 ==> sum == 0
    ensures BinTold(cfg, Aggregate(cfg, sum, count), sum, count)
  {
    if count > 0 && -0x8000_0000 <= sum < 0x8000_0000 {
      AverageBounds(sum, count);
    }
  }

  ghost predicate BinsTold(cfg: Config, signal: seq<int>, hits: seq<Hit>) {
    && |signal| == cfg.binCount
    && forall bin: nat :: bin < cfg.binCount ==> BinTold(cfg, signal[bin], BinSum(hits, bin), BinHits(hits, bin))
  }

  /** The signal of a window tells of every bin. */
  lemma SignalTells(cfg: Config, hits: seq<Hit>)
    ensures BinsTold(cfg, WindowSignal(cfg, hits), hits)
  {
    forall bin: nat | bin < cfg.binCount
      ensures BinTold(cfg, WindowSignal(cfg, hits)[bin], BinSum(hits, bin), BinHits(hits, bin))
    {
      if BinHits(hits, bin) == 0 {
        NoHitsNoSum(hits, bin);
      }
      AggregateTells(cfg, BinSum(hits, bin), BinHits(hits, bin));
    }
  }

  function Offsets(window: seq<Frame>, first: int): seq<int> {
    seq(|window|, i requires 0 <= i < |window| => window[i].reference - first)
  }

  function Totals(window: seq<Frame>): seq<int> {
    seq(|window|, i requires 0 <= i < |window| => Total(window[i].accepted))
  }

  function WindowSignal(cfg: Config, hits: seq<Hit>): seq<int> {
    Aggregated(cfg, Signal(hits, cfg.binCount), HitCounts(hits, cfg.binCount))
  }

  function Axis(cfg: Config): seq<int> {
    seq(cfg.binCount + 1, i requires 0 <= i <= cfg.binCount => Edge(cfg, i))
  }

  /** The message for one window of frames. */
  function WindowMessage(cfg: Config, window: seq<Frame>, first: int): Message
    requires window != []
  {
    Message(window[|window| - 1].reference,
            Axis(cfg),
            WindowSignal(cfg, AllHits(window)),
            Offsets(window, first), Totals(window))
  }

  /** What a complete window contributes to the messages: its own message, if an event is left
      in the bins. */
  function WindowMessages(cfg: Config, window: seq<Frame>, first: int): seq<Message>
    requires window != []
  {
    if AllSent(AllHits(window)) then [] else [WindowMessage(cfg, window, first)]
  }

  /** The messages for the first n windows. */
  function Expected(cfg: Config, frames: seq<Frame>, n: nat): seq<Message>
    requires cfg.Valid() && Times(n, cfg.aggregatedFrames) <= |frames|
  {
    if n == 0 then []
    else
      var window := frames[Times(n - 1, cfg.aggregatedFrames)..Times(n, cfg.aggregatedFrames)];
      Expected(cfg, frames, n - 1)
      + WindowMessages(cfg, window, frames[0].reference)
  }

  /** Completed windows do not change any more. */
  lemma {:induction false} ExpectedStable(cfg: Config, frames: seq<Frame>, frames': seq<Frame>, n: nat)
    requires cfg.Valid() && Times(n, cfg.aggregatedFrames) <= |frames| <= |frames'|
    requires frames[..Times(n, cfg.aggregatedFrames)] == frames'[..Times(n, cfg.aggregatedFrames)]
    ensures Expected(cfg, frames, n) == Expected(cfg, frames', n)
  {
    if n > 0 {
      var a, b := Times(n - 1, cfg.aggregatedFrames), Times(n, cfg.aggregatedFrames);
      assert frames[..a] == frames[..b][..a] == frames'[..b][..a] == frames'[..a];
      assert frames[a..b] == frames[..b][a..] == frames'[..b][a..] == frames'[a..b];
      assert frames[0] == frames[..b][0] == frames'[..b][0] == frames'[0];
      ExpectedStable(cfg, frames, frames', n - 1);
    }
  }

  /** Within one message the frame totals add up to all events of the window, and the bins, when
      they are summed, to those that were not sent early. */
  lemma SignalMatchesTotals(cfg: Config, window: seq<Frame>, first: int)
    requires window != [] && Within(AllHits(window), cfg.binCount)
    ensures var m := WindowMessage(cfg, window, first);
            && Sum(m.frameTotal) == Total(AllHits(window))
            && (!cfg.average ==> Sum(m.signal) == Sum(m.frameTotal) - EarlyTotal(AllHits(window)))
  {
    SignalSums(AllHits(window), cfg.binCount);
    TotalsSum(window);
    if !cfg.average {
      SumsStay(cfg, Signal(AllHits(window), cfg.binCount), HitCounts(AllHits(window), cfg.binCount));
    }
  }

  lemma {:induction false} SignalSums(hits: seq<Hit>, n: nat)
    requires Within(hits, n)
    ensures Sum(Signal(hits, n)) == Total(hits) - EarlyTotal(hits)
  {
    if hits == [] {
      ZeroSignal(n);
    } else {
      var init, last := hits[..|hits| - 1], hits[|hits| - 1];
      SignalSums(init, n);
      if last.sent {
        assert Signal(hits, n) == Signal(init, n);
      } else {
        assert Signal(hits, n) == Signal(init, n)[last.bin := Signal(init, n)[last.bin] + last.value];
        SumUpdate(Signal(init, n), last.bin, Signal(init, n)[last.bin] + last.value);
      }
    }
  }

  /** The same events, none of them sent early. */
  function Unmarked(hits: seq<Hit>): seq<Hit> {
    seq(|hits|, i requires 0 <= i < |hits| => hits[i].(sent := false))
  }

  lemma {:induction false} BinSumSplits(hits: seq<Hit>, bin: nat)
    ensures BinSum(Unmarked(hits), bin) == BinSum(hits, bin) + EarlySum(hits, bin)
  {
    if hits != [] {
      BinSumSplits(hits[..|hits| - 1], bin);
      assert Unmarked(hits)[..|hits| - 1] == Unmarked(hits[..|hits| - 1]);
    }
  }

  /** Calls of produce before a window is full change the bins of the window's own message
      exactly if the events they sent leave some bin with a sum other than zero. */
  lemma EarlyLossIff(hits: seq<Hit>, n: nat)
    ensures Signal(hits, n) == Signal(Unmarked(hits), n) <==> forall bin :: 0 <= bin < n ==> EarlySum(hits, bin) == 0
  {
    forall bin: nat | bin < n
      ensures Signal(Unmarked(hits), n)[bin] == Signal(hits, n)[bin] + EarlySum(hits, bin)
    {
      BinSumSplits(hits, bin);
    }
    if Signal(hits, n) == Signal(Unmarked(hits), n) {
      forall bin: nat | bin < n
        ensures EarlySum(hits, bin) == 0
      {
        assert Signal(hits, n)[bin] == Signal(Unmarked(hits), n)[bin];
      }
    } else {
      var bin :| 0 <= bin < n && Signal(hits, n)[bin] != Signal(Unmarked(hits), n)[bin];
      assert EarlySum(hits, bin) != 0;
    }
  }

  lemma {:induction false} ZeroSignal(n: nat)
    ensures Sum(Signal([], n)) == 0
  {
    if n > 0 {
      ZeroSignal(n - 1);
      assert Signal([], n)[..n - 1] == Signal([], n - 1);
    }
  }

  lemma {:induction false} TotalsSum(window: seq<Frame>)
    ensures Sum(Totals(window)) == Total(AllHits(window))
  {
    if window != [] {
      var init, last := window[..|window| - 1], window[|window| - 1];
      TotalsSum(init);
      assert Totals(window)[..|init|] == Totals(init);
      TotalAppend(AllHits(init), last.accepted);
    }
  }

  lemma {:induction false} TotalAppend(a: seq<Hit>, b: seq<Hit>)
    ensures Total(a + b) == Total(a) + Total(b)
  {
    if b == [] {
      assert a + b == a;
    } else {
      TotalAppend(a, b[..|b| - 1]);
      assert (a + b)[..|a + b| - 1] == a + b[..|b| - 1];
    }
  }

  /** Every frame holds hits of existing bins only. */
  ghost predicate FramesWithin(frames: seq<Frame>, n: nat) {
    forall i :: 0 <= i < |frames| ==> Within(frames[i].accepted, n)
  }

  lemma {:induction false} AllHitsWithin(frames: seq<Frame>, n: nat)
    requires FramesWithin(frames, n)
    ensures Within(AllHits(frames), n)
  {
    if frames != [] {
      AllHitsWithin(frames[..|frames| - 1], n);
    }
  }

  lemma PlaceWithin(cfg: Config, time: int)
    requires cfg.Valid()
    ensures Place(cfg, time).InBin? ==> Place(cfg, time).bin < cfg.binCount
  {
    if time < Edge(cfg, cfg.binCount) {
      PlacedBetweenEdges(cfg, time, cfg.binCount);
    }
  }

  lemma {:induction false} FramesAreWithin(cfg: Config, calls: seq<Call>)
    requires cfg.Valid()
    ensures FramesWithin(Frames(cfg, calls).done, cfg.binCount) && FramesWithin(Frames(cfg, calls).open, cfg.binCount)
  {
    if calls != [] {
      FramesAreWithin(cfg, calls[..|calls| - 1]);
      var call := calls[|calls| - 1];
      if call.AddEvent? {
        PlaceWithin(cfg, call.time);
      }
    }
  }

  function Window(cfg: Config, frames: seq<Frame>, w: nat): seq<Frame>
    requires Times(w + 1, cfg.aggregatedFrames) <= |frames|
  {
    frames[Times(w, cfg.aggregatedFrames)..Times(w + 1, cfg.aggregatedFrames)]
  }

  /** What a message tells of a window of frames: its last reference time, the edges of the bins,
      how far each reference time is from the first one of all, the sum of each frame's values,
      and every bin. */
  ghost predicate Tells(cfg: Config, m: Message, window: seq<Frame>, first: int)
    requires window != []
  {
    && m.referenceTime == window[|window| - 1].reference
    && |m.frameTime| == cfg.binCount + 1
    && (forall i: nat :: i <= cfg.binCount ==> m.frameTime[i] == cfg.binOffset + i * cfg.step)
    && |m.referenceOffsets| == |m.frameTotal| == |window|
    && (forall i :: 0 <= i < |window| ==> m.referenceOffsets[i] == window[i].reference - first)
    && (forall i :: 0 <= i < |window| ==> m.frameTotal[i] == Total(window[i].accepted))
    && BinsTold(cfg, m.signal, AllHits(window))
  }

  lemma AxisEdges(cfg: Config)
    ensures |Axis(cfg)| == cfg.binCount + 1
    ensures forall i: nat :: i <= cfg.binCount ==> Axis(cfg)[i] == cfg.binOffset + i * cfg.step
  {
    forall i: nat | i <= cfg.binCount
      ensures Edge(cfg, i) == cfg.binOffset + i * cfg.step
    {
      TimesIsProduct(i, cfg.step);
    }
  }

  lemma WindowMessageTells(cfg: Config, window: seq<Frame>, first: int)
    requires window != []
    ensures Tells(cfg, WindowMessage(cfg, window, first), window, first)
  {
    AxisEdges(cfg);
    SignalTells(cfg, AllHits(window));
  }

  /** Every published message is that of one window of aggregatedFrames reference times, and its
      bins add up to the same number as its frame totals, less what was sent early. */
  lemma MessagesBalance(cfg: Config, calls: seq<Call>, n: nat, k: nat) returns (w: nat)
    requires cfg.Valid() && Times(n, cfg.aggregatedFrames) <= |Frames(cfg, calls).done|
    requires k < |Expected(cfg, Frames(cfg, calls).done, n)|
    ensures var frames := Frames(cfg, calls).done;
            && w < n && Times(w + 1, cfg.aggregatedFrames) <= |frames|
            && Window(cfg, frames, w) != []
            && OfWindow(cfg, Expected(cfg, frames, n)[k], Window(cfg, frames, w))
            && Tells(cfg, Expected(cfg, frames, n)[k], Window(cfg, frames, w), frames[0].reference)
  {
    FramesAreWithin(cfg, calls);
    var frames := Frames(cfg, calls).done;
    w := ExpectedIsWindow(cfg, frames, n, k);
    WindowMessageTells(cfg, Window(cfg, frames, w), frames[0].reference);
    WindowBalance(cfg, Window(cfg, frames, w), frames[0].reference);
  }

  predicate OfWindow(cfg: Config, m: Message, window: seq<Frame>) {
    && |m.referenceOffsets| == |m.frameTotal| == cfg.aggregatedFrames
    && m.signal == WindowSignal(cfg, AllHits(window)) && m.frameTotal == Totals(window)
    && (!cfg.average ==> Sum(m.signal) == Sum(m.frameTotal) - EarlyTotal(AllHits(window)))
  }

  lemma {:induction false} ExpectedIsWindow(cfg: Config, frames: seq<Frame>, n: nat, k: nat) returns (w: nat)
    requires cfg.Valid() && Times(n, cfg.aggregatedFrames) <= |frames| && k < |Expected(cfg, frames, n)|
    ensures w < n && Times(w + 1, cfg.aggregatedFrames) <= |frames|
    ensures Expected(cfg, frames, n)[k] == WindowMessage(cfg, Window(cfg, frames, w), frames[0].reference)
  {
    w := n - 1;
    if k < |Expected(cfg, frames, w)| {
      w := ExpectedIsWindow(cfg, frames, w, k);
    }
  }

  lemma WindowBalance(cfg: Config, window: seq<Frame>, first: int)
    requires |window| == cfg.aggregatedFrames > 0 && FramesWithin(window, cfg.binCount)
    ensures OfWindow(cfg, WindowMessage(cfg, window, first), window)
  {
    AllHitsWithin(window, cfg.binCount);
    SignalMatchesTotals(cfg, window, first);
  }

  /** Without direct calls of produce nothing is sent early, and every message balances. */
  lemma {:induction false} NothingEarly(cfg: Config, calls: seq<Call>)
    requires forall i :: 0 <= i < |calls| ==> !calls[i].Produce?
    ensures var w := Frames(cfg, calls); NoneSent(w.done) && NoneSent(w.open)
  {
    if calls != [] {
      NothingEarly(cfg, calls[..|calls| - 1]);
    }
  }

  ghost predicate NoneSent(frames: seq<Frame>) {
    forall i, j :: 0 <= i < |frames| && 0 <= j < |frames[i].accepted| ==> !frames[i].accepted[j].sent
  }

  lemma {:induction false} NoneSentTotal(frames: seq<Frame>)
    requires NoneSent(frames)
    ensures EarlyTotal(AllHits(frames)) == 0
  {
    if frames != [] {
      var init, last := frames[..|frames| - 1], frames[|frames| - 1];
      NoneSentTotal(init);
      EarlyAppend(AllHits(init), last.accepted);
    }
  }

  lemma {:induction false} EarlyAppend(a: seq<Hit>, b: seq<Hit>)
    requires forall i :: 0 <= i < |b| ==> !b[i].sent
    ensures EarlyTotal(a + b) == EarlyTotal(a)
  {
    if b == [] {
      assert a + b == a;
    } else {
      EarlyAppend(a, b[..|b| - 1]);
      assert (a + b)[..|a + b| - 1] == a + b[..|b| - 1];
    }
  }

  lemma NoneSentInWindow(cfg: Config, frames: seq<Frame>, w: nat)
    requires NoneSent(frames) && Times(w, cfg.aggregatedFrames) <= Times(w + 1, cfg.aggregatedFrames) <= |frames|
    ensures EarlyTotal(AllHits(Window(cfg, frames, w))) == 0
  {
    var start, window := Times(w, cfg.aggregatedFrames), Window(cfg, frames, w);
    assert forall i :: 0 <= i < |window| ==> window[i] == frames[start + i];
    NoneSentTotal(window);
  }

  /** So over any run of other calls, every message's bins and frame totals add up to the same
      number. */
  lemma MessagesBalanceWithoutProduce(cfg: Config, calls: seq<Call>, n: nat, k: nat)
    requires cfg.Valid() && Times(n, cfg.aggregatedFrames) <= |Frames(cfg, calls).done|
    requires k < |Expected(cfg, Frames(cfg, calls).done, n)|
    requires !cfg.average && forall i :: 0 <= i < |calls| ==> !calls[i].Produce?
    ensures var m := Expected(cfg, Frames(cfg, calls).done, n)[k]; Sum(m.signal) == Sum(m.frameTotal)
  {
    var w := MessagesBalance(cfg, calls, n, k);
    NothingEarly(cfg, calls);
    NoneSentInWindow(cfg, Frames(cfg, calls).done, w);
  }

  // ---- the serializer's vectors while a window is open ----

  /** The bins hold the sums and counts of the hits. */
  ghost predicate BinsCollect(cfg: Config, hits: seq<Hit>, sums: seq<int>, counts: seq<nat>) {
    Within(hits, cfg.binCount) && sums == Signal(hits, cfg.binCount) && counts == HitCounts(hits, cfg.binCount)
  }

  /** The summation vectors hold the frames' reference offsets and totals. */
  ghost predicate FramesCollect(cfg: Config, window: seq<Frame>, first: int, axis: seq<int>, totals: seq<int>) {
    && |window| <= |axis| == |totals| == cfg.aggregatedFrames
    && axis[..|window|] == Offsets(window, first) && totals[..|window|] == Totals(window)
  }

  lemma AllHitsWithHit(frames: seq<Frame>, hit: Hit)
    requires frames != []
    ensures AllHits(WithHit(frames, hit)) == AllHits(frames) + [hit]
  {
    var init, last := frames[..|frames| - 1], frames[|frames| - 1];
    FramesGrow(init, Frame(last.reference, last.accepted + [hit]));
    assert AllHits(init) + (last.accepted + [hit]) == AllHits(init) + last.accepted + [hit];
  }

  lemma FramesCollectHit(cfg: Config, window: seq<Frame>, first: int, hit: Hit,
                         axis: seq<int>, totals: seq<int>, n: nat)
    requires !hit.sent
    requires FramesCollect(cfg, window, first, axis, totals) && |window| == n + 1
    ensures FramesCollect(cfg, WithHit(window, hit), first, axis, totals[n := totals[n] + hit.value])
  {
    HitsGrow(window[n].accepted, hit);
    assert totals[n] == totals[..n + 1][n] == Total(window[n].accepted);
    assert totals[n := totals[n] + hit.value][..n + 1] == totals[..n + 1][n := totals[n] + hit.value];
  }

  lemma BinsCollectHit(cfg: Config, hits: seq<Hit>, hit: Hit, sums: seq<int>, counts: seq<nat>)
    requires !hit.sent
    requires BinsCollect(cfg, hits, sums, counts) && hit.bin < cfg.binCount
    ensures BinsCollect(cfg, hits + [hit], sums[hit.bin := sums[hit.bin] + hit.value],
                        counts[hit.bin := counts[hit.bin] + 1])
  {
    HitsGrow(hits, hit);
  }

  /** A new frame in the open window. */
  lemma FramesCollectFrame(cfg: Config, window: seq<Frame>, first: int, reference: int,
                           axis: seq<int>, totals: seq<int>, n: nat)
    requires FramesCollect(cfg, window, first, axis, totals) && n == |window| < cfg.aggregatedFrames
    ensures FramesCollect(cfg, window + [Frame(reference, [])], first, axis[n := reference - first], totals[n := 0])
  {
    assert axis[n := reference - first][..n + 1] == axis[..n] + [reference - first];
    assert totals[n := 0][..n + 1] == totals[..n] + [0];
  }

  lemma BinsEmpty(cfg: Config, sums: seq<int>, counts: seq<nat>)
    requires |sums| == |counts| == cfg.binCount
    requires forall bin :: 0 <= bin < cfg.binCount ==> sums[bin] == 0 && counts[bin] == 0
    ensures BinsCollect(cfg, [], sums, counts)
  {
    assert sums == Signal([], cfg.binCount);
    assert counts == HitCounts([], cfg.binCount);
  }

  /** Division finds the place of a time. */
  lemma DivisionPlaces(cfg: Config, time: int)
    requires cfg.Valid() && cfg.step >= 1
    ensures time < cfg.binOffset ==> Place(cfg, time) == BeforeAxis
    ensures time >= cfg.binOffset ==>
              var q := (time - cfg.binOffset) / cfg.step;
              && (q < cfg.binCount <==> time < Edge(cfg, cfg.binCount))
              && Place(cfg, time) == if q < cfg.binCount then InBin(q)
                                     else if cfg.lastBin then InBin(cfg.binCount - 1) else PastAxis
  {
    if time < cfg.binOffset {
      NoneBefore(cfg, time);
    } else {
      PointInStep(time - cfg.binOffset, cfg.step);
      var q := (time - cfg.binOffset) / cfg.step;
      if q < cfg.binCount {
        StepsApart(q, cfg.binCount, cfg.step);
        LastStartedIs(cfg, time, cfg.binCount, q);
      } else if cfg.binCount < q {
        StepsApart(cfg.binCount, q, cfg.step);
      }
    }
  }

  lemma NoneBefore(cfg: Config, time: int)
    requires time < cfg.binOffset
    ensures Place(cfg, time) == BeforeAxis && time < Edge(cfg, cfg.binCount)
  {
    NoneStarted(cfg, time, cfg.binCount);
  }

  /** The serializer's mutable state as a value. */
  datatype View = View(referenceTime: Option<int>, axisIndex: nat, dataIndex: nat, frameCounter: nat,
                       sums: seq<int>, counts: seq<nat>, axis: seq<int>, totals: seq<int>)

  /** The working element is the current frame of the open window, which is collected. */
  ghost predicate OpenInv(cfg: Config, open: seq<Frame>, first: int, v: View) {
    match v.referenceTime
    case None =>
      && open == [] && v.frameCounter == 0 < cfg.aggregatedFrames
      && BinsCollect(cfg, [], v.sums, v.counts) && FramesCollect(cfg, [], first, v.axis, v.totals)
      && v.axis[0] == v.totals[0] == 0
    case Some(time) =>
      && |open| == v.frameCounter + 1 <= cfg.aggregatedFrames
      && v.axisIndex == v.dataIndex == v.frameCounter && time == open[v.frameCounter].reference
      && BinsCollect(cfg, AllHits(open), v.sums, v.counts) && FramesCollect(cfg, open, first, v.axis, v.totals)
  }

  /** Complete windows are published. */
  ghost predicate DoneInv(cfg: Config, done: seq<Frame>, open: seq<Frame>, first: int, windows: nat,
                          published: seq<Message>) {
    && cfg.Valid() && |done| == Times(windows, cfg.aggregatedFrames) && published == Expected(cfg, done, windows)
    && (open != [] ==> first == (done + open)[0].reference)
    && (open == [] ==> done == [])
  }

  /** Every event is in a frame or counted as dropped. */
  ghost predicate Accounted(cfg: Config, calls: seq<Call>, done: seq<Frame>, open: seq<Frame>, before: nat, over: nat) {
    && Frames(cfg, calls) == Windows(done, open)
    && before == CountPlaced(cfg, calls, BeforeAxis)
    && over == CountPlaced(cfg, calls, PastAxis)
    && Adds(calls) == |AllHits(done)| + |AllHits(open)| + before + over
  }

  lemma DropAccounted(cfg: Config, calls: seq<Call>, done: seq<Frame>, open: seq<Frame>, before: nat, over: nat,
                      call: Call)
    requires Accounted(cfg, calls, done, open, before, over)
    requires call.AddEvent? && !Place(cfg, call.time).InBin?
    ensures Place(cfg, call.time).BeforeAxis? ==> Accounted(cfg, calls + [call], done, open, before + 1, over)
    ensures Place(cfg, call.time).PastAxis? ==> Accounted(cfg, calls + [call], done, open, before, over + 1)
  {
    CallsGrow(cfg, calls, call);
  }

  function AfterAccept(v: View, bin: nat, value: int): View
    requires bin < |v.sums| == |v.counts| && v.dataIndex < |v.totals|
  {
    v.(sums := v.sums[bin := v.sums[bin] + value], counts := v.counts[bin := v.counts[bin] + 1],
       totals := v.totals[v.dataIndex := v.totals[v.dataIndex] + value])
  }

  /** An accepted event extends the current frame and nothing else. */
  lemma AcceptKeepsOpen(cfg: Config, open: seq<Frame>, first: int, v: View, hit: Hit)
    requires OpenInv(cfg, open, first, v) && v.referenceTime.Some? && hit.bin < cfg.binCount && !hit.sent
    ensures OpenInv(cfg, WithHit(open, hit), first, AfterAccept(v, hit.bin, hit.value))
  {
    AllHitsWithHit(open, hit);
    BinsCollectHit(cfg, AllHits(open), hit, v.sums, v.counts);
    FramesCollectHit(cfg, open, first, hit, v.axis, v.totals, v.frameCounter);
  }

  lemma AcceptAccounted(cfg: Config, calls: seq<Call>, done: seq<Frame>, open: seq<Frame>,
                        before: nat, over: nat, call: Call, bin: nat)
    requires Accounted(cfg, calls, done, open, before, over) && open != []
    requires call.AddEvent? && Place(cfg, call.time) == InBin(bin)
    ensures Accounted(cfg, calls + [call], done, WithHit(open, Hit(bin, call.value, false)), before, over)
    ensures (done + WithHit(open, Hit(bin, call.value, false)))[0].reference == (done + open)[0].reference
  {
    CallsGrow(cfg, calls, call);
    AllHitsWithHit(open, Hit(bin, call.value, false));
  }

  /** A new reference time adds a frame and no event, in the open window or in a new one. */
  lemma FrameAccounted(cfg: Config, calls: seq<Call>, done: seq<Frame>, open: seq<Frame>, before: nat, over: nat,
                       time: int)
    requires Accounted(cfg, calls, done, open, before, over) && |open| < cfg.aggregatedFrames
    requires open != [] ==> open[|open| - 1].reference != time
    ensures Accounted(cfg, calls + [SetReference(time)], done, open + [Frame(time, [])], before, over)
  {
    CallsGrow(cfg, calls, SetReference(time));
    FramesGrow(open, Frame(time, []));
  }

  lemma NewWindowAccounted(cfg: Config, calls: seq<Call>, done: seq<Frame>, open: seq<Frame>, before: nat, over: nat,
                           time: int)
    requires Accounted(cfg, calls, done, open, before, over) && open != [] && |open| >= cfg.aggregatedFrames
    requires open[|open| - 1].reference != time
    ensures Accounted(cfg, calls + [SetReference(time)], done + open, [Frame(time, [])], before, over)
  {
    CallsGrow(cfg, calls, SetReference(time));
    FramesGrow([], Frame(time, []));
    AllHitsAppend(done, open);
  }

  lemma SameFrameAccounted(cfg: Config, calls: seq<Call>, done: seq<Frame>, open: seq<Frame>, before: nat, over: nat,
                           time: int)
    requires Accounted(cfg, calls, done, open, before, over) && open != [] && open[|open| - 1].reference == time
    ensures Accounted(cfg, calls + [SetReference(time)], done, open, before, over)
  {
    CallsGrow(cfg, calls, SetReference(time));
  }

  lemma ProduceAccounted(cfg: Config, calls: seq<Call>, done: seq<Frame>, open: seq<Frame>, before: nat, over: nat)
    requires Accounted(cfg, calls, done, open, before, over)
    ensures Accounted(cfg, calls + [Produce], done, MarkedFrames(open), before, over)
  {
    CallsGrow(cfg, calls, Produce);
    AllHitsMarked(open);
  }

  function AfterFirstFrame(v: View, time: int): View {
    v.(referenceTime := Some(time), axisIndex := 0, dataIndex := 0)
  }

  lemma FirstFrameKeeps(cfg: Config, open: seq<Frame>, v: View, time: int)
    requires OpenInv(cfg, open, 0, v) && v.referenceTime.None?
    ensures OpenInv(cfg, [Frame(time, [])], time, AfterFirstFrame(v, time))
  {
    FramesGrow([], Frame(time, []));
    assert Offsets([Frame(time, [])], time) == [0] == Totals([Frame(time, [])]);
  }

  /** The next working element starts with its reference offset and an empty total. */
  function AfterFrame(v: View, time: int, n: nat): View
    requires v.referenceTime.Some? && v.axisIndex < |v.axis| == |v.totals| && n < |v.axis|
  {
    v.(referenceTime := Some(time), axisIndex := n, dataIndex := n, frameCounter := n,
       axis := v.axis[n := v.axis[v.axisIndex] + (time - v.referenceTime.value)], totals := v.totals[n := 0])
  }

  lemma CurrentOffset(cfg: Config, open: seq<Frame>, first: int, v: View)
    requires OpenInv(cfg, open, first, v) && v.referenceTime.Some?
    ensures v.axis[v.axisIndex] == v.referenceTime.value - first
  {
    assert v.axis[..|open|][v.frameCounter] == Offsets(open, first)[v.frameCounter];
  }

  /** One more frame in the open window. */
  lemma NextFrameKeeps(cfg: Config, open: seq<Frame>, first: int, v: View, time: int)
    requires OpenInv(cfg, open, first, v) && v.referenceTime.Some?
    requires v.frameCounter + 1 < cfg.aggregatedFrames
    ensures OpenInv(cfg, open + [Frame(time, [])], first, AfterFrame(v, time, v.frameCounter + 1))
  {
    CurrentOffset(cfg, open, first, v);
    FramesGrow(open, Frame(time, []));
    assert AllHits(open) + [] == AllHits(open);
    FramesCollectFrame(cfg, open, first, time, v.axis, v.totals, v.frameCounter + 1);
  }

  /** What produce sends: the vectors as they are, unless no bin was hit. */
  ghost function Sending(cfg: Config, v: View): seq<Message>
    requires v.referenceTime.Some? && |v.sums| == |v.counts|
  {
    if forall bin :: 0 <= bin < |v.counts| ==> v.counts[bin] == 0 then []
    else [Message(v.referenceTime.value, Axis(cfg), Aggregated(cfg, v.sums, v.counts), v.axis, v.totals)]
  }

  /** A message is sent exactly when the open window has an event that was not sent yet. It is
      that window's message exactly if the window is full, since the vectors of frames always
      go out at full length. */
  lemma SendingIsWindow(cfg: Config, open: seq<Frame>, first: int, v: View)
    requires OpenInv(cfg, open, first, v) && v.referenceTime.Some?
    ensures open != [] && (Sending(cfg, v) == [] <==> AllSent(AllHits(open)))
    ensures Sending(cfg, v) == WindowMessages(cfg, open, first) <==>
              AllSent(AllHits(open)) || |open| == cfg.aggregatedFrames
  {
    CountsDecide(cfg, AllHits(open), v.sums, v.counts);
    FullVectors(cfg, open, first, v.axis, v.totals);
    var signal := Aggregated(cfg, v.sums, v.counts);
    assert Message(v.referenceTime.value, Axis(cfg), signal, v.axis, v.totals) == WindowMessage(cfg, open, first)
      <==> |open| == cfg.aggregatedFrames;
  }

  lemma CountsDecide(cfg: Config, hits: seq<Hit>, sums: seq<int>, counts: seq<nat>)
    requires BinsCollect(cfg, hits, sums, counts)
    ensures AllSent(hits) <==> forall bin :: 0 <= bin < |counts| ==> counts[bin] == 0
  {
    SomeBinHit(hits, cfg.binCount);
    if AllSent(hits) {
      forall bin: nat | bin < |counts|
        ensures counts[bin] == 0
      {
        assert counts[bin] == BinHits(hits, bin);
      }
    } else {
      var bin :| 0 <= bin < cfg.binCount && BinHits(hits, bin) != 0;
      assert counts[bin] != 0;
    }
  }

  lemma FullVectors(cfg: Config, open: seq<Frame>, first: int, axis: seq<int>, totals: seq<int>)
    requires FramesCollect(cfg, open, first, axis, totals)
    ensures axis == Offsets(open, first) <==> |open| == cfg.aggregatedFrames
    ensures totals == Totals(open) <==> |open| == cfg.aggregatedFrames
  {
    if |open| == cfg.aggregatedFrames {
      assert axis == axis[..|open|] && totals == totals[..|open|];
    }
  }

  /** The bins add up to the window's events that were not sent yet, and the frame totals to all
      of them and what is left from the window before. */
  lemma SendingBalance(cfg: Config, open: seq<Frame>, first: int, v: View)
    requires OpenInv(cfg, open, first, v) && v.referenceTime.Some?
    ensures Sum(v.sums) == Total(AllHits(open)) - EarlyTotal(AllHits(open))
    ensures Sum(v.totals) == Total(AllHits(open)) + Sum(v.totals[|open|..])
    ensures Sum(v.sums) == Sum(v.totals) <==> EarlyTotal(AllHits(open)) + Sum(v.totals[|open|..]) == 0
  {
    SignalSums(AllHits(open), cfg.binCount);
    StaleTotals(open, v.totals);
  }

  lemma StaleTotals(window: seq<Frame>, totals: seq<int>)
    requires |window| <= |totals| && totals[..|window|] == Totals(window)
    ensures Sum(totals) == Total(AllHits(window)) + Sum(totals[|window|..])
  {
    TotalsSum(window);
    SumAppend(totals[..|window|], totals[|window|..]);
    assert totals[..|window|] + totals[|window|..] == totals;
  }

  /** Emptying the bins marks the open window's events as sent and keeps the frames. */
  lemma EarlyDrainKeeps(cfg: Config, open: seq<Frame>, first: int, v: View, sums: seq<int>, counts: seq<nat>)
    requires OpenInv(cfg, open, first, v) && v.referenceTime.Some?
    requires |sums| == |counts| == cfg.binCount
    requires forall bin :: 0 <= bin < cfg.binCount ==> sums[bin] == 0 && counts[bin] == 0
    ensures OpenInv(cfg, MarkedFrames(open), first, v.(sums := sums, counts := counts))
  {
    AllHitsMarked(open);
    MarkedBins(cfg, AllHits(open), sums, counts);
    MarkedTotals(open, first);
  }

  lemma MarkedBins(cfg: Config, hits: seq<Hit>, sums: seq<int>, counts: seq<nat>)
    requires Within(hits, cfg.binCount) && |sums| == |counts| == cfg.binCount
    requires forall bin :: 0 <= bin < cfg.binCount ==> sums[bin] == 0 && counts[bin] == 0
    ensures BinsCollect(cfg, Marked(hits), sums, counts)
  {
    forall bin: nat | bin < cfg.binCount
      ensures BinSum(Marked(hits), bin) == BinHits(Marked(hits), bin) == 0
    {
      MarkedHits(hits, bin);
    }
    assert sums == Signal(Marked(hits), cfg.binCount) && counts == HitCounts(Marked(hits), cfg.binCount);
  }

  lemma MarkedTotals(window: seq<Frame>, first: int)
    ensures Totals(MarkedFrames(window)) == Totals(window)
    ensures Offsets(MarkedFrames(window), first) == Offsets(window, first)
  {
    forall i | 0 <= i < |window|
      ensures Total(MarkedFrames(window)[i].accepted) == Total(window[i].accepted)
    {
      MarkedHits(window[i].accepted, 0);
    }
  }

  /** After a complete window a new one opens with emptied bins. */
  lemma NewWindowKeeps(cfg: Config, open: seq<Frame>, first: int, v: View, time: int, sums: seq<int>, counts: seq<nat>)
    requires OpenInv(cfg, open, first, v) && v.referenceTime.Some?
    requires |sums| == |counts| == cfg.binCount
    requires forall bin :: 0 <= bin < cfg.binCount ==> sums[bin] == 0 && counts[bin] == 0
    ensures OpenInv(cfg, [Frame(time, [])], first, AfterFrame(v, time, 0).(sums := sums, counts := counts))
  {
    CurrentOffset(cfg, open, first, v);
    FramesGrow([], Frame(time, []));
    FramesCollectFrame(cfg, [], first, time, v.axis, v.totals, 0);
    BinsEmpty(cfg, sums, counts);
    assert [] + [Frame(time, [])] == [Frame(time, [])];
  }

  /** The complete window joins the windows done, and its message the published ones. */
  lemma CompleteWindow(cfg: Config, done: seq<Frame>, open: seq<Frame>, first: int, windows: nat,
                       published: seq<Message>, next: seq<Frame>)
    requires DoneInv(cfg, done, open, first, windows, published) && |open| == cfg.aggregatedFrames && next != []
    ensures DoneInv(cfg, done + open, next, first, windows + 1, published + WindowMessages(cfg, open, first))
  {
    ExpectedStable(cfg, done, done + open, windows);
    assert (done + open)[|done|..|done + open|] == open;
    assert (done + open + next)[0] == (done + open)[0];
  }

  /** One more frame, in the open window or in a new one. */
  lemma NextFrameDone(cfg: Config, done: seq<Frame>, open: seq<Frame>, first: int, windows: nat,
                      published: seq<Message>, frame: Frame)
    requires DoneInv(cfg, done, open, first, windows, published) && open != []
    ensures DoneInv(cfg, done, open + [frame], first, windows, published)
    ensures |open| == cfg.aggregatedFrames ==>
              DoneInv(cfg, done + open, [frame], first, windows + 1, published + WindowMessages(cfg, open, first))
    ensures done + (open + [frame]) == done + open + [frame]
  {
    if |open| == cfg.aggregatedFrames {
      CompleteWindow(cfg, done, open, first, windows, published, [frame]);
    }
    assert (done + (open + [frame]))[0] == (done + open)[0];
  }

  /** What happened so far: the calls, the frames of complete windows and of the open one, the
      first reference time, and the messages the callback received: those of complete windows,
      and those of direct calls of produce. */
  datatype History = History(calls: seq<Call>, done: seq<Frame>, open: seq<Frame>, first: int, windows: nat,
                             published: seq<Message>, early: seq<Message>)

  ghost predicate Inv(cfg: Config, h: History, v: View, before: nat, over: nat) {
    && DoneInv(cfg, h.done, h.open, h.first, h.windows, h.published)
    && OpenInv(cfg, h.open, h.first, v) && (h.open == [] ==> h.first == 0)
    && Accounted(cfg, h.calls, h.done, h.open, before, over)
  }

  /** Published messages are determined by the calls made: one message for every complete
      window with an event left in the bins. Every event is in a complete window, in the open
      one, or counted as dropped. */
  lemma Published(cfg: Config, h: History, v: View, before: nat, over: nat)
    requires Inv(cfg, h, v, before, over)
    ensures var w := Frames(cfg, h.calls);
            && |w.done| == Times(h.windows, cfg.aggregatedFrames)
            && (v.referenceTime.Some? ==> 1 <= |w.open| <= cfg.aggregatedFrames)
            && (v.referenceTime.None? ==> w == Windows([], []))
            && h.published == Expected(cfg, w.done, h.windows)
            && Adds(h.calls) == |AllHits(w.done)| + |AllHits(w.open)| + before + over
  {
  }

  /** An accepted event extends the open window and keeps everything else. */
  lemma AcceptKeeps(cfg: Config, h: History, v: View, before: nat, over: nat, call: Call, bin: nat)
    returns (h': History)
    requires Inv(cfg, h, v, before, over) && v.referenceTime.Some?
    requires call.AddEvent? && bin < cfg.binCount && Place(cfg, call.time) == InBin(bin)
    ensures Inv(cfg, h', AfterAccept(v, bin, call.value), before, over)
    ensures h'.calls == h.calls + [call] && h'.windows == h.windows
  {
    h' := h.(calls := h.calls + [call], open := WithHit(h.open, Hit(bin, call.value, false)));
    AcceptAccounted(cfg, h.calls, h.done, h.open, before, over, call, bin);
    AcceptKeepsOpen(cfg, h.open, h.first, v, Hit(bin, call.value, false));
  }

  /** A dropped event only moves its drop counter. */
  lemma DropKeeps(cfg: Config, h: History, v: View, before: nat, over: nat, call: Call) returns (h': History)
    requires Inv(cfg, h, v, before, over) && call.AddEvent? && !Place(cfg, call.time).InBin?
    ensures Place(cfg, call.time).BeforeAxis? ==> Inv(cfg, h', v, before + 1, over)
    ensures Place(cfg, call.time).PastAxis? ==> Inv(cfg, h', v, before, over + 1)
    ensures h' == h.(calls := h.calls + [call])
  {
    h' := h.(calls := h.calls + [call]);
    DropAccounted(cfg, h.calls, h.done, h.open, before, over, call);
  }

  lemma FirstReferenceKeeps(cfg: Config, h: History, v: View, before: nat, over: nat, time: int) returns (h': History)
    requires Inv(cfg, h, v, before, over) && v.referenceTime.None?
    ensures Inv(cfg, h', AfterFirstFrame(v, time), before, over)
    ensures h'.calls == h.calls + [SetReference(time)] && h'.windows == h.windows
  {
    h' := h.(calls := h.calls + [SetReference(time)], open := [Frame(time, [])], first := time);
    FirstFrameKeeps(cfg, h.open, v, time);
    FrameAccounted(cfg, h.calls, [], [], before, over, time);
  }

  lemma SameReferenceKeeps(cfg: Config, h: History, v: View, before: nat, over: nat, time: int)
    requires Inv(cfg, h, v, before, over) && v.referenceTime == Some(time)
    ensures Inv(cfg, h.(calls := h.calls + [SetReference(time)]), v, before, over)
  {
    SameFrameAccounted(cfg, h.calls, h.done, h.open, before, over, time);
  }

  lemma NextReferenceKeeps(cfg: Config, h: History, v: View, before: nat, over: nat, time: int) returns (h': History)
    requires Inv(cfg, h, v, before, over) && v.referenceTime.Some? && v.referenceTime.value != time
    requires v.frameCounter + 1 < cfg.aggregatedFrames
    ensures Inv(cfg, h', AfterFrame(v, time, v.frameCounter + 1), before, over)
    ensures h'.calls == h.calls + [SetReference(time)] && h'.published == h.published && h'.windows == h.windows
  {
    h' := h.(calls := h.calls + [SetReference(time)], open := h.open + [Frame(time, [])]);
    FrameAccounted(cfg, h.calls, h.done, h.open, before, over, time);
    NextFrameDone(cfg, h.done, h.open, h.first, h.windows, h.published, Frame(time, []));
    NextFrameKeeps(cfg, h.open, h.first, v, time);
  }

  /** The reference time after a full window: its message is sent and a new window opens. */
  lemma NewWindowReferenceKeeps(cfg: Config, h: History, v: View, before: nat, over: nat, time: int,
                                sent: seq<Message>, sums: seq<int>, counts: seq<nat>)
    returns (h': History)
    requires Inv(cfg, h, v, before, over) && v.referenceTime.Some? && v.referenceTime.value != time
    requires v.frameCounter + 1 == cfg.aggregatedFrames && sent == WindowMessages(cfg, h.open, h.first)
    requires |sums| == |counts| == cfg.binCount
    requires forall bin :: 0 <= bin < cfg.binCount ==> sums[bin] == 0 && counts[bin] == 0
    ensures Inv(cfg, h', AfterFrame(v, time, 0).(sums := sums, counts := counts), before, over)
    ensures h'.calls == h.calls + [SetReference(time)] && h'.published == h.published + sent
            && h'.windows == h.windows + 1
  {
    var next := [Frame(time, [])];
    h' := History(h.calls + [SetReference(time)], h.done + h.open, next, h.first, h.windows + 1, h.published + sent,
                  h.early);
    NewWindowAccounted(cfg, h.calls, h.done, h.open, before, over, time);
    CompleteWindow(cfg, h.done, h.open, h.first, h.windows, h.published, next);
    NewWindowKeeps(cfg, h.open, h.first, v, time, sums, counts);
  }

  /** An early message: the open window's reference time and bins, but the whole message of
      that window only if it is full. */
  ghost predicate SentEarly(cfg: Config, open: seq<Frame>, first: int, sent: seq<Message>)
    requires open != []
  {
    && |sent| == 1
    && sent[0].referenceTime == open[|open| - 1].reference && sent[0].signal == WindowSignal(cfg, AllHits(open))
    && sent[0].frameTime == Axis(cfg)
    && |open| <= |sent[0].referenceOffsets| == |sent[0].frameTotal| == cfg.aggregatedFrames
    && sent[0].referenceOffsets[..|open|] == Offsets(open, first)
    && sent[0].frameTotal[..|open|] == Totals(open)
    && (sent[0] == WindowMessage(cfg, open, first) <==> |open| == cfg.aggregatedFrames)
  }

  /** What a direct call of produce adds to the history: its message, if an event was not sent
      yet. */
  ghost predicate ProducedEarly(cfg: Config, h: History, h': History) {
    && h'.calls == h.calls + [Produce] && h'.published == h.published && h'.open == MarkedFrames(h.open)
    && if AllSent(AllHits(h.open)) then h'.early == h.early
       else h.open != [] && |h.early| < |h'.early| && h'.early[..|h.early|] == h.early
            && SentEarly(cfg, h.open, h.first, h'.early[|h.early|..])
  }

  /** It keeps everything but the open window's events, which are now sent. */
  lemma ProduceKeeps(cfg: Config, h: History, v: View, before: nat, over: nat, sent: seq<Message>,
                     sums: seq<int>, counts: seq<nat>)
    returns (h': History)
    requires Inv(cfg, h, v, before, over) && |sums| == |counts| == cfg.binCount == |v.sums| == |v.counts|
    requires if v.referenceTime.None? then sent == [] && sums == v.sums && counts == v.counts
             else
               && sent == Sending(cfg, v)
               && forall bin :: 0 <= bin < cfg.binCount ==> sums[bin] == 0 && counts[bin] == 0
    ensures Inv(cfg, h', v.(sums := sums, counts := counts), before, over) && ProducedEarly(cfg, h, h')
    ensures h'.windows == h.windows
  {
    h' := h.(calls := h.calls + [Produce], open := MarkedFrames(h.open), early := h.early + sent);
    ProduceAccounted(cfg, h.calls, h.done, h.open, before, over);
    assert h'.early[|h.early|..] == sent;
    if v.referenceTime.Some? {
      EarlyDrainKeeps(cfg, h.open, h.first, v, sums, counts);
      SendingIsWindow(cfg, h.open, h.first, v);
      assert (h.done + h'.open)[0].reference == (h.done + h.open)[0].reference;
    }
  }

  /** An early message tells of the open window's bins and, in the first elements of its vectors,
      of its frames. */
  lemma EarlyTells(cfg: Config, h: History, h': History)
    requires ProducedEarly(cfg, h, h') && !AllSent(AllHits(h.open))
    ensures h.open != [] && |h.early| + 1 == |h'.early|
    ensures var m, n := h'.early[|h.early|], |h.open|;
            && n <= |m.referenceOffsets| == |m.frameTotal| == cfg.aggregatedFrames
            && Tells(cfg, m.(referenceOffsets := m.referenceOffsets[..n], frameTotal := m.frameTotal[..n]),
                     h.open, h.first)
  {
    AxisEdges(cfg);
    SignalTells(cfg, AllHits(h.open));
  }

  /** The step computed from the ends of the axis is the bin width it was built with. */
  lemma StepFromEnds(n: nat, width: nat, low: int, high: int)
    requires n >= 1 && high == low + Times(n, width)
    ensures (high - low) / n == width
  {
    TimesIsProduct(n, width);
    TimesIsProduct(width, n);
    DivisionFindsStep(width, Times(n, width), n);
  }

  /** The edges of the bins, and the step taken from the first and last of them. */
  method InitAxis(binWidth: nat, binCount: nat, binOffset: int) returns (axis: seq<int>, step: int)
    requires binCount >= 1
    ensures |axis| == binCount + 1 && step == binWidth
    ensures forall k :: 0 <= k <= binCount ==> axis[k] == binOffset + Times(k, binWidth)
  {
    axis := [];
    for i := 0 to binCount + 1
      invariant |axis| == i
      invariant forall k :: 0 <= k < i ==> axis[k] == binOffset + Times(k, binWidth)
    {
      TimesIsProduct(i, binWidth);
      axis := axis + [binOffset + i * binWidth];
    }
    StepFromEnds(binCount, binWidth, axis[0], axis[binCount]);
    step := (axis[binCount] - axis[0]) / (|axis| - 1);
  }

  class Serializer {
    const cfg: Config
    const xAxisValues: seq<int>
    // DataBins: value sums and hit counts
    var sums: seq<int>
    var counts: seq<nat>
    var binnedData: seq<int>
    // summation vectors and the positions of their iterators
    var summedAxis: seq<int>
    var summedData: seq<int>
    var axisIndex: nat
    var dataIndex: nat
    var frameCounter: nat
    var referenceTime: Option<int>
    // HistogramSerializerStats
    var produceCalled: nat
    var produceRefTimeTriggered: nat
    var produceFailedNoReferenceTime: nat
    var dataBeforeTimeOffsetDropped: nat
    var dataOverPeriodDropped: nat
    var dataOverPeriodLastBin: nat

    ghost var history: History

    ghost predicate Shape() {
      cfg.Valid() && xAxisValues == Axis(cfg)
    }

    ghost function State(): View
      reads `referenceTime, `axisIndex, `dataIndex, `frameCounter, `sums, `counts, `summedAxis, `summedData
    {
      View(referenceTime, axisIndex, dataIndex, frameCounter, sums, counts, summedAxis, summedData)
    }

    ghost predicate Valid()
      reads `referenceTime, `axisIndex, `dataIndex, `frameCounter, `sums, `counts, `summedAxis, `summedData
      reads `binnedData, `produceRefTimeTriggered, `dataBeforeTimeOffsetDropped, `dataOverPeriodDropped, `history
    {
      && Shape() && |binnedData| == cfg.binCount
      && produceRefTimeTriggered == history.windows
      && Inv(cfg, history, State(), dataBeforeTimeOffsetDropped, dataOverPeriodDropped)
    }

    /** Writes down what happened. */
    ghost method Record(h: History)
      requires Shape() && |binnedData| == cfg.binCount && produceRefTimeTriggered == h.windows
      requires Inv(cfg, h, State(), dataBeforeTimeOffsetDropped, dataOverPeriodDropped)
      modifies `history
      ensures Valid() && history == h
    {
      history := h;
    }

    /** The constructor rejects a negative bin count or period and an offset past the
        period; the axis needs at least one bin of width at least one. */
    constructor (period: int, binCount: nat, binOffset: int, aggregatedFrames: nat, lastBin: bool, average: bool)
      requires period >= 0 && binOffset <= period
      requires binCount >= 1 && aggregatedFrames >= 1
      ensures Valid() && history.calls == [] && referenceTime == None
      ensures cfg == Config(binCount, binOffset, (period - binOffset) / binCount, aggregatedFrames, lastBin, average)
    {
      var axis, step := InitAxis((period - binOffset) / binCount, binCount, binOffset);
      xAxisValues := axis;
      cfg := Config(binCount, axis[0], step, aggregatedFrames, lastBin, average);
      sums := seq(binCount, _ => 0);
      counts := seq(binCount, _ => 0);
      binnedData := seq(binCount, _ => 0);
      summedAxis := seq(aggregatedFrames, _ => 0);
      summedData := seq(aggregatedFrames, _ => 0);
      axisIndex, dataIndex, frameCounter := aggregatedFrames, aggregatedFrames, 0;
      referenceTime := None;
      produceCalled, produceRefTimeTriggered, produceFailedNoReferenceTime := 0, 0, 0;
      dataBeforeTimeOffsetDropped, dataOverPeriodDropped, dataOverPeriodLastBin := 0, 0, 0;
      history := History([], [], [], 0, 0, [], []);
      new;
      BinsEmpty(cfg, sums, counts);
    }

    /** Finds the bin by division, which agrees with the place on the axis. An axis of no
        width has step 0, by which no time past its start can be divided. */
    method Locate(time: int) returns (ok: bool, p: Placement)
      requires Shape() && |sums| == cfg.binCount
      modifies this`dataOverPeriodLastBin
      ensures ok <==> cfg.step > 0 || time < cfg.binOffset
      ensures ok ==> p == Place(cfg, time) && (p.InBin? ==> p.bin < cfg.binCount)
      ensures dataOverPeriodLastBin ==
                old(dataOverPeriodLastBin) + if ok && cfg.lastBin && time >= Edge(cfg, cfg.binCount) then 1 else 0
    {
      var minValue := xAxisValues[0];
      var step := (xAxisValues[|xAxisValues| - 1] - minValue) / (|xAxisValues| - 1);
      StepFromEnds(cfg.binCount, cfg.step, minValue, xAxisValues[|xAxisValues| - 1]);
      if time < minValue {
        NoneBefore(cfg, time);
        return true, BeforeAxis;
      }
      if step == 0 {
        return false, BeforeAxis;
      }
      DivisionPlaces(cfg, time);
      var binIndex := (time - minValue) / step;
      if binIndex >= |sums| {
        if !cfg.lastBin {
          return true, PastAxis;
        }
        binIndex := |sums| - 1;
        dataOverPeriodLastBin := dataOverPeriodLastBin + 1;
      }
      return true, InBin(binIndex);
    }

    /** The event goes to exactly one bin or one drop counter. It fails in a division by zero
        exactly if it lies on or past an axis of no width. */
    method AddEvent(time: int, value: int) returns (ok: bool)
      requires Valid() && referenceTime.Some?
      modifies this`history, this`dataBeforeTimeOffsetDropped, this`dataOverPeriodDropped, this`dataOverPeriodLastBin
      modifies this`sums, this`counts, this`summedData
      ensures Valid()
      ensures ok <==> cfg.step > 0 || time < cfg.binOffset
      ensures history.calls == old(history.calls) + if ok then [Call.AddEvent(time, value)] else []
      ensures dataOverPeriodLastBin ==
                old(dataOverPeriodLastBin) + if ok && cfg.lastBin && time >= Edge(cfg, cfg.binCount) then 1 else 0
    {
      var p;
      ok, p := Locate(time);
      if ok {
        Store(p, time, value);
      }
    }

    method Store(p: Placement, ghost time: int, value: int)
      requires Valid() && referenceTime.Some? && p == Place(cfg, time) && (p.InBin? ==> p.bin < cfg.binCount)
      modifies this`history, this`dataBeforeTimeOffsetDropped, this`dataOverPeriodDropped
      modifies this`sums, this`counts, this`summedData
      ensures Valid() && history.calls == old(history.calls) + [Call.AddEvent(time, value)]
    {
      if p.InBin? {
        Accept(p.bin, time, value);
      } else {
        CountDrop(p, time, value);
      }
    }

    method CountDrop(p: Placement, ghost time: int, ghost value: int)
      requires Valid() && !p.InBin? && p == Place(cfg, time)
      modifies this`history, this`dataBeforeTimeOffsetDropped, this`dataOverPeriodDropped
      ensures Valid() && history.calls == old(history.calls) + [Call.AddEvent(time, value)]
    {
      ghost var h := DropKeeps(cfg, history, State(), dataBeforeTimeOffsetDropped, dataOverPeriodDropped,
                               Call.AddEvent(time, value));
      if p.BeforeAxis? {
        dataBeforeTimeOffsetDropped := dataBeforeTimeOffsetDropped + 1;
      } else {
        dataOverPeriodDropped := dataOverPeriodDropped + 1;
      }
      Record(h);
    }

    method Accept(binIndex: nat, ghost time: int, value: int)
      requires Valid() && referenceTime.Some? && binIndex < cfg.binCount && Place(cfg, time) == InBin(binIndex)
      modifies this`sums, this`counts, this`summedData, this`history
      ensures Valid() && history.calls == old(history.calls) + [Call.AddEvent(time, value)]
    {
      ghost var h := AcceptKeeps(cfg, history, State(), dataBeforeTimeOffsetDropped, dataOverPeriodDropped,
                                 Call.AddEvent(time, value), binIndex);
      AddToBin(binIndex, value);
      Record(h);
    }

    /** Adds the value to its bin and to the total of the current frame. */
    method AddToBin(binIndex: nat, value: int)
      requires binIndex < |sums| == |counts| && dataIndex < |summedData|
      modifies this`sums, this`counts, this`summedData
      ensures State() == AfterAccept(old(State()), binIndex, value)
    {
      sums := sums[binIndex := sums[binIndex] + value];
      counts := counts[binIndex := counts[binIndex] + 1];
      summedData := summedData[dataIndex := summedData[dataIndex] + value];
    }

    /** Moves the bins' sums out and empties the bins; tells whether any was hit. */
    method DrainBins() returns (emptyBins: bool)
      requires |sums| == |counts| == |binnedData| == cfg.binCount
      modifies this`sums, this`counts, this`binnedData
      ensures emptyBins <==> forall bin :: 0 <= bin < cfg.binCount ==> old(counts)[bin] == 0
      ensures binnedData == Aggregated(cfg, old(sums), old(counts))
      ensures forall bin :: 0 <= bin < cfg.binCount && (old(counts)[bin] == 0 ==> old(sums)[bin] == 0) ==>
                BinTold(cfg, binnedData[bin], old(sums)[bin], old(counts)[bin])
      ensures |sums| == |counts| == cfg.binCount
      ensures forall bin :: 0 <= bin < cfg.binCount ==> sums[bin] == 0 && counts[bin] == 0
    {
      emptyBins := true;
      for bin := 0 to cfg.binCount
        invariant |sums| == |counts| == |binnedData| == cfg.binCount
        invariant emptyBins <==> forall b :: 0 <= b < bin ==> old(counts)[b] == 0
        invariant forall b :: 0 <= b < bin ==> binnedData[b] == Aggregate(cfg, old(sums)[b], old(counts)[b])
        invariant forall b :: 0 <= b < bin ==> sums[b] == 0 && counts[b] == 0
        invariant forall b :: bin <= b < cfg.binCount ==> sums[b] == old(sums)[b] && counts[b] == old(counts)[b]
      {
        if counts[bin] > 0 {
          emptyBins := false;
        }
        binnedData := binnedData[bin := Aggregate(cfg, sums[bin], counts[bin])];
        sums := sums[bin := 0];
        counts := counts[bin := 0];
      }
      forall bin | 0 <= bin < cfg.binCount && (old(counts)[bin] == 0 ==> old(sums)[bin] == 0)
        ensures BinTold(cfg, binnedData[bin], old(sums)[bin], old(counts)[bin])
      {
        AggregateTells(cfg, old(sums)[bin], old(counts)[bin]);
      }
    }

    /** Sends the vectors as they are, if there is a reference time and an event since the bins
        were last emptied. */
    method Produce() returns (ghost sent: seq<Message>)
      requires Shape() && |sums| == |counts| == |binnedData| == cfg.binCount
      modifies this`produceCalled, this`produceFailedNoReferenceTime, this`sums, this`counts, this`binnedData
      ensures produceCalled == old(produceCalled) + 1
      ensures produceFailedNoReferenceTime == old(produceFailedNoReferenceTime) + if referenceTime.None? then 1 else 0
      ensures |binnedData| == cfg.binCount && Drained(old(State()), sent)
    {
      produceCalled := produceCalled + 1;
      if referenceTime.None? {
        produceFailedNoReferenceTime := produceFailedNoReferenceTime + 1;
        return [];
      }
      sent := [];
      var emptyBins := DrainBins();
      if !emptyBins {
        assert xAxisValues == Axis(cfg);
        sent := [Message(referenceTime.value, xAxisValues, binnedData, summedAxis, summedData)];
      }
    }

    /** A call from outside, at any time. Before the first reference time it only counts the
        failure. Later it sends the open window's events that were not sent yet. */
    method ProduceEarly()
      requires Valid()
      modifies this`produceCalled, this`produceFailedNoReferenceTime, this`sums, this`counts, this`binnedData
      modifies this`history
      ensures Valid() && produceCalled == old(produceCalled) + 1
      ensures produceFailedNoReferenceTime == old(produceFailedNoReferenceTime) + if referenceTime.None? then 1 else 0
      ensures ProducedEarly(cfg, old(history), history)
    {
      ghost var v := State();
      ghost var sent := Produce();
      NoteProduce(v, sent);
    }

    ghost method NoteProduce(v: View, sent: seq<Message>)
      requires Shape() && |binnedData| == cfg.binCount && produceRefTimeTriggered == history.windows
      requires Inv(cfg, history, v, dataBeforeTimeOffsetDropped, dataOverPeriodDropped)
      requires |v.sums| == |v.counts| == cfg.binCount
      requires State() == v.(sums := sums, counts := counts) && Drained(v, sent)
      modifies this`history
      ensures Valid() && ProducedEarly(cfg, old(history), history)
    {
      ghost var h := ProduceKeeps(cfg, history, v, dataBeforeTimeOffsetDropped, dataOverPeriodDropped, sent,
                                  sums, counts);
      Record(h);
    }

    /** What produce leaves in the bins, and what it sends. */
    ghost predicate Drained(v: View, sent: seq<Message>)
      requires |v.sums| == |v.counts|
      reads `sums, `counts
    {
      && |sums| == |counts| == cfg.binCount
      && if v.referenceTime.None? then sent == [] && sums == v.sums && counts == v.counts
         else sent == Sending(cfg, v) && forall bin :: 0 <= bin < cfg.binCount ==> sums[bin] == 0 && counts[bin] == 0
    }

    /** A new reference time starts a new frame; the one after a full window first
        publishes the window. */
    method CheckAndSetReferenceTime(time: int)
      requires Valid()
      modifies this`produceCalled, this`produceFailedNoReferenceTime, this`sums, this`counts, this`binnedData
      modifies this`frameCounter, this`produceRefTimeTriggered, this`axisIndex, this`dataIndex, this`referenceTime
      modifies this`summedAxis, this`summedData, this`history
      ensures Valid() && history.calls == old(history.calls) + [SetReference(time)]
      ensures referenceTime == Some(time)
      ensures produceCalled - produceRefTimeTriggered == old(produceCalled) - old(produceRefTimeTriggered)
      ensures produceFailedNoReferenceTime == old(produceFailedNoReferenceTime)
    {
      if referenceTime.None? {
        FirstFrame(time);
      } else if time == referenceTime.value {
        SameFrame(time);
      } else if frameCounter + 1 >= cfg.aggregatedFrames {
        FrameInNewWindow(time);
      } else {
        FrameInOpenWindow(time);
      }
    }

    ghost method SameFrame(time: int)
      requires Valid() && referenceTime == Some(time)
      modifies this`history
      ensures Valid() && history.calls == old(history.calls) + [SetReference(time)]
    {
      SameReferenceKeeps(cfg, history, State(), dataBeforeTimeOffsetDropped, dataOverPeriodDropped, time);
      Record(history.(calls := history.calls + [SetReference(time)]));
    }

    /** The first reference time sets up the positions in the summation vectors. */
    method FirstFrame(time: int)
      requires Valid() && referenceTime.None?
      modifies this`history, this`referenceTime, this`axisIndex, this`dataIndex
      ensures Valid() && history.calls == old(history.calls) + [SetReference(time)]
      ensures referenceTime == Some(time)
    {
      ghost var h := FirstReferenceKeeps(cfg, history, State(), dataBeforeTimeOffsetDropped, dataOverPeriodDropped,
                                         time);
      referenceTime := Some(time);
      axisIndex, dataIndex := 0, 0;
      Record(h);
    }

    /** The frame after a full window: the window is published and the next one opens. */
    method FrameInNewWindow(time: int)
      requires Valid() && referenceTime.Some? && referenceTime.value != time && frameCounter + 1 >= cfg.aggregatedFrames
      modifies this`produceCalled, this`produceFailedNoReferenceTime, this`sums, this`counts, this`binnedData
      modifies this`frameCounter, this`produceRefTimeTriggered, this`axisIndex, this`dataIndex, this`referenceTime
      modifies this`summedAxis, this`summedData, this`history
      ensures Valid() && history.calls == old(history.calls) + [SetReference(time)]
      ensures referenceTime == Some(time)
      ensures produceCalled - produceRefTimeTriggered == old(produceCalled) - old(produceRefTimeTriggered)
      ensures produceFailedNoReferenceTime == old(produceFailedNoReferenceTime)
    {
      ghost var v := State();
      SendingIsWindow(cfg, history.open, history.first, v);
      ghost var sent := NextWindow(time);
      ghost var h := NewWindowReferenceKeeps(cfg, history, v, dataBeforeTimeOffsetDropped, dataOverPeriodDropped,
                                             time, sent, sums, counts);
      Record(h);
    }

    method FrameInOpenWindow(time: int)
      requires Valid() && referenceTime.Some? && referenceTime.value != time && frameCounter + 1 < cfg.aggregatedFrames
      modifies this`frameCounter, this`axisIndex, this`dataIndex, this`referenceTime
      modifies this`summedAxis, this`summedData, this`history
      ensures Valid() && history.calls == old(history.calls) + [SetReference(time)]
      ensures referenceTime == Some(time)
    {
      ghost var h := NextReferenceKeeps(cfg, history, State(), dataBeforeTimeOffsetDropped, dataOverPeriodDropped,
                                        time);
      NextElement(time);
      Record(h);
    }

    /** Publishes the full window and starts again with the first element. */
    method NextWindow(time: int) returns (ghost sent: seq<Message>)
      requires Shape() && |sums| == |counts| == |binnedData| == cfg.binCount
      requires referenceTime.Some? && axisIndex < |summedAxis| == |summedData|
      modifies this`produceCalled, this`produceFailedNoReferenceTime, this`sums, this`counts, this`binnedData
      modifies this`frameCounter, this`produceRefTimeTriggered, this`axisIndex, this`dataIndex, this`referenceTime
      modifies this`summedAxis, this`summedData
      ensures sent == Sending(cfg, old(State()))
      ensures |sums| == |counts| == |binnedData| == cfg.binCount
      ensures forall bin :: 0 <= bin < cfg.binCount ==> sums[bin] == 0 && counts[bin] == 0
      ensures State() == AfterFrame(old(State()), time, 0).(sums := sums, counts := counts)
      ensures produceCalled == old(produceCalled) + 1 && produceRefTimeTriggered == old(produceRefTimeTriggered) + 1
      ensures produceFailedNoReferenceTime == old(produceFailedNoReferenceTime)
    {
      var timeOffset := summedAxis[axisIndex];
      frameCounter := frameCounter + 1;
      sent := Produce();
      produceRefTimeTriggered := produceRefTimeTriggered + 1;
      FirstElement();
      StartElement(time, timeOffset);
    }

    method FirstElement()
      modifies this`frameCounter, this`axisIndex, this`dataIndex
      ensures frameCounter == axisIndex == dataIndex == 0
    {
      frameCounter := 0;
      axisIndex, dataIndex := 0, 0;
    }

    method NextElement(time: int)
      requires referenceTime.Some? && axisIndex == dataIndex == frameCounter
               && frameCounter + 1 < |summedAxis| == |summedData|
      modifies this`frameCounter, this`axisIndex, this`dataIndex, this`referenceTime, this`summedAxis, this`summedData
      ensures State() == AfterFrame(old(State()), time, old(frameCounter) + 1)
    {
      var timeOffset := summedAxis[axisIndex];
      frameCounter := frameCounter + 1;
      axisIndex, dataIndex := axisIndex + 1, dataIndex + 1;
      StartElement(time, timeOffset);
    }

    /** The working element takes over: empty total, offset from the first reference time. */
    method StartElement(time: int, timeOffset: int)
      requires referenceTime.Some? && axisIndex < |summedAxis| && dataIndex < |summedData|
      modifies this`referenceTime, this`summedAxis, this`summedData
      ensures State() == old(State()).(referenceTime := Some(time),
                           axis := old(summedAxis)[axisIndex := timeOffset + (time - old(referenceTime).value)],
                           totals := old(summedData)[dataIndex := 0])
    {
      summedAxis := summedAxis[axisIndex := 0];
      summedData := summedData[dataIndex := 0];
      summedAxis := summedAxis[axisIndex := timeOffset + (time - referenceTime.value)];
      referenceTime := Some(time);
    }
  }

  /** What comes of building a serializer. */
  datatype Built = Ready(serializer: Serializer) | NegativeBinCount | NegativePeriod | OffsetPastPeriod | DividesByZero

  method Build(period: int, binCount: int, binOffset: int, aggregatedFrames: nat, lastBin: bool, average: bool)
    returns (r: Built)
    requires aggregatedFrames >= 1
    ensures r.NegativeBinCount? <==> binCount < 0
    ensures r.NegativePeriod? <==> binCount >= 0 && period < 0
    ensures r.OffsetPastPeriod? <==> binCount >= 0 && 0 <= period < binOffset
    ensures r.DividesByZero? <==> binCount == 0 && period >= 0 && binOffset <= period
    ensures r.Ready? ==>
              && r.serializer.Valid() && fresh(r.serializer) && r.serializer.history.calls == []
              && r.serializer.referenceTime == None
              && r.serializer.cfg == Config(binCount, binOffset, (period - binOffset) / binCount, aggregatedFrames,
                                            lastBin, average)
  {
    if binCount < 0 {
      return NegativeBinCount;
    }
    if period < 0 {
      return NegativePeriod;
    }
    if binOffset > period {
      return OffsetPastPeriod;
    }
    if binCount == 0 {
      return DividesByZero;
    }
    var serializer := new Serializer(period, binCount, binOffset, aggregatedFrames, lastBin, average);
    r := Ready(serializer);
  }

  lemma FramesOfOneMore(cfg: Config, calls: seq<Call>, call: Call)
    ensures Frames(cfg, calls + [call]) == NextFrames(cfg, Frames(cfg, calls), call)
  {
    assert (calls + [call])[..|calls|] == calls;
  }

  /** One bin, windows of one frame: an event, a direct call of produce, another event, and the
      next reference time. */
  lemma FramesWithEarlyCall(cfg: Config, time: int, early: int, late: int, next: int)
    requires cfg.Valid() && cfg.aggregatedFrames == 1 && Place(cfg, time) == InBin(0) && next != 0
    ensures Frames(cfg, [SetReference(0), AddEvent(time, early), Produce, AddEvent(time, late), SetReference(next)])
            == Windows([Frame(0, [Hit(0, early, true), Hit(0, late, false)])], [Frame(next, [])])
  {
    var calls := [SetReference(0), AddEvent(time, early), Produce, AddEvent(time, late), SetReference(next)];
    var first, sent, last := Hit(0, early, false), Hit(0, early, true), Hit(0, late, false);
    assert calls[..1] == [] + [calls[0]];
    FramesStep(cfg, [], calls[0], Windows([], []), Windows([], [Frame(0, [])]));
    WithHitInOne(0, [], first);
    assert calls[..2] == calls[..1] + [calls[1]];
    FramesStep(cfg, calls[..1], calls[1], Windows([], [Frame(0, [])]), Windows([], [Frame(0, [] + [first])]));
    MarkedOne(0, first);
    assert [] + [first] == [first] && [sent] + [last] == [sent, last];
    assert calls[..3] == calls[..2] + [calls[2]];
    FramesStep(cfg, calls[..2], calls[2], Windows([], [Frame(0, [first])]), Windows([], [Frame(0, [sent])]));
    WithHitInOne(0, [sent], last);
    assert calls[..4] == calls[..3] + [calls[3]];
    FramesStep(cfg, calls[..3], calls[3], Windows([], [Frame(0, [sent])]), Windows([], [Frame(0, [sent] + [last])]));
    assert calls == calls[..4] + [calls[4]];
    FramesOfOneMore(cfg, calls[..4], calls[4]);
  }

  lemma FramesStep(cfg: Config, calls: seq<Call>, call: Call, w: Windows, w': Windows)
    requires Frames(cfg, calls) == w && NextFrames(cfg, w, call) == w'
    ensures Frames(cfg, calls + [call]) == w'
  {
    FramesOfOneMore(cfg, calls, call);
  }

  lemma MarkedOne(reference: int, hit: Hit)
    ensures MarkedFrames([Frame(reference, [hit])]) == [Frame(reference, [hit.(sent := true)])]
  {
    assert Marked([hit]) == [hit.(sent := true)];
  }

  lemma WithHitInOne(reference: int, accepted: seq<Hit>, hit: Hit)
    ensures WithHit([Frame(reference, accepted)], hit) == [Frame(reference, accepted + [hit])]
  {
  }

  lemma EarlyAndLate(early: int, late: int)
    ensures var frame := Frame(0, [Hit(0, early, true), Hit(0, late, false)]);
            && AllHits([frame]) == frame.accepted && !AllSent(frame.accepted)
            && Signal(frame.accepted, 1) == [late] && Totals([frame]) == [early + late]
  {
    var a, b := Hit(0, early, true), Hit(0, late, false);
    assert [a] + [b] == [a, b];
    FramesGrow([], Frame(0, [a, b]));
    HitsGrow([a], b);
    MarkedHits([a], 0);
    assert Marked([a]) == [a] && Total([] + [a]) == early;
    assert ![a, b][1].sent;
  }

  method AddThenProduce(s: Serializer, time: int, value: int)
    requires s.Valid() && s.referenceTime.Some? && s.cfg.step > 0
    modifies s
    ensures s.Valid() && s.referenceTime == old(s.referenceTime)
    ensures s.history.calls == old(s.history.calls) + [AddEvent(time, value)] + [Produce]
  {
    var _ := s.AddEvent(time, value);
    s.ProduceEarly();
  }

  method AddThenSet(s: Serializer, time: int, value: int, next: int)
    requires s.Valid() && s.referenceTime.Some? && s.cfg.step > 0
    modifies s
    ensures s.Valid() && s.history.calls == old(s.history.calls) + [AddEvent(time, value)] + [SetReference(next)]
  {
    var _ := s.AddEvent(time, value);
    s.CheckAndSetReferenceTime(next);
  }

  /** Produced between two events of one frame, 7 and then 3, the window's own message has 3 in
      its bin and 10 as its frame total. */
  method EarlyLoss() returns (s: Serializer)
    ensures s.Valid() && |s.history.published| == 1
    ensures s.history.published[0].signal == [3] && s.history.published[0].frameTotal == [10]
  {
    s := new Serializer(10, 1, 0, 1, false, false);
    s.CheckAndSetReferenceTime(0);
    AddThenProduce(s, 5, 7);
    AddThenSet(s, 5, 3, 100);
    ShortMessage(s.cfg, s.history, s.State(), s.dataBeforeTimeOffsetDropped, s.dataOverPeriodDropped, 5, 7, 3, 100);
  }

  lemma ShortMessage(cfg: Config, h: History, v: View, before: nat, over: nat, time: int, early: int, late: int,
                     next: int)
    requires Inv(cfg, h, v, before, over) && cfg.aggregatedFrames == cfg.binCount == 1 && !cfg.average && next != 0
    requires cfg.step >= 1 && cfg.binOffset <= time < cfg.binOffset + cfg.step
    requires h.calls == [] + [SetReference(0)] + [AddEvent(time, early)] + [Produce] + [AddEvent(time, late)]
                        + [SetReference(next)]
    ensures |h.published| == 1 && h.published[0].signal == [late] && h.published[0].frameTotal == [early + late]
  {
    DivisionPlaces(cfg, time);
    FramesWithEarlyCall(cfg, time, early, late, next);
    assert h.calls == [SetReference(0), AddEvent(time, early), Produce, AddEvent(time, late), SetReference(next)];
    OneWindow(cfg, h, v, before, over, early, late);
  }

  lemma OneWindow(cfg: Config, h: History, v: View, before: nat, over: nat, early: int, late: int)
    requires Inv(cfg, h, v, before, over) && cfg.aggregatedFrames == cfg.binCount == 1 && !cfg.average
    requires Frames(cfg, h.calls).done == [Frame(0, [Hit(0, early, true), Hit(0, late, false)])]
    ensures |h.published| == 1 && h.published[0].signal == [late] && h.published[0].frameTotal == [early + late]
  {
    Published(cfg, h, v, before, over);
    TimesIsProduct(h.windows, 1);
    var done := Frames(cfg, h.calls).done;
    assert done[0..1] == done && Expected(cfg, done, 0) == [];
    EarlyAndLate(early, late);
  }
}
