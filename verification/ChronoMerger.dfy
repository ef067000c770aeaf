/** A queue that merges the events of several pipelines and releases an event
    once every pipeline has moved past it by the maximum latency. */
module ChronoMerger {
  import opened Basics

  const MAX_UINT64: uint64 := 0xFFFF_FFFF_FFFF_FFFF

  datatype NeutronEvent = NeutronEvent(time: uint64, pixelId: nat)

  function Max(a: uint64, b: uint64): uint64 {
    if a < b then b else a
  }

  // ---- the horizon ----

  /** The smallest of the latest times; the largest number if there is none. */
  function Lagging(latest: seq<uint64>): (m: uint64)
    ensures forall l | l in latest :: m <= l
    ensures m == MAX_UINT64 || m in latest
  {
    if latest == [] then MAX_UINT64
    else
      var rest, last := Lagging(latest[..|latest| - 1]), latest[|latest| - 1];
      assert forall l | l in latest :: l in latest[..|latest| - 1] || l == last;
      if last < rest then last else rest
  }

  /** No pipelines, or all of them at the very end of time, count as time 0. */
  function HorizonOf(latest: seq<uint64>): uint64 {
    if Lagging(latest) == MAX_UINT64 then 0 else Lagging(latest)
  }

  predicate ReadyIn(queue: seq<NeutronEvent>, latest: seq<uint64>, maximumLatency: uint64) {
    && queue != []
    && HorizonOf(latest) >= maximumLatency
    && queue[0].time < HorizonOf(latest) - maximumLatency
  }

  /** Ready exactly when the front event lies more than the latency before every
      pipeline's latest time, except that nothing is ready once all pipelines
      have reached the largest time stamp. */
  lemma ReadyIff(queue: seq<NeutronEvent>, latest: seq<uint64>, maximumLatency: uint64)
    requires queue != []
    ensures ReadyIn(queue, latest, maximumLatency) <==>
              && (forall l | l in latest :: queue[0].time + maximumLatency < l)
              && (exists l | l in latest :: l < MAX_UINT64)
  {
    assert Lagging(latest) < MAX_UINT64 ==> Lagging(latest) in latest;
    assert forall l | l in latest :: Lagging(latest) <= l;
  }

  // ---- sorting ----

  ghost predicate Sorted(queue: seq<NeutronEvent>) {
    forall i, j :: 0 <= i < j < |queue| ==> queue[i].time <= queue[j].time
  }

  /** Puts e behind every event that is not later. */
  function Place(e: NeutronEvent, sorted: seq<NeutronEvent>): seq<NeutronEvent> {
    if sorted == [] || sorted[|sorted| - 1].time <= e.time then sorted + [e]
    else Place(e, sorted[..|sorted| - 1]) + [sorted[|sorted| - 1]]
  }

  /** What std::list::sort with the time comparison yields: SortIsStable fixes it. */
  function StableSort(queue: seq<NeutronEvent>): seq<NeutronEvent> {
    if queue == [] then [] else Place(queue[|queue| - 1], StableSort(queue[..|queue| - 1]))
  }

  /** The events of one time stamp, in queue order. */
  ghost function At(queue: seq<NeutronEvent>, time: uint64): seq<NeutronEvent> {
    if queue == [] then []
    else
      At(queue[..|queue| - 1], time) + if queue[|queue| - 1].time == time then [queue[|queue| - 1]] else []
  }

  lemma SortedAppend(queue: seq<NeutronEvent>, e: NeutronEvent)
    ensures Sorted(queue + [e]) <==> Sorted(queue) && forall x | x in queue :: x.time <= e.time
  {
    var q := queue + [e];
    if Sorted(q) {
      forall i, j | 0 <= i < j < |queue|
        ensures queue[i].time <= queue[j].time
      {
        assert q[i].time <= q[j].time;
      }
      forall x | x in queue
        ensures x.time <= e.time
      {
        var i :| 0 <= i < |queue| && queue[i] == x;
        assert q[i].time <= q[|queue|].time;
      }
    }
  }

  lemma {:induction false} PlaceKeepsEvents(e: NeutronEvent, sorted: seq<NeutronEvent>)
    ensures multiset(Place(e, sorted)) == multiset(sorted) + multiset{e}
  {
    if !(sorted == [] || sorted[|sorted| - 1].time <= e.time) {
      PlaceKeepsEvents(e, sorted[..|sorted| - 1]);
      assert sorted == sorted[..|sorted| - 1] + [sorted[|sorted| - 1]];
    }
  }

  lemma {:induction false} PlaceKeepsOrder(e: NeutronEvent, sorted: seq<NeutronEvent>, time: uint64)
    ensures At(Place(e, sorted), time) == At(sorted, time) + if e.time == time then [e] else []
  {
    var p := Place(e, sorted);
    if sorted == [] || sorted[|sorted| - 1].time <= e.time {
      assert p[..|p| - 1] == sorted;
    } else {
      PlaceKeepsOrder(e, sorted[..|sorted| - 1], time);
      assert p[..|p| - 1] == Place(e, sorted[..|sorted| - 1]);
    }
  }

  lemma {:induction false} PlaceSorts(e: NeutronEvent, sorted: seq<NeutronEvent>)
    requires Sorted(sorted)
    ensures Sorted(Place(e, sorted))
  {
    if sorted != [] {
      var init, last := sorted[..|sorted| - 1], sorted[|sorted| - 1];
      assert sorted == init + [last];
      SortedAppend(init, last);
      if last.time <= e.time {
        SortedAppend(sorted, e);
      } else {
        PlaceSorts(e, init);
        PlaceKeepsEvents(e, init);
        forall x | x in Place(e, init)
          ensures x.time <= last.time
        {
          assert x in multiset(Place(e, init));
        }
        SortedAppend(Place(e, init), last);
      }
    }
  }

  lemma {:induction false} SortIsStable(queue: seq<NeutronEvent>, time: uint64)
    ensures Sorted(StableSort(queue))
    ensures multiset(StableSort(queue)) == multiset(queue)
    ensures At(StableSort(queue), time) == At(queue, time)
  {
    if queue != [] {
      var init, last := queue[..|queue| - 1], queue[|queue| - 1];
      assert multiset(queue) == multiset(init) + multiset{last} by {
        assert queue == init + [last];
      }
      var sorted := StableSort(init);
      assert Sorted(sorted) && multiset(sorted) == multiset(init) && At(sorted, time) == At(init, time) by {
        SortIsStable(init, time);
      }
      PlaceSorts(last, sorted);
      PlaceKeepsEvents(last, sorted);
      PlaceKeepsOrder(last, sorted, time);
    }
  }

  // ---- whole runs ----

  datatype Op =
    | Insert(module_: nat, event: NeutronEvent)
    | InsertBatch(module_: nat, events: seq<NeutronEvent>)
    | SyncUp(module1: nat, module2: nat)
    | Sort
    | Pop

  /** The merger, and the events that went in and came out. */
  datatype State = State(queue: seq<NeutronEvent>, latest: seq<uint64>,
                         inserted: seq<NeutronEvent>, popped: seq<NeutronEvent>)

  function LatestAfter(latest: uint64, events: seq<NeutronEvent>): (l: uint64)
    ensures l >= latest
  {
    if events == [] then latest
    else Max(events[|events| - 1].time, LatestAfter(latest, events[..|events| - 1]))
  }

  lemma {:induction false} LatestAfterIsLargest(latest: uint64, events: seq<NeutronEvent>)
    ensures forall e | e in events :: e.time <= LatestAfter(latest, events)
    ensures LatestAfter(latest, events) == latest || exists e | e in events :: e.time == LatestAfter(latest, events)
  {
    if events != [] {
      LatestAfterIsLargest(latest, events[..|events| - 1]);
      assert forall e | e in events :: e in events[..|events| - 1] || e == events[|events| - 1];
    }
  }

  /** The events join the queue of an existing module; any other module is refused. */
  function Inserted(s: State, m: nat, events: seq<NeutronEvent>): State {
    if m < |s.latest| then
      State(s.queue + events, s.latest[m := LatestAfter(s.latest[m], events)], s.inserted + events, s.popped)
    else s
  }

  function Synced(latest: seq<uint64>, m1: nat, m2: nat): seq<uint64>
    requires m1 < |latest| && m2 < |latest|
  {
    var l := Max(latest[m1], latest[m2]);
    latest[m1 := l][m2 := l]
  }

  ghost predicate OnTime(s: State, maximumLatency: uint64, m: nat, events: seq<NeutronEvent>) {
    m < |s.latest| ==> forall e | e in events :: e.time + maximumLatency >= s.latest[m]
  }

  /** How the merger is meant to be used: events arrive within the latency of
      their module, and events are taken out only when sorted and ready. */
  ghost predicate Proper(s: State, maximumLatency: uint64, op: Op) {
    match op
    case Insert(m, event) => OnTime(s, maximumLatency, m, [event])
    case InsertBatch(m, events) => OnTime(s, maximumLatency, m, events)
    case SyncUp(m1, m2) => m1 < |s.latest| && m2 < |s.latest|
    case Sort => true
    case Pop => Sorted(s.queue) && ReadyIn(s.queue, s.latest, maximumLatency)
  }

  /** What the object demands of its callers. */
  ghost predicate Possible(s: State, op: Op) {
    match op
    case SyncUp(m1, m2) => m1 < |s.latest| && m2 < |s.latest|
    case Pop => s.queue != []
    case _ => true
  }

  ghost function Step(s: State, op: Op): State
    requires Possible(s, op)
  {
    match op
    case Insert(m, event) => Inserted(s, m, [event])
    case InsertBatch(m, events) => Inserted(s, m, events)
    case SyncUp(m1, m2) => s.(latest := Synced(s.latest, m1, m2))
    case Sort => s.(queue := StableSort(s.queue))
    case Pop => s.(queue := s.queue[1..], popped := s.popped + [s.queue[0]])
  }

  ghost predicate Reaches(s: State, maximumLatency: uint64, ops: seq<Op>, s': State)
    decreases |ops|
  {
    if ops == [] then s == s'
    else Proper(s, maximumLatency, ops[0]) && Reaches(Step(s, ops[0]), maximumLatency, ops[1..], s')
  }

  /** Any run, proper or not. */
  ghost predicate Runs(s: State, ops: seq<Op>, s': State)
    decreases |ops|
  {
    if ops == [] then s == s' else Possible(s, ops[0]) && Runs(Step(s, ops[0]), ops[1..], s')
  }

  ghost predicate Initial(s: State) {
    s.queue == s.inserted == s.popped == [] && forall l | l in s.latest :: l == 0
  }

  ghost predicate Inv(s: State, maximumLatency: uint64) {
    && multiset(s.inserted) == multiset(s.popped) + multiset(s.queue)
    && Sorted(s.popped)
    && (forall p, l | p in s.popped && l in s.latest :: p.time + maximumLatency < l)
    && (s.popped != [] ==> s.latest != [] && forall e | e in s.queue :: s.popped[|s.popped| - 1].time <= e.time)
  }

  /** Inserting on time puts nothing before an event already released. */
  lemma InsertKeepsInv(s: State, maximumLatency: uint64, m: nat, events: seq<NeutronEvent>)
    requires Inv(s, maximumLatency) && OnTime(s, maximumLatency, m, events)
    ensures Inv(Inserted(s, m, events), maximumLatency)
    ensures m < |s.latest| ==> forall p, e | p in s.popped && e in events :: p.time < e.time
  {
    if m < |s.latest| {
      assert s.latest[m] in s.latest;
      var s' := Inserted(s, m, events);
      forall p, l | p in s'.popped && l in s'.latest
        ensures p.time + maximumLatency < l
      {
        assert l in s.latest || l == LatestAfter(s.latest[m], events);
      }
    }
  }

  lemma FrontMoves(inserted: seq<NeutronEvent>, popped: seq<NeutronEvent>, queue: seq<NeutronEvent>)
    requires multiset(inserted) == multiset(popped) + multiset(queue) && queue != []
    ensures multiset(inserted) == multiset(popped + [queue[0]]) + multiset(queue[1..])
  {
    assert queue == [queue[0]] + queue[1..];
  }

  lemma LastIsLatest(popped: seq<NeutronEvent>, e: NeutronEvent)
    requires Sorted(popped) && (popped != [] ==> popped[|popped| - 1].time <= e.time)
    ensures forall p | p in popped :: p.time <= e.time
  {
    forall p | p in popped
      ensures p.time <= e.time
    {
      var i :| 0 <= i < |popped| && popped[i] == p;
      assert i < |popped| - 1 ==> popped[i].time <= popped[|popped| - 1].time;
    }
  }

  lemma PopKeepsInv(s: State, maximumLatency: uint64)
    requires Inv(s, maximumLatency) && Proper(s, maximumLatency, Pop)
    ensures Inv(Step(s, Pop), maximumLatency)
  {
    ReadyIff(s.queue, s.latest, maximumLatency);
    FrontMoves(s.inserted, s.popped, s.queue);
    LastIsLatest(s.popped, s.queue[0]);
    SortedAppend(s.popped, s.queue[0]);
  }

  lemma StepKeepsInv(s: State, maximumLatency: uint64, op: Op)
    requires Inv(s, maximumLatency) && Proper(s, maximumLatency, op)
    ensures Inv(Step(s, op), maximumLatency)
  {
    match op
    case Insert(m, event) => InsertKeepsInv(s, maximumLatency, m, [event]);
    case InsertBatch(m, events) => InsertKeepsInv(s, maximumLatency, m, events);
    case SyncUp(m1, m2) =>
      forall l | l in Synced(s.latest, m1, m2)
        ensures l in s.latest
      {
        assert s.latest[m1] in s.latest && s.latest[m2] in s.latest;
      }
    case Sort =>
      SortIsStable(s.queue, 0);
      forall e | e in StableSort(s.queue)
        ensures e in s.queue
      {
        assert e in multiset(StableSort(s.queue));
      }
    case Pop => PopKeepsInv(s, maximumLatency);
  }

  lemma {:induction false} RunKeepsInv(s: State, maximumLatency: uint64, ops: seq<Op>, s': State)
    requires Inv(s, maximumLatency) && Reaches(s, maximumLatency, ops, s')
    ensures Inv(s', maximumLatency)
    decreases |ops|
  {
    if ops != [] {
      StepKeepsInv(s, maximumLatency, ops[0]);
      RunKeepsInv(Step(s, ops[0]), maximumLatency, ops[1..], s');
    }
  }

  /** Over any proper run events come out in chronological order, none is lost
      or invented, and whatever is inserted later is strictly later than
      everything already taken out. */
  lemma OutputIsChronological(s0: State, maximumLatency: uint64, ops: seq<Op>, s: State)
    requires Initial(s0) && Reaches(s0, maximumLatency, ops, s)
    ensures Sorted(s.popped)
    ensures multiset(s.inserted) == multiset(s.popped) + multiset(s.queue)
    ensures forall m: nat, events: seq<NeutronEvent> | m < |s.latest| && OnTime(s, maximumLatency, m, events) ::
              forall p, e | p in s.popped && e in events :: p.time < e.time
  {
    RunKeepsInv(s0, maximumLatency, ops, s);
    forall m: nat, events: seq<NeutronEvent> | m < |s.latest| && OnTime(s, maximumLatency, m, events)
      ensures forall p, e | p in s.popped && e in events :: p.time < e.time
    {
      InsertKeepsInv(s, maximumLatency, m, events);
    }
  }

  // ---- how far the modules have come ----

  function EventsFor(op: Op, m: nat): seq<NeutronEvent> {
    match op
    case Insert(k, event) => if k == m then [event] else []
    case InsertBatch(k, events) => if k == m then events else []
    case _ => []
  }

  /** All events that a run inserts into a module. */
  function InsertedInto(ops: seq<Op>, m: nat): seq<NeutronEvent> {
    if ops == [] then [] else EventsFor(ops[0], m) + InsertedInto(ops[1..], m)
  }

  lemma StepMovesLatest(s: State, op: Op, m: nat)
    requires Possible(s, op) && m < |s.latest|
    ensures |Step(s, op).latest| == |s.latest| && Step(s, op).latest[m] >= s.latest[m]
    ensures forall e | e in EventsFor(op, m) :: e.time <= Step(s, op).latest[m]
    ensures !op.SyncUp? ==>
              Step(s, op).latest[m] == s.latest[m]
              || exists e | e in EventsFor(op, m) :: e.time == Step(s, op).latest[m]
  {
    LatestAfterIsLargest(s.latest[m], EventsFor(op, m));
  }

  /** Over any run a module's latest time never falls behind an event inserted into it, and
      without synchronisation it is the largest of their times, or the one it started from. */
  lemma {:induction false} LatestIsLargest(s: State, ops: seq<Op>, s': State, m: nat)
    requires Runs(s, ops, s') && m < |s.latest|
    ensures |s'.latest| == |s.latest| && s'.latest[m] >= s.latest[m]
    ensures forall e | e in InsertedInto(ops, m) :: e.time <= s'.latest[m]
    ensures (forall i :: 0 <= i < |ops| ==> !ops[i].SyncUp?) ==>
              s'.latest[m] == s.latest[m] || exists e | e in InsertedInto(ops, m) :: e.time == s'.latest[m]
    decreases |ops|
  {
    if ops != [] {
      StepMovesLatest(s, ops[0], m);
      LatestIsLargest(Step(s, ops[0]), ops[1..], s', m);
    }
  }

  /** No latest time comes from nowhere. */
  lemma {:induction false} LatestBelow(s: State, ops: seq<Op>, s': State, bound: uint64)
    requires Runs(s, ops, s') && forall l | l in s.latest :: l < bound
    requires forall m: nat | m < |s.latest| :: forall e | e in InsertedInto(ops, m) :: e.time < bound
    ensures forall l | l in s'.latest :: l < bound
    decreases |ops|
  {
    if ops != [] {
      var next := Step(s, ops[0]);
      forall k: nat | k < |next.latest|
        ensures next.latest[k] < bound
      {
        StepMovesLatest(s, ops[0], k);
        assert s.latest[k] in s.latest;
        if ops[0].SyncUp? {
          assert s.latest[ops[0].module1] in s.latest && s.latest[ops[0].module2] in s.latest;
        } else {
          assert forall e | e in EventsFor(ops[0], k) :: e in InsertedInto(ops, k);
        }
      }
      forall m: nat | m < |next.latest|
        ensures forall e | e in InsertedInto(ops[1..], m) :: e.time < bound
      {
        assert forall e | e in InsertedInto(ops[1..], m) :: e in InsertedInto(ops, m);
      }
      LatestBelow(next, ops[1..], s', bound);
    }
  }

  /** Progress: once every module has received an event more than the latency after the front
      of the queue, and none at the largest time stamp, the front is ready. */
  lemma FrontBecomesReady(s: State, maximumLatency: uint64, ops: seq<Op>, s': State)
    requires Initial(s) && Runs(s, ops, s') && s'.queue != [] && s.latest != []
    requires forall m: nat | m < |s.latest| ::
               && (exists e | e in InsertedInto(ops, m) :: s'.queue[0].time + maximumLatency < e.time)
               && forall e | e in InsertedInto(ops, m) :: e.time < MAX_UINT64
    ensures ReadyIn(s'.queue, s'.latest, maximumLatency)
  {
    LatestBelow(s, ops, s', MAX_UINT64);
    LatestIsLargest(s, ops, s', 0);
    forall m: nat | m < |s'.latest|
      ensures s'.queue[0].time + maximumLatency < s'.latest[m]
    {
      LatestIsLargest(s, ops, s', m);
    }
    assert s'.latest[0] in s'.latest;
    ReadyIff(s'.queue, s'.latest, maximumLatency);
  }

  // ---- the object ----

  class Merger {
    var queue: seq<NeutronEvent>
    var latest: seq<uint64>
    const maximumLatency: uint64

    // the events that went in and came out
    ghost var inserted: seq<NeutronEvent>
    ghost var popped: seq<NeutronEvent>

    ghost function View(): State
      reads this
    {
      State(queue, latest, inserted, popped)
    }

    constructor (maximumLatency: uint64, modules: nat)
      ensures Initial(View()) && |latest| == modules && this.maximumLatency == maximumLatency
    {
      this.maximumLatency := maximumLatency;
      queue := [];
      latest := seq(modules, _ => 0);
      inserted, popped := [], [];
    }

    /** Refuses an unknown module, as the bounds-checked access does. */
    method Insert(m: nat, event: NeutronEvent) returns (ok: bool)
      modifies this
      ensures ok <==> m < |old(latest)|
      ensures View() == Inserted(old(View()), m, [event])
      ensures ok ==> queue == old(queue) + [event] && inserted == old(inserted) + [event]
      ensures !ok ==> queue == old(queue) && latest == old(latest) && inserted == old(inserted)
      ensures popped == old(popped) && |latest| == |old(latest)|
      ensures forall k: nat | k < |latest| && k != m :: latest[k] == old(latest)[k]
      ensures ok ==>
                && latest[m] >= old(latest)[m] && latest[m] >= event.time
                && (latest[m] == old(latest)[m] || latest[m] == event.time)
    {
      if m >= |latest| {
        return false;
      }
      assert LatestAfter(latest[m], [event]) == Max(event.time, latest[m]);
      latest := latest[m := Max(event.time, latest[m])];
      queue := queue + [event];
      inserted := inserted + [event];
      return true;
    }

    /** Moves all events over and empties the caller's list; an unknown module
        is noticed at the first event and leaves everything as it was. */
    method InsertBatch(m: nat, events: seq<NeutronEvent>) returns (ok: bool, left: seq<NeutronEvent>)
      modifies this
      ensures ok <==> m < |old(latest)| || events == []
      ensures left == if ok then [] else events
      ensures View() == Inserted(old(View()), m, events)
      ensures ok ==> queue == old(queue) + events && inserted == old(inserted) + events
      ensures !ok ==> queue == old(queue) && latest == old(latest) && inserted == old(inserted)
      ensures popped == old(popped) && |latest| == |old(latest)|
      ensures forall k: nat | k < |latest| && k != m :: latest[k] == old(latest)[k]
      ensures m < |latest| ==>
                && latest[m] >= old(latest)[m] && (forall e | e in events :: latest[m] >= e.time)
                && (latest[m] == old(latest)[m] || exists e | e in events :: latest[m] == e.time)
    {
      for i := 0 to |events|
        invariant queue == old(queue) && inserted == old(inserted) && popped == old(popped)
        invariant |latest| == |old(latest)| && (i > 0 ==> m < |latest|)
        invariant latest == if m < |latest| then old(latest)[m := LatestAfter(old(latest)[m], events[..i])]
                  else old(latest)
      {
        if m >= |latest| {
          return false, events;
        }
        assert events[..i + 1][..i] == events[..i];
        latest := latest[m := Max(events[i].time, latest[m])];
      }
      assert events[..|events|] == events;
      LatestAfterIsLargest(if m < |old(latest)| then old(latest)[m] else 0, events);
      queue := queue + events;
      inserted := inserted + events;
      return true, [];
    }

    method SyncUp(m1: nat, m2: nat)
      requires m1 < |latest| && m2 < |latest|
      modifies this
      ensures View() == Step(old(View()), Op.SyncUp(m1, m2))
      ensures latest[m1] == latest[m2] == Max(old(latest[m1]), old(latest[m2]))
      ensures latest[m1] == if old(latest[m1]) < old(latest[m2]) then old(latest[m2]) else old(latest[m1])
      ensures |latest| == |old(latest)|
      ensures forall k: nat | k < |latest| && k != m1 && k != m2 :: latest[k] == old(latest)[k]
      ensures queue == old(queue) && inserted == old(inserted) && popped == old(popped)
    {
      var l := Max(latest[m1], latest[m2]);
      latest := latest[m2 := l];
      latest := latest[m1 := l];
    }

    method Sort()
      modifies this
      ensures View() == Step(old(View()), Op.Sort)
      ensures latest == old(latest) && inserted == old(inserted) && popped == old(popped)
      ensures multiset(queue) == multiset(old(queue))
      ensures forall i, j :: 0 <= i < j < |queue| ==> queue[i].time <= queue[j].time
      ensures forall time: uint64 :: At(queue, time) == At(old(queue), time)
    {
      forall time: uint64
        ensures Sorted(StableSort(queue)) && multiset(StableSort(queue)) == multiset(queue)
        ensures At(StableSort(queue), time) == At(queue, time)
      {
        SortIsStable(queue, time);
      }
      SortIsStable(queue, 0);
      queue := StableSort(queue);
    }

    method Reset()
      modifies this
      ensures View() == old(View()).(latest := latest)
      ensures |latest| == |old(latest)| && forall l | l in latest :: l == 0
    {
      latest := seq(|latest|, _ => 0);
    }

    method Horizon() returns (h: uint64)
      ensures h == HorizonOf(latest)
      ensures if exists l | l in latest :: l < MAX_UINT64 then h in latest && forall l | l in latest :: h <= l
              else h == 0
    {
      h := MAX_UINT64;
      for i := 0 to |latest|
        invariant h == Lagging(latest[..i])
      {
        assert latest[..i + 1][..i] == latest[..i];
        if latest[i] < h {
          h := latest[i];
        }
      }
      assert latest[..|latest|] == latest;
      assert h < MAX_UINT64 ==> h in latest;
      if h == MAX_UINT64 {
        h := 0;
      }
    }

    method Ready() returns (r: bool)
      ensures r <==> ReadyIn(queue, latest, maximumLatency)
      ensures r <==>
                && queue != [] && (forall l | l in latest :: queue[0].time + maximumLatency < l)
                && exists l | l in latest :: l < MAX_UINT64
    {
      if queue == [] {
        return false;
      }
      ReadyIff(queue, latest, maximumLatency);
      var h := Horizon();
      if h < maximumLatency {
        return false;
      }
      return queue[0].time < h - maximumLatency;
    }

    method PopEarliest() returns (e: NeutronEvent)
      requires queue != []
      modifies this
      ensures [e] + queue == old(queue) && popped == old(popped) + [e]
      ensures latest == old(latest) && inserted == old(inserted)
      ensures View() == Step(old(View()), Pop)
    {
      e := queue[0];
      queue := queue[1..];
      popped := popped + [e];
    }
  }

  /** One source, latency 100: the event at 1000 is held back until the one at 2000 arrives. */
  method ReleaseFirst() returns (early: bool, late: bool, first: NeutronEvent)
    ensures !early && late && first == NeutronEvent(1000, 1)
  {
    var merger := new Merger(100, 1);
    assert merger.latest[0] in merger.latest;
    var _ := merger.Insert(0, NeutronEvent(1000, 1));
    assert merger.latest == [1000];
    early := merger.Ready();
    var _ := merger.Insert(0, NeutronEvent(2000, 2));
    assert merger.latest == [2000];
    late := merger.Ready();
    first := merger.PopEarliest();
  }
}
