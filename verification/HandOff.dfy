/** The hand-off of packets from the input thread to the processing thread.

    The two threads share a ring of packet buffers and a lock-free FIFO that
    carries only buffer indices; nothing ever returns a buffer to the producer.
    Every access to shared memory is one step of its own, down to the single
    byte, and a schedule says which thread moves next. */
module HandOff {
  import opened Basics
  import opened Multiples
  import opened RingBuffer
  import opened RingIndex
  import opened SpscFifo

  type Packet = seq<uint8>

  /** Entries of the FIFO, buffers in the ring, bytes per buffer, and of how many packets how many
      are sampled. */
  datatype Config = Config(fifoSize: nat, ringEntries: nat, bufferSize: nat,
                           monitorPeriod: nat, monitorSamples: nat) {
    predicate Valid() {
      ringEntries > 0 && bufferSize > 0
    }

    function Capacity(): nat {
      fifoSize + 1
    }
  }

  /** What became of a received packet. */
  datatype Fate = Queued | Dropped | Calibration
  datatype Entry = Entry(packet: Packet, fate: Fate)

  /** Where the input thread is; each constructor names the step it takes next. */
  datatype Producer =
    | GetIndex
    | ClearLength(slot: nat)
    | Receive(slot: nat)
    | Fill(slot: nat, packet: Packet, filled: nat)
    | SetLength(slot: nat, packet: Packet)
    | Count(slot: nat, packet: Packet)
    | Mode(slot: nat, packet: Packet)
    | PushLoadTail(slot: nat, packet: Packet)
    | PushLoadHead(slot: nat, packet: Packet, tail: nat)
    | PushStoreCell(slot: nat, packet: Packet, tail: nat)
    | PushStoreTail(slot: nat, packet: Packet, tail: nat)
    | NextBuffer
    | PushFailed(packet: Packet)

  /** Where the processing thread is. */
  datatype Consumer =
    | PopLoadHead
    | PopLoadTail(head: nat)
    | PopLoadCell(head: nat)
    | PopStoreHead(head: nat, slot: nat)
    | ReadLength(slot: nat)
    | ReadBytes(slot: nat, length: nat, view: Packet)

  /** ITCounters; TxRawReadoutPackets is the sum of calibrated, the packets sent on in
      calibration mode, and sampled, those sent on besides. */
  datatype Counters = Counters(
    rxPackets: nat, rxBytes: nat, fifoPushErrors: nat, calibrated: nat, sampled: nat, fifoSeqErrors: nat)

  /** What happened so far: packets received, their fates once decided, packets
      whose push succeeded, and packets the processing thread has read. */
  datatype History = History(
    arrivals: seq<Packet>, log: seq<Entry>, accepted: seq<Packet>, consumed: seq<Packet>)

  datatype State = State(
    fifo: Fifo<nat>, ring: Ring, producer: Producer, consumer: Consumer,
    counters: Counters, history: History)

  /** One turn: the input thread with what the socket and the operator would
      give it, or the processing thread. */
  datatype Turn = Input(datagram: Packet, calibrationMode: bool) | Processing

  // ---- the input thread's program points ----

  /** The producer has taken a buffer; it keeps it until the tail store. */
  ghost predicate Owns(p: Producer) {
    !p.GetIndex? && !p.NextBuffer? && !p.PushFailed?
  }

  /** A packet has been received and its fate is still open. */
  ghost predicate HasPacket(p: Producer) {
    !p.GetIndex? && !p.NextBuffer? && !p.ClearLength? && !p.Receive?
  }

  /** The packet is completely in the owned buffer, with its length. */
  ghost predicate Filled(p: Producer) {
    Owns(p) && HasPacket(p) && !p.Fill? && !p.SetLength?
  }

  /** The packet has been received and counted. */
  ghost predicate Counted(p: Producer) {
    HasPacket(p) && !p.Fill? && !p.SetLength? && !p.Count?
  }

  /** The producer has loaded the tail for a push. */
  ghost predicate Pushing(p: Producer) {
    p.PushLoadHead? || p.PushStoreCell? || p.PushStoreTail?
  }

  /** The consumer has popped a buffer and is still reading it. */
  ghost predicate Reading(c: Consumer) {
    c.ReadLength? || c.ReadBytes?
  }

  // ---- the steps ----

  /** Sizes and ranges that keep every array access in bounds. */
  ghost predicate WellFormed(cfg: Config, s: State) {
    && cfg.Valid()
    && FifoWellFormed(cfg, s.fifo) && RingWellFormed(s.ring, cfg.ringEntries, cfg.bufferSize)
    && ProducerWellFormed(cfg, s.producer) && ConsumerWellFormed(cfg, s.consumer)
  }

  ghost predicate FifoWellFormed(cfg: Config, fifo: Fifo<nat>) {
    && |fifo.cells| == cfg.Capacity() && fifo.head < cfg.Capacity() && fifo.tail < cfg.Capacity()
    && forall i :: 0 <= i < |fifo.cells| ==> fifo.cells[i] < cfg.ringEntries
  }

  ghost predicate ProducerWellFormed(cfg: Config, p: Producer) {
    && (Owns(p) ==> p.slot < cfg.ringEntries)
    && (Pushing(p) ==> p.tail < cfg.Capacity())
    && (p.Fill? ==> p.filled < |p.packet| <= cfg.bufferSize)
  }

  ghost predicate ConsumerWellFormed(cfg: Config, c: Consumer) {
    && (c.PopLoadTail? || c.PopLoadCell? || c.PopStoreHead? ==> c.head < cfg.Capacity())
    && (Reading(c) || c.PopStoreHead? ==> c.slot < cfg.ringEntries)
    && (c.ReadBytes? ==> |c.view| < c.length)
  }

  /** Datagrams longer than the buffer arrive cut off. */
  function Truncate(cfg: Config, datagram: Packet): Packet {
    if |datagram| <= cfg.bufferSize then datagram else datagram[..cfg.bufferSize]
  }

  /** 1 if the packet with this number is sampled outside calibration mode. */
  function Sample(cfg: Config, number: nat): nat {
    if cfg.monitorPeriod > 0 && number % cfg.monitorPeriod < cfg.monitorSamples then 1 else 0
  }

  /** The fate of a packet is decided. */
  ghost function Decide(h: History, packet: Packet, fate: Fate): History {
    h.(log := h.log + [Entry(packet, fate)],
       accepted := if fate == Queued then h.accepted + [packet] else h.accepted)
  }

  /** One step of CircularFifo::push. */
  ghost function PushStep(cfg: Config, s: State): (s': State)
    requires WellFormed(cfg, s) && (s.producer.PushLoadTail? || Pushing(s.producer))
    ensures WellFormed(cfg, s')
  {
    match s.producer
    case PushLoadTail(slot, packet) =>
      s.(producer := PushLoadHead(slot, packet, s.fifo.tail))
    case PushLoadHead(slot, packet, tail) =>
      if Inc(tail, cfg.Capacity()) != s.fifo.head then s.(producer := PushStoreCell(slot, packet, tail))
      else s.(producer := PushFailed(packet))
    case PushStoreCell(slot, packet, tail) =>
      s.(fifo := s.fifo.(cells := s.fifo.cells[tail := slot]), producer := PushStoreTail(slot, packet, tail))
    case PushStoreTail(slot, packet, tail) =>
      s.(fifo := s.fifo.(tail := Inc(tail, cfg.Capacity())),
         history := Decide(s.history, packet, Queued), producer := NextBuffer)
  }

  /** One step of Detector::inputThread. */
  ghost function ProducerStep(cfg: Config, s: State, datagram: Packet, calibrationMode: bool): (s': State)
    requires WellFormed(cfg, s)
    ensures WellFormed(cfg, s')
  {
    match s.producer
    case GetIndex =>
      s.(producer := ClearLength(s.ring.entry))
    case ClearLength(slot) =>
      s.(ring := StoreSlot(s.ring, slot, s.ring.slots[slot].(length := 0)), producer := Receive(slot))
    case Receive(slot) =>
      if |datagram| == 0 then s.(producer := GetIndex)
      else
        var packet := Truncate(cfg, datagram);
        s.(producer := Fill(slot, packet, 0), history := s.history.(arrivals := s.history.arrivals + [packet]))
    case Fill(slot, packet, filled) =>
      var bytes := s.ring.slots[slot].bytes[filled := packet[filled]];
      s.(ring := StoreSlot(s.ring, slot, s.ring.slots[slot].(bytes := bytes)),
         producer := if filled + 1 < |packet| then Fill(slot, packet, filled + 1) else SetLength(slot, packet))
    case SetLength(slot, packet) =>
      s.(ring := StoreSlot(s.ring, slot, s.ring.slots[slot].(length := |packet|)), producer := Count(slot, packet))
    case Count(slot, packet) =>
      s.(counters := s.counters.(rxPackets := s.counters.rxPackets + 1, rxBytes := s.counters.rxBytes + |packet|),
         producer := Mode(slot, packet))
    case Mode(slot, packet) =>
      if calibrationMode then
        s.(counters := s.counters.(calibrated := s.counters.calibrated + 1),
           history := Decide(s.history, packet, Calibration), producer := GetIndex)
      else
        var sampled := s.counters.sampled + Sample(cfg, s.counters.rxPackets);
        s.(counters := s.counters.(sampled := sampled), producer := PushLoadTail(slot, packet))
    case PushLoadTail(_, _) | PushLoadHead(_, _, _) | PushStoreCell(_, _, _) | PushStoreTail(_, _, _) =>
      PushStep(cfg, s)
    case NextBuffer =>
      s.(ring := s.ring.(entry := Inc(s.ring.entry, cfg.ringEntries)), producer := GetIndex)
    case PushFailed(packet) =>
      s.(counters := s.counters.(fifoPushErrors := s.counters.fifoPushErrors + 1),
         history := Decide(s.history, packet, Dropped), producer := GetIndex)
  }

  /** One step of processing_thread. A read past the end of a buffer, which
      the theorems below exclude, would yield an arbitrary byte; 0 stands for it. */
  ghost function ConsumerStep(cfg: Config, s: State): (s': State)
    requires WellFormed(cfg, s)
    ensures WellFormed(cfg, s')
  {
    match s.consumer
    case PopLoadHead =>
      s.(consumer := PopLoadTail(s.fifo.head))
    case PopLoadTail(head) =>
      if head == s.fifo.tail then s.(consumer := PopLoadHead) else s.(consumer := PopLoadCell(head))
    case PopLoadCell(head) =>
      s.(consumer := PopStoreHead(head, s.fifo.cells[head]))
    case PopStoreHead(head, slot) =>
      s.(fifo := s.fifo.(head := Inc(head, cfg.Capacity())), consumer := ReadLength(slot))
    case ReadLength(slot) =>
      if s.ring.slots[slot].length == 0 then
        s.(counters := s.counters.(fifoSeqErrors := s.counters.fifoSeqErrors + 1), consumer := PopLoadHead)
      else s.(consumer := ReadBytes(slot, s.ring.slots[slot].length, []))
    case ReadBytes(slot, length, view) =>
      var b := if |view| < cfg.bufferSize then s.ring.slots[slot].bytes[|view|] else 0;
      if |view| + 1 < length then s.(consumer := ReadBytes(slot, length, view + [b]))
      else s.(history := s.history.(consumed := s.history.consumed + [view + [b]]), consumer := PopLoadHead)
  }

  ghost function Step(cfg: Config, s: State, t: Turn): (s': State)
    requires WellFormed(cfg, s)
    ensures WellFormed(cfg, s')
  {
    match t
    case Input(datagram, calibrationMode) => ProducerStep(cfg, s, datagram, calibrationMode)
    case Processing => ConsumerStep(cfg, s)
  }

  /** Nothing received yet; memory that the program leaves uninitialised is arbitrary. */
  ghost predicate Initial(cfg: Config, s: State) {
    && WellFormed(cfg, s)
    && s.fifo.head == s.fifo.tail == s.ring.entry == 0
    && s.producer == GetIndex && s.consumer == PopLoadHead
    && s.counters == Counters(0, 0, 0, 0, 0, 0)
    && s.history == History([], [], [], [])
  }

  /** The state after a schedule. */
  ghost function Run(cfg: Config, s0: State, schedule: seq<Turn>): (s: State)
    requires WellFormed(cfg, s0)
    ensures WellFormed(cfg, s)
    decreases |schedule|
  {
    if schedule == [] then s0
    else Step(cfg, Run(cfg, s0, schedule[..|schedule| - 1]), schedule[|schedule| - 1])
  }

  // ---- what the theorems talk about ----

  /** The packets that went through the FIFO, in order. */
  ghost function Accepted(log: seq<Entry>): seq<Packet> {
    if log == [] then []
    else
      var last := log[|log| - 1];
      Accepted(log[..|log| - 1]) + if last.fate == Queued then [last.packet] else []
  }

  ghost function CountFate(log: seq<Entry>, fate: Fate): nat {
    if log == [] then 0
    else CountFate(log[..|log| - 1], fate) + if log[|log| - 1].fate == fate then 1 else 0
  }

  ghost function Packets(log: seq<Entry>): seq<Packet> {
    if log == [] then [] else Packets(log[..|log| - 1]) + [log[|log| - 1].packet]
  }

  ghost function Bytes(packets: seq<Packet>): nat {
    if packets == [] then 0 else Bytes(packets[..|packets| - 1]) + |packets[|packets| - 1]|
  }

  /** The received packet whose fate is still open, if any. */
  ghost function Pending(p: Producer): seq<Packet> {
    if HasPacket(p) then [p.packet] else []
  }

  /** The buffer being written is neither queued nor being read. */
  ghost predicate Exclusive(cfg: Config, s: State)
    requires WellFormed(cfg, s)
  {
    Owns(s.producer) ==>
      && (Reading(s.consumer) ==> s.producer.slot != s.consumer.slot)
      && s.producer.slot !in Queue(s.fifo)
  }

  // ---- the invariant ----

  ghost predicate Holds(slot: Slot, packet: Packet) {
    0 < slot.length == |packet| <= |slot.bytes| && slot.bytes[..|packet|] == packet
  }

  /** 1 while the consumer holds a popped buffer, else 0. */
  ghost function Held(c: Consumer): nat {
    if Reading(c) then 1 else 0
  }

  ghost function Pushed(s: State): nat { |s.history.accepted| }
  ghost function Popped(s: State): nat { |s.history.consumed| + Held(s.consumer) }

  /** head, tail and entry in terms of the packets pushed and popped; lagging
      between the tail store and the move to the next buffer. */
  ghost predicate IndexInv(cfg: Config, fifo: Fifo<nat>, entry: nat, lagging: bool, popped: nat, pushed: nat)
    requires cfg.Valid()
  {
    && popped <= pushed <= popped + cfg.fifoSize
    && fifo.tail == Pos(pushed, cfg.Capacity())
    && fifo.head == Pos(popped, cfg.Capacity())
    && (lagging ==> pushed > 0 && entry == Pos(pushed - 1, cfg.ringEntries))
    && (!lagging ==> entry == Pos(pushed, cfg.ringEntries))
  }

  /** Queued cells name the buffers of the packets pushed. */
  ghost predicate CellsInv(cfg: Config, cells: seq<nat>, popped: nat, pushed: nat)
    requires |cells| == cfg.Capacity() && cfg.Valid()
  {
    forall k {:trigger cells[Pos(k, cfg.Capacity())]} :: popped <= k < pushed ==>
      cells[Pos(k, cfg.Capacity())] == Pos(k, cfg.ringEntries)
  }

  /** The buffers of the packets pushed and not yet read hold them. */
  ghost predicate SlotsInv(cfg: Config, slots: seq<Slot>, consumed: nat, accepted: seq<Packet>)
    requires |slots| == cfg.ringEntries && cfg.Valid()
  {
    forall k {:trigger accepted[k]} :: consumed <= k < |accepted| ==> Holds(slots[Pos(k, cfg.ringEntries)], accepted[k])
  }

  ghost predicate ProducerInv(cfg: Config, p: Producer, fifo: Fifo<nat>, ring: Ring, popped: nat, pushed: nat)
    requires ProducerWellFormed(cfg, p) && FifoWellFormed(cfg, fifo)
             && RingWellFormed(ring, cfg.ringEntries, cfg.bufferSize)
  {
    && (Owns(p) ==> p.slot == ring.entry)
    && (HasPacket(p) ==> 0 < |p.packet| <= cfg.bufferSize)
    && (p.Fill? ==> ring.slots[p.slot].bytes[..p.filled] == p.packet[..p.filled])
    && (p.SetLength? ==> ring.slots[p.slot].bytes[..|p.packet|] == p.packet)
    && (Filled(p) ==> Holds(ring.slots[p.slot], p.packet))
    && (Pushing(p) ==> p.tail == fifo.tail)
    && (p.PushStoreCell? || p.PushStoreTail? ==> pushed < popped + cfg.fifoSize)
    && (p.PushStoreTail? ==> fifo.cells[p.tail] == p.slot)
  }

  ghost predicate ConsumerInv(cfg: Config, c: Consumer, head: nat, accepted: seq<Packet>, n: nat)
    requires cfg.Valid() && ConsumerWellFormed(cfg, c)
  {
    && (c.PopLoadTail? || c.PopLoadCell? || c.PopStoreHead? ==> c.head == head)
    && (c.PopLoadCell? || c.PopStoreHead? ==> n < |accepted|)
    && (c.PopStoreHead? || Reading(c) ==> c.slot == Pos(n, cfg.ringEntries))
    && (c.ReadBytes? ==> n < |accepted| && c.length == |accepted[n]| && c.view == accepted[n][..|c.view|])
  }

  ghost predicate HistoryInv(h: History, n: Counters, pending: seq<Packet>, counted: bool) {
    && |pending| <= 1
    && h.accepted == Accepted(h.log)
    && h.arrivals == Packets(h.log) + pending
    && n.rxPackets == |h.log| + (if counted then |pending| else 0)
    && n.rxBytes + (if counted then 0 else Bytes(pending)) == Bytes(h.arrivals)
    && n.fifoPushErrors == CountFate(h.log, Dropped)
    && n.calibrated == CountFate(h.log, Calibration)
    && n.fifoSeqErrors == 0
    && h.consumed <= h.accepted
  }

  ghost predicate Inv(cfg: Config, s: State) {
    && WellFormed(cfg, s)
    && IndexInv(cfg, s.fifo, s.ring.entry, s.producer.NextBuffer?, Popped(s), Pushed(s))
    && CellsInv(cfg, s.fifo.cells, Popped(s), Pushed(s))
    && SlotsInv(cfg, s.ring.slots, |s.history.consumed|, s.history.accepted)
    && ProducerInv(cfg, s.producer, s.fifo, s.ring, Popped(s), Pushed(s))
    && ConsumerInv(cfg, s.consumer, s.fifo.head, s.history.accepted, |s.history.consumed|)
    && HistoryInv(s.history, s.counters, Pending(s.producer), Counted(s.producer))
  }

  /** The slack the safety argument needs: buffers for a full FIFO, one being
      read and one being written. */
  ghost predicate RoomyRing(cfg: Config) {
    cfg.ringEntries >= cfg.fifoSize + 2
  }

  lemma InitialInv(cfg: Config, s: State)
    requires Initial(cfg, s)
    ensures Inv(cfg, s)
  {
  }

  /** Writing the buffer after the last pushed one touches no buffer still in use. */
  lemma WriteKeepsSlots(cfg: Config, slots: seq<Slot>, i: nat, slot: Slot, consumed: nat, accepted: seq<Packet>)
    requires cfg.Valid() && |slots| == cfg.ringEntries && SlotsInv(cfg, slots, consumed, accepted)
    requires i == Pos(|accepted|, cfg.ringEntries) && |accepted| < consumed + cfg.ringEntries
    ensures SlotsInv(cfg, slots[i := slot], consumed, accepted)
  {
    forall k | consumed <= k < |accepted|
      ensures Pos(k, cfg.ringEntries) != i
    {
      PosDistinct(k, |accepted|, cfg.ringEntries);
    }
  }

  /** While the FIFO is not full, storing at tail touches no queued cell. */
  lemma StoreKeepsCells(cfg: Config, cells: seq<nat>, tail: nat, slot: nat, popped: nat, pushed: nat)
    requires cfg.Valid() && |cells| == cfg.Capacity() && CellsInv(cfg, cells, popped, pushed)
    requires tail == Pos(pushed, cfg.Capacity()) && pushed < popped + cfg.fifoSize
    ensures CellsInv(cfg, cells[tail := slot], popped, pushed)
  {
    forall k | popped <= k < pushed
      ensures Pos(k, cfg.Capacity()) != tail
    {
      PosDistinct(k, pushed, cfg.Capacity());
    }
  }

  /** Full and empty, read off head and tail, mean what they should. */
  lemma FullAndEmpty(cfg: Config, fifo: Fifo<nat>, entry: nat, lagging: bool, popped: nat, pushed: nat)
    requires cfg.Valid() && FifoWellFormed(cfg, fifo) && IndexInv(cfg, fifo, entry, lagging, popped, pushed)
    ensures fifo.head == fifo.tail <==> popped == pushed
    ensures Inc(fifo.tail, cfg.Capacity()) == fifo.head <==> pushed == popped + cfg.fifoSize
    ensures QueueLength(fifo) == pushed - popped
  {
    PosOffset(popped, pushed - popped, cfg.Capacity());
  }

  lemma LogGrows(log: seq<Entry>, e: Entry)
    ensures Accepted(log + [e]) == Accepted(log) + if e.fate == Queued then [e.packet] else []
    ensures Packets(log + [e]) == Packets(log) + [e.packet]
    ensures forall fate :: CountFate(log + [e], fate) == CountFate(log, fate) + if e.fate == fate then 1 else 0
  {
    assert (log + [e])[..|log|] == log;
  }

  /** The counters after a packet met its fate. */
  ghost function CountedFate(n: Counters, fate: Fate): Counters {
    match fate
    case Queued => n
    case Dropped => n.(fifoPushErrors := n.fifoPushErrors + 1)
    case Calibration => n.(calibrated := n.calibrated + 1)
  }

  /** Deciding the pending packet's fate keeps the history in order. */
  lemma DecideKeepsHistory(h: History, n: Counters, packet: Packet, fate: Fate)
    requires HistoryInv(h, n, [packet], true)
    ensures HistoryInv(Decide(h, packet, fate), CountedFate(n, fate), [], false)
  {
    LogGrows(h.log, Entry(packet, fate));
  }

  /** The producer moves on without touching anything else. */
  lemma ProducerMoves(cfg: Config, s: State, p: Producer)
    requires Inv(cfg, s)
    requires ProducerWellFormed(cfg, p) && ProducerInv(cfg, p, s.fifo, s.ring, Popped(s), Pushed(s))
    requires p.NextBuffer? == s.producer.NextBuffer?
    requires Pending(p) == Pending(s.producer) && Counted(p) == Counted(s.producer)
    ensures Inv(cfg, s.(producer := p))
  {
  }

  /** The producer writes the buffer it owns. */
  lemma WriteMoves(cfg: Config, s: State, slot: Slot, p: Producer)
    requires RoomyRing(cfg) && Inv(cfg, s) && Owns(s.producer) && |slot.bytes| == cfg.bufferSize
    requires ProducerWellFormed(cfg, p) && Owns(p) && p.slot == s.producer.slot
    requires ProducerInv(cfg, p, s.fifo, StoreSlot(s.ring, p.slot, slot), Popped(s), Pushed(s))
    requires Pending(p) == Pending(s.producer) && Counted(p) == Counted(s.producer)
    ensures Inv(cfg, s.(ring := StoreSlot(s.ring, p.slot, slot), producer := p))
  {
    WriteKeepsSlots(cfg, s.ring.slots, p.slot, slot, |s.history.consumed|, s.history.accepted);
  }

  lemma ClearStep(cfg: Config, s: State, t: Turn)
    requires RoomyRing(cfg) && Inv(cfg, s) && t.Input? && s.producer.ClearLength?
    ensures Inv(cfg, Step(cfg, s, t))
  {
    var i := s.producer.slot;
    WriteMoves(cfg, s, s.ring.slots[i].(length := 0), Receive(i));
  }

  lemma FillStep(cfg: Config, s: State, t: Turn)
    requires RoomyRing(cfg) && Inv(cfg, s) && t.Input? && s.producer.Fill?
    ensures Inv(cfg, Step(cfg, s, t))
  {
    var i, packet, filled := s.producer.slot, s.producer.packet, s.producer.filled;
    var slot := s.ring.slots[i].(bytes := s.ring.slots[i].bytes[filled := packet[filled]]);
    var p := AfterByte(s.producer);
    FilledByte(cfg, s.producer, s.fifo, s.ring, slot, Popped(s), Pushed(s));
    assert Step(cfg, s, t) == s.(ring := StoreSlot(s.ring, i, slot), producer := p);
    WriteMoves(cfg, s, slot, p);
  }

  ghost function AfterByte(p: Producer): Producer
    requires p.Fill?
  {
    if p.filled + 1 < |p.packet| then Fill(p.slot, p.packet, p.filled + 1) else SetLength(p.slot, p.packet)
  }

  lemma FilledByte(cfg: Config, p: Producer, fifo: Fifo<nat>, ring: Ring, slot: Slot, popped: nat, pushed: nat)
    requires p.Fill? && ProducerWellFormed(cfg, p) && FifoWellFormed(cfg, fifo)
    requires RingWellFormed(ring, cfg.ringEntries, cfg.bufferSize) && ProducerInv(cfg, p, fifo, ring, popped, pushed)
    requires slot == ring.slots[p.slot].(bytes := ring.slots[p.slot].bytes[p.filled := p.packet[p.filled]])
    ensures ProducerInv(cfg, AfterByte(p), fifo, StoreSlot(ring, p.slot, slot), popped, pushed)
  {
    OneByteMore(ring.slots[p.slot].bytes, p.packet, p.filled);
  }

  lemma OneByteMore(bytes: seq<uint8>, packet: Packet, filled: nat)
    requires filled < |packet| <= |bytes| && bytes[..filled] == packet[..filled]
    ensures bytes[filled := packet[filled]][..filled + 1] == packet[..filled + 1]
    ensures filled + 1 == |packet| ==> bytes[filled := packet[filled]][..|packet|] == packet
  {
    assert packet[..filled + 1] == packet[..filled] + [packet[filled]];
  }

  lemma SetLengthStep(cfg: Config, s: State, t: Turn)
    requires RoomyRing(cfg) && Inv(cfg, s) && t.Input? && s.producer.SetLength?
    ensures Inv(cfg, Step(cfg, s, t))
  {
    var i, packet := s.producer.slot, s.producer.packet;
    WriteMoves(cfg, s, s.ring.slots[i].(length := |packet|), Count(i, packet));
  }

  lemma LocalStep(cfg: Config, s: State, t: Turn)
    requires Inv(cfg, s) && t.Input?
    requires s.producer.GetIndex? || s.producer.PushLoadTail? || s.producer.PushLoadHead?
    ensures Inv(cfg, Step(cfg, s, t))
  {
    FullAndEmpty(cfg, s.fifo, s.ring.entry, false, Popped(s), Pushed(s));
    ProducerMoves(cfg, s, Step(cfg, s, t).producer);
  }

  lemma ReceiveStep(cfg: Config, s: State, t: Turn)
    requires Inv(cfg, s) && t.Input? && s.producer.Receive?
    ensures Inv(cfg, Step(cfg, s, t))
  {
    if |t.datagram| == 0 {
      ProducerMoves(cfg, s, GetIndex);
    } else {
      var packet := Truncate(cfg, t.datagram);
      assert (s.history.arrivals + [packet])[..|s.history.arrivals|] == s.history.arrivals;
      assert Bytes([packet]) == |packet|;
    }
  }

  lemma CountStep(cfg: Config, s: State, t: Turn)
    requires Inv(cfg, s) && t.Input? && s.producer.Count?
    ensures Inv(cfg, Step(cfg, s, t))
  {
    assert Bytes([s.producer.packet]) == |s.producer.packet|;
  }

  /** The producer moves on while counters and log change and no packet is accepted. */
  lemma ProducerCounts(cfg: Config, s: State, p: Producer, n: Counters, h: History)
    requires Inv(cfg, s) && h.accepted == s.history.accepted && h.consumed == s.history.consumed
    requires ProducerWellFormed(cfg, p) && ProducerInv(cfg, p, s.fifo, s.ring, Popped(s), Pushed(s))
    requires p.NextBuffer? == s.producer.NextBuffer? && HistoryInv(h, n, Pending(p), Counted(p))
    ensures Inv(cfg, s.(producer := p, counters := n, history := h))
  {
  }

  /** The packet is given up: the producer starts over with the same buffer. */
  lemma DecideMoves(cfg: Config, s: State, fate: Fate)
    requires Inv(cfg, s) && Counted(s.producer) && fate != Queued
    ensures Inv(cfg, s.(counters := CountedFate(s.counters, fate),
                        history := Decide(s.history, s.producer.packet, fate), producer := GetIndex))
  {
    DecideKeepsHistory(s.history, s.counters, s.producer.packet, fate);
    ProducerCounts(cfg, s, GetIndex, CountedFate(s.counters, fate), Decide(s.history, s.producer.packet, fate));
  }

  lemma ModeStep(cfg: Config, s: State, t: Turn)
    requires Inv(cfg, s) && t.Input? && s.producer.Mode?
    ensures Inv(cfg, Step(cfg, s, t))
  {
    var packet := s.producer.packet;
    if t.calibrationMode {
      assert Step(cfg, s, t) == s.(counters := CountedFate(s.counters, Calibration),
                                   history := Decide(s.history, packet, Calibration), producer := GetIndex);
      DecideMoves(cfg, s, Calibration);
    } else {
      var n := s.counters.(sampled := s.counters.sampled + Sample(cfg, s.counters.rxPackets));
      assert Step(cfg, s, t) == s.(counters := n, producer := PushLoadTail(s.producer.slot, packet));
      ProducerCounts(cfg, s, PushLoadTail(s.producer.slot, packet), n, s.history);
    }
  }

  lemma PushFailedStep(cfg: Config, s: State, t: Turn)
    requires Inv(cfg, s) && t.Input? && s.producer.PushFailed?
    ensures Inv(cfg, Step(cfg, s, t))
  {
    assert Step(cfg, s, t) == s.(counters := CountedFate(s.counters, Dropped),
                                 history := Decide(s.history, s.producer.packet, Dropped), producer := GetIndex);
    DecideMoves(cfg, s, Dropped);
  }

  /** The cell at tail has its item. */
  lemma CellStored(cfg: Config, s: State, cells: seq<nat>, p: Producer)
    requires Inv(cfg, s) && s.producer.PushStoreCell?
             && p == PushStoreTail(s.producer.slot, s.producer.packet, s.producer.tail)
    requires FifoWellFormed(cfg, s.fifo.(cells := cells)) && CellsInv(cfg, cells, Popped(s), Pushed(s))
             && cells[p.tail] == p.slot
    ensures Inv(cfg, s.(fifo := s.fifo.(cells := cells), producer := p))
  {
  }

  lemma StoreCellStep(cfg: Config, s: State, t: Turn)
    requires Inv(cfg, s) && t.Input? && s.producer.PushStoreCell?
    ensures Inv(cfg, Step(cfg, s, t))
  {
    var p := s.producer;
    StoreKeepsCells(cfg, s.fifo.cells, p.tail, p.slot, Popped(s), Pushed(s));
    CellStored(cfg, s, s.fifo.cells[p.tail := p.slot], PushStoreTail(p.slot, p.packet, p.tail));
    assert Step(cfg, s, t) == s.(fifo := s.fifo.(cells := s.fifo.cells[p.tail := p.slot]),
                                 producer := PushStoreTail(p.slot, p.packet, p.tail));
  }

  /** Publishing the packet at tail adds it to the queued ones. */
  lemma PublishKeeps(cfg: Config, fifo: Fifo<nat>, ring: Ring, popped: nat, consumed: nat, accepted: seq<Packet>,
                     packet: Packet)
    requires cfg.Valid() && FifoWellFormed(cfg, fifo) && RingWellFormed(ring, cfg.ringEntries, cfg.bufferSize)
    requires IndexInv(cfg, fifo, ring.entry, false, popped, |accepted|) && |accepted| < popped + cfg.fifoSize
    requires CellsInv(cfg, fifo.cells, popped, |accepted|) && SlotsInv(cfg, ring.slots, consumed, accepted)
    requires fifo.cells[fifo.tail] == ring.entry && Holds(ring.slots[ring.entry], packet)
    ensures IndexInv(cfg, fifo.(tail := Inc(fifo.tail, cfg.Capacity())), ring.entry, true, popped, |accepted| + 1)
    ensures CellsInv(cfg, fifo.cells, popped, |accepted| + 1)
    ensures SlotsInv(cfg, ring.slots, consumed, accepted + [packet])
  {
  }

  /** The consumer does not notice that more packets are accepted. */
  lemma AcceptedGrows(cfg: Config, c: Consumer, head: nat, accepted: seq<Packet>, n: nat, packet: Packet)
    requires cfg.Valid() && ConsumerWellFormed(cfg, c) && ConsumerInv(cfg, c, head, accepted, n)
    ensures ConsumerInv(cfg, c, head, accepted + [packet], n)
  {
  }

  lemma StoreTailMoves(cfg: Config, s: State, fifo: Fifo<nat>, h: History)
    requires Inv(cfg, s) && s.producer.PushStoreTail? && fifo == s.fifo.(tail := Inc(s.fifo.tail, cfg.Capacity()))
    requires h.accepted == s.history.accepted + [s.producer.packet] && h.consumed == s.history.consumed
    requires HistoryInv(h, s.counters, [], false)
    ensures Inv(cfg, s.(fifo := fifo, history := h, producer := NextBuffer))
  {
    PublishKeeps(cfg, s.fifo, s.ring, Popped(s), |s.history.consumed|, s.history.accepted, s.producer.packet);
    AcceptedGrows(cfg, s.consumer, s.fifo.head, s.history.accepted, |s.history.consumed|, s.producer.packet);
  }

  lemma StoreTailStep(cfg: Config, s: State, t: Turn)
    requires Inv(cfg, s) && t.Input? && s.producer.PushStoreTail?
    ensures Inv(cfg, Step(cfg, s, t))
  {
    var h := Decide(s.history, s.producer.packet, Queued);
    assert Step(cfg, s, t) == s.(fifo := s.fifo.(tail := Inc(s.producer.tail, cfg.Capacity())), history := h,
                                 producer := NextBuffer);
    DecideKeepsHistory(s.history, s.counters, s.producer.packet, Queued);
    StoreTailMoves(cfg, s, s.fifo.(tail := Inc(s.producer.tail, cfg.Capacity())), h);
  }

  lemma NextBufferStep(cfg: Config, s: State, t: Turn)
    requires Inv(cfg, s) && t.Input? && s.producer.NextBuffer?
    ensures Inv(cfg, Step(cfg, s, t))
  {
  }

  /** The consumer moves on within a pop. */
  lemma ConsumerMoves(cfg: Config, s: State, c: Consumer)
    requires Inv(cfg, s) && !Reading(s.consumer) && !Reading(c)
    requires ConsumerWellFormed(cfg, c) && ConsumerInv(cfg, c, s.fifo.head, s.history.accepted, |s.history.consumed|)
    ensures Inv(cfg, s.(consumer := c))
  {
  }

  lemma LoadStep(cfg: Config, s: State)
    requires Inv(cfg, s) && !Reading(s.consumer) && !s.consumer.PopStoreHead?
    ensures Inv(cfg, Step(cfg, s, Processing))
  {
    FullAndEmpty(cfg, s.fifo, s.ring.entry, s.producer.NextBuffer?, Popped(s), Pushed(s));
    var s' := Step(cfg, s, Processing);
    ConsumerMoves(cfg, s, s'.consumer);
    assert s' == s.(consumer := s'.consumer);
  }

  lemma StoreHeadStep(cfg: Config, s: State)
    requires Inv(cfg, s) && s.consumer.PopStoreHead?
    ensures Inv(cfg, Step(cfg, s, Processing))
  {
  }

  lemma ReadLengthStep(cfg: Config, s: State)
    requires Inv(cfg, s) && s.consumer.ReadLength?
    ensures Inv(cfg, Step(cfg, s, Processing))
  {
    var slot, packet := s.ring.slots[s.consumer.slot], s.history.accepted[|s.history.consumed|];
    assert Holds(slot, packet);
  }

  /** The last byte has been read: the buffer is let go. */
  lemma FinishReading(cfg: Config, s: State, packet: Packet)
    requires Inv(cfg, s) && Reading(s.consumer) && |s.history.consumed| < Pushed(s)
    requires packet == s.history.accepted[|s.history.consumed|]
    ensures Inv(cfg, s.(history := s.history.(consumed := s.history.consumed + [packet]), consumer := PopLoadHead))
  {
  }

  lemma ReadOn(cfg: Config, s: State, c: Consumer)
    requires Inv(cfg, s) && Reading(s.consumer) && Reading(c)
    requires ConsumerWellFormed(cfg, c) && ConsumerInv(cfg, c, s.fifo.head, s.history.accepted, |s.history.consumed|)
    ensures Inv(cfg, s.(consumer := c))
  {
  }

  lemma ReadBytesStep(cfg: Config, s: State)
    requires Inv(cfg, s) && s.consumer.ReadBytes?
    ensures Inv(cfg, Step(cfg, s, Processing))
  {
    var slot, packet := s.ring.slots[s.consumer.slot], s.history.accepted[|s.history.consumed|];
    assert Holds(slot, packet);
    var view := s.consumer.view;
    assert slot.bytes[|view|] == slot.bytes[..|packet|][|view|] == packet[|view|];
    assert view + [packet[|view|]] == packet[..|view| + 1];
    var s' := Step(cfg, s, Processing);
    if |view| + 1 == |packet| {
      assert packet[..|packet|] == packet;
      assert s' == s.(history := s.history.(consumed := s.history.consumed + [packet]), consumer := PopLoadHead);
      FinishReading(cfg, s, packet);
    } else {
      assert s' == s.(consumer := ReadBytes(s.consumer.slot, s.consumer.length, packet[..|view| + 1]));
      ReadOn(cfg, s, s'.consumer);
    }
  }

  /** Every step of either thread keeps the invariant. */
  lemma StepKeepsInv(cfg: Config, s: State, t: Turn)
    requires RoomyRing(cfg) && Inv(cfg, s)
    ensures Inv(cfg, Step(cfg, s, t))
  {
    if t.Processing? {
      match s.consumer
      case ReadLength(_) => ReadLengthStep(cfg, s);
      case ReadBytes(_, _, _) => ReadBytesStep(cfg, s);
      case PopStoreHead(_, _) => StoreHeadStep(cfg, s);
      case PopLoadHead | PopLoadTail(_) | PopLoadCell(_) => LoadStep(cfg, s);
    } else {
      match s.producer
      case ClearLength(_) => ClearStep(cfg, s, t);
      case Receive(_) => ReceiveStep(cfg, s, t);
      case Fill(_, _, _) => FillStep(cfg, s, t);
      case SetLength(_, _) => SetLengthStep(cfg, s, t);
      case Count(_, _) => CountStep(cfg, s, t);
      case Mode(_, _) => ModeStep(cfg, s, t);
      case PushFailed(_) => PushFailedStep(cfg, s, t);
      case PushStoreCell(_, _, _) => StoreCellStep(cfg, s, t);
      case PushStoreTail(_, _, _) => StoreTailStep(cfg, s, t);
      case NextBuffer => NextBufferStep(cfg, s, t);
      case GetIndex | PushLoadTail(_, _) | PushLoadHead(_, _, _) => LocalStep(cfg, s, t);
    }
  }

  lemma {:induction false} RunInv(cfg: Config, s0: State, schedule: seq<Turn>)
    requires RoomyRing(cfg) && Initial(cfg, s0)
    ensures Inv(cfg, Run(cfg, s0, schedule))
    decreases |schedule|
  {
    if schedule == [] {
      InitialInv(cfg, s0);
    } else {
      RunInv(cfg, s0, schedule[..|schedule| - 1]);
      StepKeepsInv(cfg, Run(cfg, s0, schedule[..|schedule| - 1]), schedule[|schedule| - 1]);
    }
  }

  // ---- the theorems ----

  /** The i-th cell from head names the buffer of the i-th packet not popped. */
  lemma QueuedCell(cfg: Config, fifo: Fifo<nat>, popped: nat, pushed: nat, i: nat)
    requires cfg.Valid() && FifoWellFormed(cfg, fifo) && CellsInv(cfg, fifo.cells, popped, pushed)
    requires fifo.head == Pos(popped, cfg.Capacity()) && popped + i < pushed <= popped + cfg.fifoSize
    ensures var k := if fifo.head + i < cfg.Capacity() then fifo.head + i else fifo.head + i - cfg.Capacity();
            fifo.cells[k] == Pos(popped + i, cfg.ringEntries)
  {
    PosOffset(popped, i, cfg.Capacity());
  }

  /** The queue holds exactly the buffers of the packets pushed and not popped. */
  lemma QueueContents(cfg: Config, fifo: Fifo<nat>, entry: nat, lagging: bool, popped: nat, pushed: nat)
    requires cfg.Valid() && FifoWellFormed(cfg, fifo)
    requires IndexInv(cfg, fifo, entry, lagging, popped, pushed) && CellsInv(cfg, fifo.cells, popped, pushed)
    ensures |Queue(fifo)| == pushed - popped
    ensures forall i :: 0 <= i < |Queue(fifo)| ==> Queue(fifo)[i] == Pos(popped + i, cfg.ringEntries)
  {
    FullAndEmpty(cfg, fifo, entry, lagging, popped, pushed);
    forall i | 0 <= i < |Queue(fifo)|
      ensures Queue(fifo)[i] == Pos(popped + i, cfg.ringEntries)
    {
      QueuedCell(cfg, fifo, popped, pushed, i);
    }
  }

  lemma InvExclusive(cfg: Config, s: State)
    requires RoomyRing(cfg) && Inv(cfg, s)
    ensures Exclusive(cfg, s)
  {
    if Owns(s.producer) {
      QueueContents(cfg, s.fifo, s.ring.entry, s.producer.NextBuffer?, Popped(s), Pushed(s));
      forall k | |s.history.consumed| <= k < Pushed(s)
        ensures Pos(k, cfg.ringEntries) != s.producer.slot
      {
        PosDistinct(k, Pushed(s), cfg.ringEntries);
      }
      if Reading(s.consumer) {
        PosDistinct(|s.history.consumed|, Pushed(s), cfg.ringEntries);
      }
    }
  }

  /** With a roomy ring the input thread never writes a buffer that is queued or being read. */
  lemma BuffersNeverShared(cfg: Config, s0: State, schedule: seq<Turn>)
    requires RoomyRing(cfg) && Initial(cfg, s0)
    ensures Exclusive(cfg, Run(cfg, s0, schedule))
  {
    RunInv(cfg, s0, schedule);
    InvExclusive(cfg, Run(cfg, s0, schedule));
  }

  /** The datagrams with some bytes that the input thread took from the socket. */
  ghost function Received(cfg: Config, s0: State, schedule: seq<Turn>): seq<Packet>
    requires WellFormed(cfg, s0)
    decreases |schedule|
  {
    if schedule == [] then []
    else
      var init, t := schedule[..|schedule| - 1], schedule[|schedule| - 1];
      var takes := t.Input? && Run(cfg, s0, init).producer.Receive? && t.datagram != [];
      Received(cfg, s0, init) + if takes then [t.datagram] else []
  }

  /** A packet is a datagram, or as many of its first bytes as a buffer holds. */
  ghost predicate ArrivedAs(cfg: Config, datagram: Packet, packet: Packet) {
    packet == if |datagram| <= cfg.bufferSize then datagram else datagram[..cfg.bufferSize]
  }

  lemma StepArrives(cfg: Config, s: State, t: Turn)
    requires WellFormed(cfg, s)
    ensures var before, after := s.history.arrivals, Step(cfg, s, t).history.arrivals;
            if t.Input? && s.producer.Receive? && t.datagram != []
            then |after| == |before| + 1 && after[..|before|] == before && ArrivedAs(cfg, t.datagram, after[|before|])
            else after == before
  {
  }

  /** The packets that arrive are the datagrams received, in order. */
  lemma {:induction false} ArrivalsAreDatagrams(cfg: Config, s0: State, schedule: seq<Turn>)
    requires Initial(cfg, s0)
    ensures var packets, datagrams := Run(cfg, s0, schedule).history.arrivals, Received(cfg, s0, schedule);
            |packets| == |datagrams|
            && forall i :: 0 <= i < |packets| ==> ArrivedAs(cfg, datagrams[i], packets[i])
    decreases |schedule|
  {
    if schedule != [] {
      var init := schedule[..|schedule| - 1];
      ArrivalsAreDatagrams(cfg, s0, init);
      StepArrives(cfg, Run(cfg, s0, init), schedule[|schedule| - 1]);
    }
  }

  lemma {:induction false} FatesAddUp(log: seq<Entry>)
    ensures |log| == |Accepted(log)| + CountFate(log, Dropped) + CountFate(log, Calibration)
  {
    if log != [] {
      FatesAddUp(log[..|log| - 1]);
    }
  }

  /** The processing thread reads, in order and byte for byte, the received
      packets whose push succeeded; every received packet has one fate; and the
      counters balance at every moment. */
  lemma PacketsDelivered(cfg: Config, s0: State, schedule: seq<Turn>)
    requires RoomyRing(cfg) && Initial(cfg, s0)
    ensures
      var s := Run(cfg, s0, schedule);
      && s.history.arrivals == Packets(s.history.log) + Pending(s.producer)
      && s.history.consumed <= Accepted(s.history.log)
      && |Accepted(s.history.log)| == |s.history.consumed| + Held(s.consumer) + QueueLength(s.fifo)
      && s.counters.fifoSeqErrors == 0
      && s.counters.rxPackets == |s.history.consumed| + Held(s.consumer) + QueueLength(s.fifo)
           + s.counters.fifoPushErrors + s.counters.calibrated + (if Counted(s.producer) then 1 else 0)
      && s.counters.fifoPushErrors == CountFate(s.history.log, Dropped)
      && (s.producer.GetIndex? ==> s.counters.rxBytes == Bytes(s.history.arrivals))
  {
    RunInv(cfg, s0, schedule);
    var s := Run(cfg, s0, schedule);
    FullAndEmpty(cfg, s.fifo, s.ring.entry, s.producer.NextBuffer?, Popped(s), Pushed(s));
    FatesAddUp(s.history.log);
  }

  // ---- the packets sent on as they came ----

  /** How many packets were sampled: outside calibration mode, by their number among all. */
  ghost function CountSampled(cfg: Config, log: seq<Entry>): nat {
    if log == [] then 0
    else
      var last := |log| - 1;
      CountSampled(cfg, log[..last]) + if log[last].fate == Calibration then 0 else Sample(cfg, last + 1)
  }

  /** The pending packet has passed the mode check, so that it was sampled if it was to be. */
  ghost predicate PastMode(p: Producer) {
    p.PushLoadTail? || Pushing(p) || p.PushFailed?
  }

  ghost predicate RawInv(cfg: Config, s: State) {
    && s.counters.rxPackets == |s.history.log| + (if Counted(s.producer) then 1 else 0)
    && s.counters.calibrated == CountFate(s.history.log, Calibration)
    && s.counters.sampled == CountSampled(cfg, s.history.log)
                             + if PastMode(s.producer) then Sample(cfg, s.counters.rxPackets) else 0
  }

  /** The fate of the packet is entered in the log. */
  lemma DecidedRaw(cfg: Config, log: seq<Entry>, e: Entry)
    ensures CountFate(log + [e], Calibration) == CountFate(log, Calibration) + if e.fate == Calibration then 1 else 0
    ensures CountSampled(cfg, log + [e]) ==
              CountSampled(cfg, log) + if e.fate == Calibration then 0 else Sample(cfg, |log| + 1)
  {
    assert (log + [e])[..|log|] == log;
  }

  /** The steps that decide a packet's fate. */
  ghost predicate Decides(p: Producer, calibrationMode: bool) {
    (p.Mode? && calibrationMode) || p.PushStoreTail? || p.PushFailed?
  }

  lemma DecideKeepsRaw(cfg: Config, s: State, t: Turn)
    requires WellFormed(cfg, s) && RawInv(cfg, s) && t.Input? && Decides(s.producer, t.calibrationMode)
    ensures RawInv(cfg, Step(cfg, s, t))
  {
    var fate := if s.producer.Mode? then Calibration else if s.producer.PushStoreTail? then Queued else Dropped;
    var s' := Step(cfg, s, t);
    assert s'.history == Decide(s.history, s.producer.packet, fate) && !Counted(s'.producer) && !PastMode(s'.producer);
    assert s'.counters.calibrated == s.counters.calibrated + if fate == Calibration then 1 else 0;
    assert s'.counters.sampled == s.counters.sampled && s'.counters.rxPackets == s.counters.rxPackets;
    DecidedRaw(cfg, s.history.log, Entry(s.producer.packet, fate));
  }

  lemma ModeKeepsRaw(cfg: Config, s: State, t: Turn)
    requires WellFormed(cfg, s) && RawInv(cfg, s) && t.Input? && s.producer.Mode? && !t.calibrationMode
    ensures RawInv(cfg, Step(cfg, s, t))
  {
  }

  /** All other steps leave log and counts alone, but for the packet counted. */
  lemma OtherKeepsRaw(cfg: Config, s: State, t: Turn)
    requires WellFormed(cfg, s) && RawInv(cfg, s)
    requires t.Input? ==> !Decides(s.producer, t.calibrationMode) && !s.producer.Mode?
    ensures RawInv(cfg, Step(cfg, s, t))
  {
    var s' := Step(cfg, s, t);
    assert s'.history.log == s.history.log && s'.counters.sampled == s.counters.sampled;
    assert PastMode(s'.producer) == PastMode(s.producer) && s'.counters.calibrated == s.counters.calibrated;
  }

  lemma StepKeepsRaw(cfg: Config, s: State, t: Turn)
    requires WellFormed(cfg, s) && RawInv(cfg, s)
    ensures RawInv(cfg, Step(cfg, s, t))
  {
    if t.Processing? {
      OtherKeepsRaw(cfg, s, t);
    } else if Decides(s.producer, t.calibrationMode) {
      DecideKeepsRaw(cfg, s, t);
    } else if s.producer.Mode? {
      ModeKeepsRaw(cfg, s, t);
    } else {
      OtherKeepsRaw(cfg, s, t);
    }
  }

  /** For every ring, and at every moment between packets, the packets sent on raw are those
      taken by calibration mode and the sampled ones: the others whose number modulo the
      monitor period is below the number of samples. */
  lemma {:induction false} RawPackets(cfg: Config, s0: State, schedule: seq<Turn>)
    requires Initial(cfg, s0)
    ensures var s := Run(cfg, s0, schedule);
            RawInv(cfg, s) && (s.producer.GetIndex? ==>
              s.counters.calibrated + s.counters.sampled ==
              CountFate(s.history.log, Calibration) + CountSampled(cfg, s.history.log))
    decreases |schedule|
  {
    if schedule != [] {
      RawPackets(cfg, s0, schedule[..|schedule| - 1]);
      StepKeepsRaw(cfg, Run(cfg, s0, schedule[..|schedule| - 1]), schedule[|schedule| - 1]);
    }
  }

  lemma RemainderOf(rounds: nat, rest: nat, period: nat)
    requires rest < period
    ensures (rounds * period + rest) % period == rest
  {
    TimesIsProduct(rounds, period);
    DivisionFindsStep(rounds, rounds * period + rest, period);
  }

  /** Counted from 0, the first MonitorSamples numbers of every period are sampled, and no others. */
  lemma SampledIff(cfg: Config, rounds: nat, rest: nat)
    requires rest < cfg.monitorPeriod
    ensures Sample(cfg, rounds * cfg.monitorPeriod + rest) == if rest < cfg.monitorSamples then 1 else 0
  {
    RemainderOf(rounds, rest, cfg.monitorPeriod);
  }

  /** How many of n consecutive numbers are sampled. */
  function SampledFrom(cfg: Config, start: nat, n: nat): nat {
    if n == 0 then 0 else SampledFrom(cfg, start, n - 1) + Sample(cfg, start + n - 1)
  }

  lemma {:induction false} SampledSlides(cfg: Config, start: nat, n: nat)
    ensures SampledFrom(cfg, start + 1, n) == SampledFrom(cfg, start, n) - Sample(cfg, start) + Sample(cfg, start + n)
  {
    if n > 0 {
      SampledSlides(cfg, start, n - 1);
    }
  }

  lemma RemainderRepeats(number: nat, period: nat)
    requires period > 0
    ensures (number + period) % period == number % period
  {
    var rounds := number / period;
    PointInStep(number, period);
    PointInStep(number + period, period);
    assert Times(rounds + 1, period) == Times(rounds, period) + period;
    DivisionFindsStep(rounds + 1, number + period, period);
    RestOf(number, period);
    RestOf(number + period, period);
  }

  lemma RestOf(number: nat, period: nat)
    requires period > 0
    ensures number % period == number - Times(number / period, period)
  {
    TimesIsProduct(number / period, period);
  }

  lemma SampleRepeats(cfg: Config, number: nat)
    ensures Sample(cfg, number + cfg.monitorPeriod) == Sample(cfg, number)
  {
    if cfg.monitorPeriod > 0 {
      RemainderRepeats(number, cfg.monitorPeriod);
    }
  }

  lemma {:induction false} SampledInFirst(cfg: Config, n: nat)
    requires n <= cfg.monitorPeriod
    ensures SampledFrom(cfg, 0, n) == if n < cfg.monitorSamples then n else cfg.monitorSamples
  {
    if n > 0 {
      SampledInFirst(cfg, n - 1);
      SampledIff(cfg, 0, n - 1);
    }
  }

  /** Any MonitorPeriod consecutive numbers, wherever they start, hold MonitorSamples sampled
      ones, or all of them if that is more. */
  lemma {:induction false} SampledPerPeriod(cfg: Config, start: nat)
    ensures SampledFrom(cfg, start, cfg.monitorPeriod) ==
              if cfg.monitorPeriod < cfg.monitorSamples then cfg.monitorPeriod else cfg.monitorSamples
  {
    if start == 0 {
      SampledInFirst(cfg, cfg.monitorPeriod);
    } else {
      SampledPerPeriod(cfg, start - 1);
      SampledSlides(cfg, start - 1, cfg.monitorPeriod);
      SampleRepeats(cfg, start - 1);
    }
  }

  // ---- the FIFO as a queue, whatever the ring ----

  /** What the two threads know of the FIFO between the atomic steps of push and pop. */
  ghost predicate PortsInv(cfg: Config, p: Producer, c: Consumer, fifo: Fifo<nat>)
    requires FifoWellFormed(cfg, fifo)
  {
    && (Pushing(p) ==> p.tail == fifo.tail)
    && (p.PushStoreCell? || p.PushStoreTail? ==> |Queue(fifo)| < cfg.fifoSize)
    && (p.PushStoreTail? ==> fifo.cells[fifo.tail] == p.slot)
    && (c.PopLoadTail? || c.PopLoadCell? || c.PopStoreHead? ==> c.head == fifo.head)
    && (c.PopLoadCell? || c.PopStoreHead? ==> Queue(fifo) != [])
    && (c.PopStoreHead? ==> fifo.cells[fifo.head] == c.slot)
  }

  /** What a step may do to the FIFO, seen as a bounded queue: only the tail
      store appends and only the head store removes; a push fails exactly when
      the queue is full at its head load, and a pop fails exactly when it is
      empty at its tail load. */
  ghost predicate QueueStep(cfg: Config, s: State, t: Turn, s': State, q: seq<nat>, q': seq<nat>) {
    && |q| <= cfg.fifoSize
    && (if t.Input? && s.producer.PushStoreTail? then |q| < cfg.fifoSize && q' == q + [s.producer.slot]
        else if t.Processing? && s.consumer.PopStoreHead? then q == [s.consumer.slot] + q'
        else q' == q)
    && (t.Input? && s.producer.PushLoadHead? ==> (s'.producer.PushFailed? <==> |q| == cfg.fifoSize))
    && (t.Processing? && s.consumer.PopLoadTail? ==> (s'.consumer.PopLoadHead? <==> q == []))
  }

  lemma ProducerPort(cfg: Config, s: State, t: Turn)
    requires WellFormed(cfg, s) && PortsInv(cfg, s.producer, s.consumer, s.fifo) && t.Input?
    ensures var s' := Step(cfg, s, t);
            PortsInv(cfg, s'.producer, s'.consumer, s'.fifo) && QueueStep(cfg, s, t, s', Queue(s.fifo), Queue(s'.fifo))
  {
    EmptyAndFull(s.fifo);
    if s.producer.PushStoreCell? {
      CellStoreKeeps(s.fifo, s.producer.slot);
    } else if s.producer.PushStoreTail? {
      TailStoreAppends(s.fifo);
    }
  }

  lemma ConsumerPort(cfg: Config, s: State, t: Turn)
    requires WellFormed(cfg, s) && PortsInv(cfg, s.producer, s.consumer, s.fifo) && t.Processing?
    ensures var s' := Step(cfg, s, t);
            PortsInv(cfg, s'.producer, s'.consumer, s'.fifo) && QueueStep(cfg, s, t, s', Queue(s.fifo), Queue(s'.fifo))
  {
    EmptyAndFull(s.fifo);
    if s.consumer.PopStoreHead? {
      HeadStoreRemoves(s.fifo);
    }
  }

  lemma StepKeepsPorts(cfg: Config, s: State, t: Turn)
    requires WellFormed(cfg, s) && PortsInv(cfg, s.producer, s.consumer, s.fifo)
    ensures var s' := Step(cfg, s, t);
            PortsInv(cfg, s'.producer, s'.consumer, s'.fifo) && QueueStep(cfg, s, t, s', Queue(s.fifo), Queue(s'.fifo))
  {
    if t.Input? {
      ProducerPort(cfg, s, t);
    } else {
      ConsumerPort(cfg, s, t);
    }
  }

  lemma {:induction false} RunKeepsPorts(cfg: Config, s0: State, schedule: seq<Turn>)
    requires Initial(cfg, s0)
    ensures var s := Run(cfg, s0, schedule);
            PortsInv(cfg, s.producer, s.consumer, s.fifo)
    decreases |schedule|
  {
    if schedule != [] {
      RunKeepsPorts(cfg, s0, schedule[..|schedule| - 1]);
      StepKeepsPorts(cfg, Run(cfg, s0, schedule[..|schedule| - 1]), schedule[|schedule| - 1]);
    }
  }

  /** The circular array behaves as a bounded queue, one atomic step at a time, for every
      FIFO and every ring. */
  lemma FifoIsBoundedQueue(cfg: Config, s0: State, schedule: seq<Turn>, t: Turn)
    requires Initial(cfg, s0)
    ensures
      var s := Run(cfg, s0, schedule);
      var s' := Step(cfg, s, t);
      QueueStep(cfg, s, t, s', Queue(s.fifo), Queue(s'.fifo))
  {
    RunKeepsPorts(cfg, s0, schedule);
    StepKeepsPorts(cfg, Run(cfg, s0, schedule), t);
  }

  /** The items whose tail store a schedule contains, and those whose head store it contains. */
  ghost function PushedItems(cfg: Config, s0: State, schedule: seq<Turn>): seq<nat>
    requires WellFormed(cfg, s0)
    decreases |schedule|
  {
    if schedule == [] then []
    else
      var before, t := schedule[..|schedule| - 1], schedule[|schedule| - 1];
      var p := Run(cfg, s0, before).producer;
      PushedItems(cfg, s0, before) + if t.Input? && p.PushStoreTail? then [p.slot] else []
  }

  ghost function PoppedItems(cfg: Config, s0: State, schedule: seq<Turn>): seq<nat>
    requires WellFormed(cfg, s0)
    decreases |schedule|
  {
    if schedule == [] then []
    else
      var before, t := schedule[..|schedule| - 1], schedule[|schedule| - 1];
      var c := Run(cfg, s0, before).consumer;
      PoppedItems(cfg, s0, before) + if t.Processing? && c.PopStoreHead? then [c.slot] else []
  }

  /** Over every run the items popped are the first of the items pushed, in order, and the
      others are still queued. */
  lemma {:induction false} FirstInFirstOut(cfg: Config, s0: State, schedule: seq<Turn>)
    requires Initial(cfg, s0)
    ensures PushedItems(cfg, s0, schedule) == PoppedItems(cfg, s0, schedule) + Queue(Run(cfg, s0, schedule).fifo)
    ensures |PushedItems(cfg, s0, schedule)| <= |PoppedItems(cfg, s0, schedule)| + cfg.fifoSize
    decreases |schedule|
  {
    EmptyAndFull(Run(cfg, s0, schedule).fifo);
    if schedule != [] {
      var before, t := schedule[..|schedule| - 1], schedule[|schedule| - 1];
      FirstInFirstOut(cfg, s0, before);
      FifoIsBoundedQueue(cfg, s0, before, t);
      QueueMovesOn(cfg, Run(cfg, s0, before), t, Step(cfg, Run(cfg, s0, before), t),
                   PushedItems(cfg, s0, before), PoppedItems(cfg, s0, before),
                   Queue(Run(cfg, s0, before).fifo), Queue(Run(cfg, s0, schedule).fifo));
    }
  }

  lemma QueueMovesOn(cfg: Config, s: State, t: Turn, s': State, pushed: seq<nat>, popped: seq<nat>, q: seq<nat>,
                     q': seq<nat>)
    requires pushed == popped + q && QueueStep(cfg, s, t, s', q, q')
    ensures pushed + (if t.Input? && s.producer.PushStoreTail? then [s.producer.slot] else [])
         == popped + (if t.Processing? && s.consumer.PopStoreHead? then [s.consumer.slot] else []) + q'
  {
  }

  // ---- why the slack is needed ----

  /** The state after the input thread has pushed its first j packets and the
      processing thread stands at c. */
  ghost predicate AfterPushes(cfg: Config, s: State, j: nat, head: nat, c: Consumer)
    requires WellFormed(cfg, s)
  {
    && s.producer == GetIndex && s.consumer == c && s.fifo.head == head
    && s.fifo.tail == Pos(j, cfg.Capacity()) && s.ring.entry == Pos(j, cfg.ringEntries)
    && (j == 1 ==> s.fifo.cells[0] == 0)
  }

  lemma RunOneMore(cfg: Config, s0: State, schedule: seq<Turn>, t: Turn)
    requires WellFormed(cfg, s0)
    ensures Run(cfg, s0, schedule + [t]) == Step(cfg, Run(cfg, s0, schedule), t)
  {
    assert (schedule + [t])[..|schedule|] == schedule;
  }

  /** The producer's program point i steps into receiving a one-byte packet. */
  ghost function WritePoint(slot: nat, i: nat): Producer {
    match i
    case 0 => GetIndex
    case 1 => ClearLength(slot)
    case 2 => Receive(slot)
    case 3 => Fill(slot, [0], 0)
    case 4 => SetLength(slot, [0])
    case 5 => Count(slot, [0])
    case 6 => Mode(slot, [0])
    case _ => PushLoadTail(slot, [0])
  }

  lemma WriteStep(cfg: Config, s: State, i: nat)
    requires WellFormed(cfg, s) && i < 7 && s.producer == WritePoint(s.ring.entry, i)
    ensures
      var s' := Step(cfg, s, Input([0], false));
      && s'.producer == WritePoint(s.ring.entry, i + 1)
      && s'.consumer == s.consumer && s'.fifo == s.fifo && s'.ring.entry == s.ring.entry
  {
  }

  /** A one-byte packet travels from the socket into its buffer. */
  lemma WritePhase(cfg: Config, s0: State, schedule: seq<Turn>) returns (schedule': seq<Turn>)
    requires WellFormed(cfg, s0) && Run(cfg, s0, schedule).producer == GetIndex
    ensures
      var s, s' := Run(cfg, s0, schedule), Run(cfg, s0, schedule');
      && s'.producer == PushLoadTail(s.ring.entry, [0])
      && s'.consumer == s.consumer && s'.fifo == s.fifo && s'.ring.entry == s.ring.entry
  {
    schedule' := schedule;
    for i := 0 to 7
      invariant
        var s, s' := Run(cfg, s0, schedule), Run(cfg, s0, schedule');
        && s'.consumer == s.consumer && s'.fifo == s.fifo && s'.ring.entry == s.ring.entry
        && s'.producer == WritePoint(s.ring.entry, i)
    {
      RunOneMore(cfg, s0, schedule', Input([0], false));
      WriteStep(cfg, Run(cfg, s0, schedule'), i);
      schedule' := schedule' + [Input([0], false)];
    }
  }

  /** The producer's program point i steps into a push of item j. */
  ghost function PushPoint(cfg: Config, j: nat, i: nat): Producer
    requires cfg.Valid()
  {
    var slot, tail := Pos(j, cfg.ringEntries), Pos(j, cfg.Capacity());
    match i
    case 0 => PushLoadTail(slot, [0])
    case 1 => PushLoadHead(slot, [0], tail)
    case 2 => PushStoreCell(slot, [0], tail)
    case 3 => PushStoreTail(slot, [0], tail)
    case 4 => NextBuffer
    case _ => GetIndex
  }

  ghost predicate DuringPush(cfg: Config, s: State, j: nat, head: nat, c: Consumer, i: nat)
    requires WellFormed(cfg, s)
  {
    && s.producer == PushPoint(cfg, j, i) && s.consumer == c && s.fifo.head == head
    && s.fifo.tail == Pos(if i < 4 then j else j + 1, cfg.Capacity())
    && s.ring.entry == Pos(if i < 5 then j else j + 1, cfg.ringEntries)
    && (i >= 3 ==> s.fifo.cells[Pos(j, cfg.Capacity())] == Pos(j, cfg.ringEntries))
  }

  lemma PushProceeds(cfg: Config, s: State, j: nat, head: nat, c: Consumer, i: nat)
    requires WellFormed(cfg, s) && DuringPush(cfg, s, j, head, c, i) && i < 5
    requires Inc(Pos(j, cfg.Capacity()), cfg.Capacity()) != head
    ensures DuringPush(cfg, Step(cfg, s, Input([0], false)), j, head, c, i + 1)
  {
  }

  lemma PushOne(cfg: Config, s0: State, schedule: seq<Turn>, j: nat, head: nat, c: Consumer)
    returns (schedule': seq<Turn>)
    requires WellFormed(cfg, s0) && AfterPushes(cfg, Run(cfg, s0, schedule), j, head, c)
    requires Inc(Pos(j, cfg.Capacity()), cfg.Capacity()) != head
    ensures AfterPushes(cfg, Run(cfg, s0, schedule'), j + 1, head, c)
  {
    schedule' := WritePhase(cfg, s0, schedule);
    for i := 0 to 5
      invariant DuringPush(cfg, Run(cfg, s0, schedule'), j, head, c, i)
    {
      PushProceeds(cfg, Run(cfg, s0, schedule'), j, head, c, i);
      RunOneMore(cfg, s0, schedule', Input([0], false));
      schedule' := schedule' + [Input([0], false)];
    }
  }

  /** The processing thread pops buffer 0 and stops before reading it. */
  lemma PopFirst(cfg: Config, s0: State, schedule: seq<Turn>) returns (schedule': seq<Turn>)
    requires WellFormed(cfg, s0) && cfg.fifoSize >= 1
    requires AfterPushes(cfg, Run(cfg, s0, schedule), 1, 0, PopLoadHead)
    ensures AfterPushes(cfg, Run(cfg, s0, schedule'), 1, 1, ReadLength(0))
  {
    schedule' := schedule;
    for i := 0 to 4
      invariant AfterPushes(cfg, Run(cfg, s0, schedule'), 1, if i < 4 then 0 else 1,
                            match i
                            case 0 => PopLoadHead
                            case 1 => PopLoadTail(0)
                            case 2 => PopLoadCell(0)
                            case 3 => PopStoreHead(0, 0)
                            case _ => ReadLength(0))
    {
      RunOneMore(cfg, s0, schedule', Processing);
      schedule' := schedule' + [Processing];
    }
  }

  /** With item 0 popped there is room until the tail is back at place 1. */
  lemma NotFullYet(cfg: Config, j: nat)
    requires 1 <= j <= cfg.fifoSize
    ensures Inc(Pos(j, cfg.Capacity()), cfg.Capacity()) != 1
  {
    PosFirstRound(1, cfg.Capacity());
    PosDistinct(1, j + 1, cfg.Capacity());
  }

  lemma PushUpTo(cfg: Config, s0: State, schedule: seq<Turn>, n: nat) returns (schedule': seq<Turn>)
    requires WellFormed(cfg, s0) && 1 <= n <= cfg.fifoSize + 1
    requires AfterPushes(cfg, Run(cfg, s0, schedule), 1, 1, ReadLength(0))
    ensures AfterPushes(cfg, Run(cfg, s0, schedule'), n, 1, ReadLength(0))
  {
    schedule' := schedule;
    for j := 1 to n
      invariant AfterPushes(cfg, Run(cfg, s0, schedule'), j, 1, ReadLength(0))
    {
      NotFullYet(cfg, j);
      schedule' := PushOne(cfg, s0, schedule', j, 1, ReadLength(0));
    }
  }

  /** With one buffer less some schedule brings the input thread around to the buffer that the
      processing thread has popped and is about to read. */
  lemma TightRun(cfg: Config) returns (s0: State, schedule: seq<Turn>)
    requires cfg.Valid() && cfg.fifoSize >= 1 && !RoomyRing(cfg)
    ensures Initial(cfg, s0)
    ensures var s := Run(cfg, s0, schedule); s.producer == GetIndex && s.ring.entry == 0 && s.consumer == ReadLength(0)
  {
    s0 := State(Fifo(0, 0, seq(cfg.Capacity(), _ => 0)),
                Ring(0, seq(cfg.ringEntries, _ => Slot(0, seq(cfg.bufferSize, _ => 0)))),
                GetIndex, PopLoadHead, Counters(0, 0, 0, 0, 0, 0), History([], [], [], []));
    schedule := PushOne(cfg, s0, [], 0, 0, PopLoadHead);
    schedule := PopFirst(cfg, s0, schedule);
    schedule := PushUpTo(cfg, s0, schedule, cfg.ringEntries);
    PosWraps(cfg.ringEntries);
  }

  /** There both threads have the same buffer, */
  lemma TightRingShares(cfg: Config) returns (s0: State, schedule: seq<Turn>)
    requires cfg.Valid() && cfg.fifoSize >= 1 && !RoomyRing(cfg)
    ensures Initial(cfg, s0) && !Exclusive(cfg, Run(cfg, s0, schedule))
  {
    s0, schedule := TightRun(cfg);
    RunOneMore(cfg, s0, schedule, Input([], false));
    schedule := schedule + [Input([], false)];
  }

  /** and two turns later a packet is lost: its length is cleared before it is read. */
  lemma TightRingLoses(cfg: Config) returns (s0: State, schedule: seq<Turn>)
    requires cfg.Valid() && cfg.fifoSize >= 1 && !RoomyRing(cfg)
    ensures Initial(cfg, s0) && Run(cfg, s0, schedule).counters.fifoSeqErrors > 0
  {
    s0, schedule := TightRun(cfg);
    RunOneMore(cfg, s0, schedule, Input([], false));
    schedule := schedule + [Input([], false)];
    RunOneMore(cfg, s0, schedule, Input([], false));
    schedule := schedule + [Input([], false)];
    RunOneMore(cfg, s0, schedule, Processing);
    schedule := schedule + [Processing];
  }

  /** The counter of lost packets stays 0 in all schedules exactly if the ring has two buffers
      more than the FIFO has entries. */
  lemma NoLossIffRoomy(cfg: Config)
    requires cfg.Valid() && cfg.fifoSize >= 1
    ensures (forall s0, schedule | Initial(cfg, s0) :: Run(cfg, s0, schedule).counters.fifoSeqErrors == 0)
            <==> RoomyRing(cfg)
  {
    if RoomyRing(cfg) {
      forall s0, schedule | Initial(cfg, s0)
        ensures Run(cfg, s0, schedule).counters.fifoSeqErrors == 0
      {
        PacketsDelivered(cfg, s0, schedule);
      }
    } else {
      var s0, schedule := TightRingLoses(cfg);
    }
  }

  /** Two buffers more than FIFO entries are necessary and sufficient. */
  lemma SafeIffRoomy(cfg: Config)
    requires cfg.Valid() && cfg.fifoSize >= 1
    ensures (forall s0, schedule | Initial(cfg, s0) :: Exclusive(cfg, Run(cfg, s0, schedule))) <==> RoomyRing(cfg)
  {
    if RoomyRing(cfg) {
      forall s0, schedule | Initial(cfg, s0)
        ensures Exclusive(cfg, Run(cfg, s0, schedule))
      {
        BuffersNeverShared(cfg, s0, schedule);
      }
    } else {
      var s0, schedule := TightRingShares(cfg);
    }
  }

  /** The sizes the detectors are built with. */
  const DETECTOR := Config(2000, 2000 + 11, 9000, 1000, 2)

  lemma DetectorIsSafe(s0: State, schedule: seq<Turn>)
    requires Initial(DETECTOR, s0)
    ensures Exclusive(DETECTOR, Run(DETECTOR, s0, schedule))
  {
    SafeIffRoomy(DETECTOR);
  }
}
