/** Validation of readout packet headers, and the sequence state it keeps for every output
    queue over a run of packets. */
module HeaderParser {
  import opened Basics
  import EssTime

  const QUEUES := 12
  const MIN_DATA_SIZE := 5
  const MAX_UDP_DATA_SIZE := 8972
  const MAX_FRAC_TIME_COUNT := 88052499

  /** What the parser reads of a buffer, and the expected detector type. The header counts
      only when the size allows for one. */
  datatype Packet = Packet(size: nat, pad: uint8, version: uint8, cookie: int, header: Header, expectedType: uint8)

  datatype Header = Header(typ: uint8, totalLength: int, queue: uint8, timeSource: uint8,
                           pulse: EssTime.Stamp, prevPulse: EssTime.Stamp, seqNum: uint32)

  datatype Verdict = OK | EBUFFER | ESIZE | EHEADER

  // ---- the header's layout: little-endian fields, packed ----

  function Half(b: seq<uint8>, at: nat): (x: int)
    requires at + 2 <= |b|
    ensures 0 <= x < 65536
  {
    b[at] as int + 256 * (b[at + 1] as int)
  }

  function Word(b: seq<uint8>, at: nat): uint32
    requires at + 4 <= |b|
  {
    Half(b, at) + 65536 * Half(b, at + 2)
  }

  function HeaderSize(version: int): nat {
    if version == 0 then 30 else 32
  }

  const NO_HEADER := Header(0, 0, 0, 0, EssTime.Stamp(0, 0), EssTime.Stamp(0, 0), 0)

  function ParseHeader(b: seq<uint8>): Header
    requires |b| >= 30
  {
    Header(b[5], Half(b, 6), b[8], b[9], EssTime.Stamp(Word(b, 10), Word(b, 14)),
           EssTime.Stamp(Word(b, 18), Word(b, 22)), Word(b, 26))
  }

  ghost predicate IsWord(x: int, b0: int, b1: int, b2: int, b3: int) {
    x == b0 + 256 * b1 + 65536 * b2 + 16777216 * b3
  }

  /** Which bytes each field has, low ones first. */
  ghost predicate HasFields(h: Header, b: seq<uint8>)
    requires |b| >= 30
  {
    && h.typ == b[5] && h.totalLength == b[6] as int + 256 * (b[7] as int) && h.queue == b[8] && h.timeSource == b[9]
    && IsWord(h.pulse.high, b[10], b[11], b[12], b[13]) && IsWord(h.pulse.low, b[14], b[15], b[16], b[17])
    && IsWord(h.prevPulse.high, b[18], b[19], b[20], b[21]) && IsWord(h.prevPulse.low, b[22], b[23], b[24], b[25])
    && IsWord(h.seqNum, b[26], b[27], b[28], b[29])
  }

  /** The fields of a buffer; no bytes stand for a missing buffer. */
  function Open(b: seq<uint8>, expectedType: uint8): Packet {
    if |b| < MIN_DATA_SIZE then Packet(|b|, 0, 0, 0, NO_HEADER, expectedType)
    else Packet(|b|, b[0], b[1], Half(b, 2) + 65536 * (b[4] as int),
                if |b| < 30 then NO_HEADER else ParseHeader(b), expectedType)
  }

  // ---- the way back: a packet's bytes ----

  /** Byte k of a number, the lowest first. */
  function Byte(x: nat, k: nat): uint8 {
    if k == 0 then x % 256 else Byte(x / 256, k - 1)
  }

  /** The fields of the header follow each other without a gap. */
  function HeaderByte(p: Packet, i: nat): uint8
    requires i < 30 && p.cookie >= 0 && p.header.totalLength >= 0
  {
    var h := p.header;
    if i < 1 then p.pad
    else if i < 2 then p.version
    else if i < 5 then Byte(p.cookie, i - 2)
    else if i < 6 then h.typ
    else if i < 8 then Byte(h.totalLength, i - 6)
    else if i < 9 then h.queue
    else if i < 10 then h.timeSource
    else if i < 14 then Byte(h.pulse.high, i - 10)
    else if i < 18 then Byte(h.pulse.low, i - 14)
    else if i < 22 then Byte(h.prevPulse.high, i - 18)
    else if i < 26 then Byte(h.prevPulse.low, i - 22)
    else Byte(h.seqNum, i - 26)
  }

  /** Cookie and length have the width of their fields, and the packet has room for a header. */
  predicate Encodable(p: Packet) {
    0 <= p.cookie < 0x100_0000 && 0 <= p.header.totalLength < 65536 && p.size >= 30
  }

  ghost predicate Encodes(b: seq<uint8>, p: Packet)
    requires Encodable(p)
  {
    |b| == p.size && forall i: nat :: i < 30 ==> b[i] == HeaderByte(p, i)
  }

  lemma BytesOf(x: uint32)
    ensures x == Byte(x, 0) + 256 * Byte(x, 1) + 65536 * Byte(x, 2) + 16777216 * Byte(x, 3)
    ensures x < 65536 ==> Byte(x, 2) == Byte(x, 3) == 0
    ensures x < 0x100_0000 ==> Byte(x, 3) == 0
  {
  }

  /** A word that was written byte by byte is read as it was. */
  lemma ReadsWord(b: seq<uint8>, p: Packet, at: nat, x: uint32)
    requires Encodable(p) && Encodes(b, p) && at + 4 <= 30
    requires forall k: nat :: k < 4 ==> HeaderByte(p, at + k) == Byte(x, k)
    ensures Word(b, at) == x
  {
    BytesOf(x);
    assert b[at] == HeaderByte(p, at + 0) && b[at + 1] == HeaderByte(p, at + 1);
    assert b[at + 2] == HeaderByte(p, at + 2) && b[at + 3] == HeaderByte(p, at + 3);
  }

  /** Opening a packet finds the fields it was written from, whatever follows the header. */
  lemma OpensAsEncoded(b: seq<uint8>, p: Packet)
    requires Encodable(p) && Encodes(b, p)
    ensures Open(b, p.expectedType) == p
  {
    var h := p.header;
    ReadsWord(b, p, 10, h.pulse.high);
    ReadsWord(b, p, 14, h.pulse.low);
    ReadsWord(b, p, 18, h.prevPulse.high);
    ReadsWord(b, p, 22, h.prevPulse.low);
    ReadsWord(b, p, 26, h.seqNum);
    OpensShort(b, p);
  }

  lemma OpensShort(b: seq<uint8>, p: Packet)
    requires Encodable(p) && Encodes(b, p)
    ensures var q, h := Open(b, p.expectedType), p.header;
            && q.pad == p.pad && q.version == p.version && q.cookie == p.cookie
            && q.header.typ == h.typ && q.header.totalLength == h.totalLength
            && q.header.queue == h.queue && q.header.timeSource == h.timeSource
  {
    BytesOf(p.cookie);
    BytesOf(p.header.totalLength);
    assert b[0] == HeaderByte(p, 0) && b[1] == HeaderByte(p, 1);
    assert b[2] == HeaderByte(p, 2) && b[3] == HeaderByte(p, 3) && b[4] == HeaderByte(p, 4);
    assert b[5] == HeaderByte(p, 5) && b[6] == HeaderByte(p, 6) && b[7] == HeaderByte(p, 7);
    assert b[8] == HeaderByte(p, 8) && b[9] == HeaderByte(p, 9);
  }

  // ---- what is asked of a packet ----

  predicate SizeInRange(p: Packet) {
    MIN_DATA_SIZE <= p.size <= MAX_UDP_DATA_SIZE
  }

  /** No padding, a known version, the cookie "ESS". */
  predicate Marked(p: Packet) {
    p.pad == 0 && (p.version == 0 || p.version == 1) && p.cookie == 0x535345
  }

  /** The packet holds the header of its version. */
  predicate Complete(p: Packet) {
    SizeInRange(p) && Marked(p) && p.size >= HeaderSize(p.version)
  }

  predicate RightLength(p: Packet) {
    Complete(p) && p.header.totalLength == p.size
  }

  /** The packet reaches the sequence check: all of it is well formed, of the expected type,
      and for an existing queue. */
  predicate Framed(p: Packet) {
    RightLength(p) && p.header.typ == p.expectedType && p.header.queue < QUEUES
  }

  predicate Flag(timeSource: uint8, weight: int)
    requires weight > 0
  {
    timeSource / weight % 2 == 1
  }

  /** Local time with MRF sync or MRF time status, or a fibre that lost sync. */
  predicate TimeSourceBad(ts: uint8) {
    || (!Flag(ts, 1) && Flag(ts, 2)) || (!Flag(ts, 1) && Flag(ts, 8))
    || Flag(ts, 32) || Flag(ts, 128)
  }

  lemma FlagIsBit(ts: uint8, low: nat, bit: nat, high: nat, weight: nat)
    requires low < weight && bit <= 1
    requires weight == 1 || weight == 2 || weight == 8 || weight == 32 || weight == 128
    requires ts == low + bit * weight + 2 * high * weight
    ensures Flag(ts, weight) <==> bit == 1
  {
  }

  /** Of the bits of a time source, the lowest first: rejected are bit 1 or bit 3 without bit 0,
      bit 5, and bit 7. */
  lemma TimeSourceBadIff(ts: uint8, b0: nat, b1: nat, b2: nat, b3: nat, b4: nat, b5: nat, b6: nat, b7: nat)
    requires b0 <= 1 && b1 <= 1 && b2 <= 1 && b3 <= 1 && b4 <= 1 && b5 <= 1 && b6 <= 1 && b7 <= 1
    requires ts == b0 + 2 * b1 + 4 * b2 + 8 * b3 + 16 * b4 + 32 * b5 + 64 * b6 + 128 * b7
    ensures TimeSourceBad(ts) <==> (b0 == 0 && (b1 == 1 || b3 == 1)) || b5 == 1 || b7 == 1
  {
    FlagIsBit(ts, 0, b0, b1 + 2 * b2 + 4 * b3 + 8 * b4 + 16 * b5 + 32 * b6 + 64 * b7, 1);
    FlagIsBit(ts, b0, b1, b2 + 2 * b3 + 4 * b4 + 8 * b5 + 16 * b6 + 32 * b7, 2);
    FlagIsBit(ts, b0 + 2 * b1 + 4 * b2, b3, b4 + 2 * b5 + 4 * b6 + 8 * b7, 8);
    FlagIsBit(ts, b0 + 2 * b1 + 4 * b2 + 8 * b3 + 16 * b4, b5, b6 + 2 * b7, 32);
    FlagIsBit(ts, ts - 128 * b7, b7, 0, 128);
  }

  /** The bytes of a packet that reaches the sequence check: padding, version and "ESS", the
      expected type, the packet's own length, which has room for the header of its version,
      and one of twelve queues. */
  lemma FramedIff(b: seq<uint8>, expectedType: uint8)
    ensures Framed(Open(b, expectedType)) <==>
              && 30 <= |b| <= 8972
              && b[0] == 0 && (b[1] == 0 || (b[1] == 1 && |b| >= 32))
              && b[2] == 0x45 && b[3] == 0x53 && b[4] == 0x53
              && b[5] == expectedType && b[6] as int + 256 * (b[7] as int) == |b| && b[8] < 12
  {
  }

  predicate PulsesInRange(h: Header) {
    h.pulse.low <= MAX_FRAC_TIME_COUNT && h.prevPulse.low <= MAX_FRAC_TIME_COUNT
  }

  predicate PulsesClose(h: Header, maxPulseTimeDiff: int) {
    EssTime.ToNS(h.pulse) - EssTime.ToNS(h.prevPulse) <= maxPulseTimeDiff
  }

  predicate TimesAcceptable(h: Header, maxPulseTimeDiff: int) {
    !TimeSourceBad(h.timeSource) && PulsesInRange(h) && PulsesClose(h, maxPulseTimeDiff)
  }

  /** The current and the previous pulse time in force. */
  datatype PulseTimes = PulseTimes(current: int, previous: int)

  /** A packet's pulse times come into force before their distance is checked, also when it is
      then rejected. */
  function PulsesAfter(before: PulseTimes, p: Packet): PulseTimes {
    if Framed(p) && !TimeSourceBad(p.header.timeSource) && PulsesInRange(p.header)
    then PulseTimes(EssTime.ToNS(p.header.pulse), EssTime.ToNS(p.header.prevPulse))
    else before
  }

  // ---- sequence numbers, queue by queue ----

  /** The sequence numbers of the packets that reach the check on a queue. */
  function OnQueue(packets: seq<Packet>, q: nat): seq<uint32> {
    if packets == [] then []
    else
      var p := packets[|packets| - 1];
      OnQueue(packets[..|packets| - 1], q)
      + if Framed(p) && p.header.queue == q then [p.header.seqNum] else []
  }

  function NextExpected(numbers: seq<uint32>): nat {
    if numbers == [] then 0 else numbers[|numbers| - 1] as int + 1
  }

  /** How many numbers are not one above their predecessor, the first not zero. */
  function Breaks(numbers: seq<uint32>): nat {
    if numbers == [] then 0
    else
      var init := numbers[..|numbers| - 1];
      Breaks(init) + if numbers[|numbers| - 1] == NextExpected(init) then 0 else 1
  }

  /** The breaks on the first n queues. */
  function AllBreaks(packets: seq<Packet>, n: nat): nat {
    if n == 0 then 0 else AllBreaks(packets, n - 1) + Breaks(OnQueue(packets, n - 1))
  }

  /** A sequence without breaks counts up from zero, and the other way round. */
  lemma {:induction false} NoBreaksIff(numbers: seq<uint32>)
    ensures Breaks(numbers) == 0 <==> forall i :: 0 <= i < |numbers| ==> numbers[i] == i
  {
    if numbers != [] {
      var init := numbers[..|numbers| - 1];
      NoBreaksIff(init);
      if forall i :: 0 <= i < |numbers| ==> numbers[i] == i {
        assert forall i :: 0 <= i < |init| ==> init[i] == numbers[i];
      }
    }
  }

  /** Sequence numbers are 32 bits but the expected one is not: the correct successor of a
      number counts as a break exactly after the largest number, and then so does any other. */
  lemma WrapIsABreak(numbers: seq<uint32>, next: uint32)
    requires numbers != []
    ensures next == (numbers[|numbers| - 1] as int + 1) % TWO_32 ==>
              Breaks(numbers + [next]) == Breaks(numbers) + if numbers[|numbers| - 1] == 0xFFFF_FFFF then 1 else 0
    ensures numbers[|numbers| - 1] == 0xFFFF_FFFF ==> Breaks(numbers + [next]) == Breaks(numbers) + 1
  {
    assert (numbers + [next])[..|numbers|] == numbers;
  }

  lemma NextWrap(n: nat)
    requires n > 0
    ensures n / TWO_32 == (n - 1) / TWO_32 + if (n - 1) % TWO_32 == 0xFFFF_FFFF then 1 else 0
    ensures n % TWO_32 == ((n - 1) % TWO_32 + 1) % TWO_32
  {
  }

  /** A sender that counts up from zero modulo 2^32 meets one break for every wrap. */
  lemma {:induction false} BreaksOfCounting(numbers: seq<uint32>)
    requires numbers != [] && forall i :: 0 <= i < |numbers| ==> numbers[i] == i % TWO_32
    ensures Breaks(numbers) == (|numbers| - 1) / TWO_32
  {
    var last := |numbers| - 1;
    var init := numbers[..last];
    assert numbers == init + [numbers[last]];
    if last > 0 {
      BreaksOfCounting(init);
      NextWrap(last);
      assert init[last - 1] == (last - 1) % TWO_32 && numbers[last] == last % TWO_32;
      WrapIsABreak(init, numbers[last]);
    }
  }

  /** So it meets none exactly while it has sent no more than 2^32 packets. */
  lemma NoBreaksWhileCounting(numbers: seq<uint32>)
    requires forall i :: 0 <= i < |numbers| ==> numbers[i] == i % TWO_32
    ensures Breaks(numbers) == 0 <==> |numbers| <= TWO_32
  {
    if numbers != [] {
      BreaksOfCounting(numbers);
    }
  }

  /** A packet that does not reach the check on a queue has no part in that queue's numbers. */
  lemma {:induction false} OtherPacketsDoNotMatter(before: seq<Packet>, p: Packet, after: seq<Packet>, q: nat)
    requires !(Framed(p) && p.header.queue == q)
    ensures OnQueue(before + [p] + after, q) == OnQueue(before + after, q)
  {
    if after == [] {
      assert before + [p] + after == before + [p] && before + after == before;
      assert (before + [p])[..|before|] == before;
    } else {
      var init := after[..|after| - 1];
      OtherPacketsDoNotMatter(before, p, init, q);
      assert (before + [p] + after)[..|before + [p] + after| - 1] == before + [p] + init;
      assert (before + after)[..|before + after| - 1] == before + init;
    }
  }

  /** The parser's sequence state is that of the packets so far. */
  ghost predicate SequencesAre(packets: seq<Packet>, next: seq<nat>, rx: seq<nat>) {
    && |next| == |rx| == QUEUES
    && (forall q: nat :: q < QUEUES ==> next[q] == NextExpected(OnQueue(packets, q)))
    && (forall q: nat :: q < QUEUES ==> rx[q] == |OnQueue(packets, q)|)
  }

  lemma QueueGrows(packets: seq<Packet>, p: Packet, q: nat)
    requires Framed(p)
    ensures var h, s := p.header, OnQueue(packets, q);
            if h.queue == q
            then OnQueue(packets + [p], q) == s + [h.seqNum]
                 && Breaks(s + [h.seqNum]) == Breaks(s) + (if h.seqNum == NextExpected(s) then 0 else 1)
            else OnQueue(packets + [p], q) == s
  {
    assert (packets + [p])[..|packets|] == packets;
    var s, n := OnQueue(packets, q), p.header.seqNum;
    assert (s + [n])[..|s|] == s;
    assert s + [] == s;
  }

  lemma BreaksOnQueue(packets: seq<Packet>, p: Packet, q: nat)
    requires Framed(p)
    ensures Breaks(OnQueue(packets + [p], q)) == Breaks(OnQueue(packets, q)) +
              if p.header.queue == q && p.header.seqNum != NextExpected(OnQueue(packets, q)) then 1 else 0
  {
    QueueGrows(packets, p, q);
  }

  lemma {:induction false} BreaksGrow(packets: seq<Packet>, p: Packet, n: nat)
    requires Framed(p)
    ensures AllBreaks(packets + [p], n) == AllBreaks(packets, n) +
              if p.header.queue < n && p.header.seqNum != NextExpected(OnQueue(packets, p.header.queue)) then 1 else 0
  {
    if n > 0 {
      BreaksGrow(packets, p, n - 1);
      BreaksOnQueue(packets, p, n - 1);
      if p.header.queue == n - 1 {
        assert OnQueue(packets, n - 1) == OnQueue(packets, p.header.queue);
      }
    }
  }

  /** One packet more on a queue, and a break when its number is not the expected one. */
  lemma FramedKeeps(packets: seq<Packet>, p: Packet, h: Header, next: seq<nat>, rx: seq<nat>, n: nat)
    requires SequencesAre(packets, next, rx) && Framed(p) && h == p.header && h.queue < n
    ensures SequencesAre(packets + [p], next[h.queue := h.seqNum + 1], rx[h.queue := rx[h.queue] + 1])
    ensures AllBreaks(packets + [p], n) == AllBreaks(packets, n) + if h.seqNum != next[h.queue] then 1 else 0
  {
    BreaksGrow(packets, p, n);
    var next', rx' := next[h.queue := h.seqNum + 1], rx[h.queue := rx[h.queue] + 1];
    forall q: nat | q < QUEUES
      ensures next'[q] == NextExpected(OnQueue(packets + [p], q)) && rx'[q] == |OnQueue(packets + [p], q)|
    {
      QueueGrows(packets, p, q);
    }
  }

  lemma {:induction false} UnframedKeeps(packets: seq<Packet>, p: Packet, next: seq<nat>, rx: seq<nat>, n: nat)
    requires SequencesAre(packets, next, rx) && !Framed(p)
    ensures SequencesAre(packets + [p], next, rx) && AllBreaks(packets + [p], n) == AllBreaks(packets, n)
  {
    forall q: nat ensures OnQueue(packets + [p], q) == OnQueue(packets, q) {
      OtherPacketsDoNotMatter(packets, p, [], q);
      assert packets + [p] + [] == packets + [p] && packets + [] == packets;
    }
    if n > 0 {
      UnframedKeeps(packets, p, next, rx, n - 1);
    }
  }

  /** The sequence state: expected numbers and packet counts by queue, and the errors. */
  datatype Sequences = Sequences(next: seq<nat>, rx: seq<nat>, errors: nat)

  /** A packet that is turned away early changes nothing; any other one is counted on its
      queue, sets the number expected next, and is an error unless it was expected. */
  ghost function SequenceAfter(s: Sequences, p: Packet): Sequences
    requires |s.next| == |s.rx| == QUEUES
  {
    if !Framed(p) then s
    else
      var q, n := p.header.queue, p.header.seqNum;
      Sequences(s.next[q := n + 1], s.rx[q := s.rx[q] + 1], s.errors + if n == s.next[q] then 0 else 1)
  }

  class Parser {
    const nextSeqNum: array<nat>
    const oqRxPackets: array<nat>
    const time: EssTime.ReferenceTime
    var maxPulseTimeDiff: int
    // the payload of the current packet, as an offset and a length
    var dataStart: nat
    var dataLength: nat
    // ESSHeaderStats
    var errorBuffer: nat
    var errorSize: nat
    var errorVersion: nat
    var errorCookie: nat
    var errorPad: nat
    var errorOutputQueue: nat
    var errorTypeSubType: nat
    var errorTiming: nat
    var errorTimeStatus: nat
    var errorEvenFibreSync: nat
    var errorOddFibreSync: nat
    var errorSeqNum: nat
    var errorTimeHigh: nat
    var errorTimeFrac: nat
    var version0Header: nat
    var version1Header: nat
    var heartBeats: nat
    // the packets validated so far
    ghost var packets: seq<Packet>

    ghost predicate Valid()
      reads `packets, `errorSeqNum, nextSeqNum, oqRxPackets
      reads `errorBuffer, `errorSize, `errorVersion, `errorCookie, `errorPad, `errorOutputQueue, `errorTypeSubType
    {
      && nextSeqNum != oqRxPackets
      && SequencesAre(packets, nextSeqNum[..], oqRxPackets[..])
      && errorSeqNum == AllBreaks(packets, nextSeqNum.Length)
      && FramingErrors() + Sum(oqRxPackets[..]) == |packets|
    }

    /** Packets turned away before the sequence check. */
    function FramingErrors(): nat
      reads `errorBuffer, `errorSize, `errorVersion, `errorCookie, `errorPad, `errorOutputQueue, `errorTypeSubType
    {
      errorBuffer + errorSize + errorVersion + errorCookie + errorPad + errorOutputQueue + errorTypeSubType
    }

    constructor ()
      ensures Valid() && packets == [] && maxPulseTimeDiff == 0
      ensures fresh(nextSeqNum) && fresh(oqRxPackets) && fresh(time)
    {
      nextSeqNum := new nat[QUEUES](_ => 0);
      oqRxPackets := new nat[QUEUES](_ => 0);
      time := new EssTime.ReferenceTime();
      maxPulseTimeDiff, dataStart, dataLength := 0, 0, 0;
      errorBuffer, errorSize, errorVersion, errorCookie, errorPad := 0, 0, 0, 0, 0;
      errorOutputQueue, errorTypeSubType := 0, 0;
      errorTiming, errorTimeStatus, errorEvenFibreSync, errorOddFibreSync := 0, 0, 0, 0;
      errorSeqNum, errorTimeHigh, errorTimeFrac, version0Header, version1Header, heartBeats := 0, 0, 0, 0, 0, 0;
      packets := [];
      new;
      SumZeros(oqRxPackets[..]);
      NoPackets(nextSeqNum.Length);
    }

    method SetMaxPulseTimeDiff(maxTimeDiff: uint32)
      modifies `maxPulseTimeDiff
      ensures maxPulseTimeDiff == maxTimeDiff
    {
      maxPulseTimeDiff := maxTimeDiff;
    }

    /** The checks before the sequence number, each with its own counter. */
    method CheckFraming(p: Packet) returns (r: Verdict)
      modifies `errorBuffer, `errorSize, `errorVersion, `errorCookie, `errorPad, `errorOutputQueue, `errorTypeSubType
      modifies `version0Header, `version1Header
      ensures r == OK <==> Framed(p)
      ensures r == EBUFFER <==> p.size == 0
      ensures r == ESIZE <==> p.size > 0 && (!SizeInRange(p) || (Marked(p) && !RightLength(p)))
      ensures 0 < p.size < 5 || p.size > 8972 ==> r == ESIZE
      ensures 5 <= p.size <= 8972 && (p.pad != 0 || p.version > 1 || p.cookie != 0x535345) ==> r == EHEADER
      ensures FramingErrors() == old(FramingErrors()) + if Framed(p) then 0 else 1
      ensures version0Header == old(version0Header) + if Complete(p) && p.version == 0 then 1 else 0
      ensures version1Header == old(version1Header) + if Complete(p) && p.version == 1 then 1 else 0
      ensures errorBuffer == old(errorBuffer) + if p.size == 0 then 1 else 0
      ensures errorPad == old(errorPad) + if SizeInRange(p) && p.pad != 0 then 1 else 0
      ensures errorVersion == old(errorVersion) + if SizeInRange(p) && p.pad == 0 && p.version > 1 then 1 else 0
      ensures errorCookie ==
                old(errorCookie) + if SizeInRange(p) && p.pad == 0 && p.version <= 1 && !Marked(p) then 1 else 0
      ensures errorTypeSubType ==
                old(errorTypeSubType) + if RightLength(p) && p.header.typ != p.expectedType then 1 else 0
      ensures errorOutputQueue == old(errorOutputQueue) +
                if RightLength(p) && p.header.typ == p.expectedType && p.header.queue >= QUEUES then 1 else 0
    {
      if p.size == 0 {
        errorBuffer := errorBuffer + 1;
        return EBUFFER;
      }
      if p.size < MIN_DATA_SIZE || p.size > MAX_UDP_DATA_SIZE {
        errorSize := errorSize + 1;
        return ESIZE;
      }
      if p.pad != 0 {
        errorPad := errorPad + 1;
        return EHEADER;
      }
      if p.version != 0 && p.version != 1 {
        errorVersion := errorVersion + 1;
        return EHEADER;
      }
      if p.cookie != 0x535345 {
        errorCookie := errorCookie + 1;
        return EHEADER;
      }
      r := CheckHeader(p);
    }

    method CheckHeader(p: Packet) returns (r: Verdict)
      requires SizeInRange(p) && Marked(p)
      modifies `errorSize, `errorOutputQueue, `errorTypeSubType, `version0Header, `version1Header
      ensures r == OK <==> Framed(p)
      ensures r != EBUFFER
      ensures r == ESIZE <==> !RightLength(p)
      ensures FramingErrors() == old(FramingErrors()) + if Framed(p) then 0 else 1
      ensures version0Header == old(version0Header) + if Complete(p) && p.version == 0 then 1 else 0
      ensures version1Header == old(version1Header) + if Complete(p) && p.version == 1 then 1 else 0
      ensures errorTypeSubType ==
                old(errorTypeSubType) + if RightLength(p) && p.header.typ != p.expectedType then 1 else 0
      ensures errorOutputQueue == old(errorOutputQueue) +
                if RightLength(p) && p.header.typ == p.expectedType && p.header.queue >= QUEUES then 1 else 0
    {
      if p.version == 0 && p.size < HeaderSize(0) {
        errorSize := errorSize + 1;
        return ESIZE;
      }
      if p.version == 1 && p.size < HeaderSize(1) {
        errorSize := errorSize + 1;
        return ESIZE;
      }
      if p.version == 0 {
        version0Header := version0Header + 1;
      } else {
        version1Header := version1Header + 1;
      }
      var h := p.header;
      if p.size != h.totalLength || h.totalLength < HeaderSize(p.version) {
        errorSize := errorSize + 1;
        return ESIZE;
      }
      if h.typ != p.expectedType {
        errorTypeSubType := errorTypeSubType + 1;
        return EHEADER;
      }
      if h.queue >= QUEUES {
        errorOutputQueue := errorOutputQueue + 1;
        return EHEADER;
      }
      return OK;
    }

    /** Counts the packet on its queue and compares its sequence number. */
    method CheckSequence(h: Header)
      requires nextSeqNum.Length == oqRxPackets.Length == QUEUES && nextSeqNum != oqRxPackets && h.queue < QUEUES
      modifies `errorSeqNum, nextSeqNum, oqRxPackets
      ensures oqRxPackets[..] == old(oqRxPackets[..])[h.queue := old(oqRxPackets[h.queue]) + 1]
      ensures nextSeqNum[..] == old(nextSeqNum[..])[h.queue := h.seqNum + 1]
      ensures errorSeqNum == old(errorSeqNum) + if h.seqNum != old(nextSeqNum[h.queue]) then 1 else 0
    {
      oqRxPackets[h.queue] := oqRxPackets[h.queue] + 1;
      if nextSeqNum[h.queue] != h.seqNum {
        errorSeqNum := errorSeqNum + 1;
        nextSeqNum[h.queue] := h.seqNum;
      }
      nextSeqNum[h.queue] := nextSeqNum[h.queue] + 1;
    }

    /** Every bad flag of the time source is counted. */
    method CheckTimeSource(ts: uint8) returns (bad: bool)
      modifies `errorTiming, `errorTimeStatus, `errorEvenFibreSync, `errorOddFibreSync
      ensures bad <==> TimeSourceBad(ts)
      ensures errorTiming == old(errorTiming) + if !Flag(ts, 1) && Flag(ts, 2) then 1 else 0
      ensures errorTimeStatus == old(errorTimeStatus) + if !Flag(ts, 1) && Flag(ts, 8) then 1 else 0
      ensures errorEvenFibreSync == old(errorEvenFibreSync) + if Flag(ts, 32) then 1 else 0
      ensures errorOddFibreSync == old(errorOddFibreSync) + if Flag(ts, 128) then 1 else 0
    {
      bad := false;
      if !Flag(ts, 1) && Flag(ts, 2) {
        errorTiming := errorTiming + 1;
        bad := true;
      }
      if !Flag(ts, 1) && Flag(ts, 8) {
        errorTimeStatus := errorTimeStatus + 1;
        bad := true;
      }
      if Flag(ts, 32) {
        errorEvenFibreSync := errorEvenFibreSync + 1;
        bad := true;
      }
      if Flag(ts, 128) {
        errorOddFibreSync := errorOddFibreSync + 1;
        bad := true;
      }
    }

    /** The reference times are taken over before they are compared: a packet whose pulses are
        too far apart is rejected but leaves its times behind. */
    method CheckTimes(h: Header) returns (ok: bool)
      modifies `errorTiming, `errorTimeStatus, `errorEvenFibreSync, `errorOddFibreSync, `errorTimeFrac,
               `errorTimeHigh, time
      ensures ok <==> !TimeSourceBad(h.timeSource) && PulsesInRange(h) && PulsesClose(h, maxPulseTimeDiff)
      ensures ok <==>
                && !TimeSourceBad(h.timeSource) && h.pulse.low < 88_052_500 && h.prevPulse.low < 88_052_500
                && EssTime.ToNS(h.pulse) - EssTime.ToNS(h.prevPulse) <= maxPulseTimeDiff
      ensures time.maxTOF == old(time.maxTOF) && time.Counts() == old(time.Counts())
      ensures if !TimeSourceBad(h.timeSource) && PulsesInRange(h)
              then time.timeInNS == EssTime.ToNS(h.pulse) && time.prevTimeInNS == EssTime.ToNS(h.prevPulse)
              else time.timeInNS == old(time.timeInNS) && time.prevTimeInNS == old(time.prevTimeInNS)
      ensures errorTimeFrac == old(errorTimeFrac) + if !TimeSourceBad(h.timeSource) && !PulsesInRange(h) then 1 else 0
      ensures errorTimeHigh == old(errorTimeHigh) +
                if !TimeSourceBad(h.timeSource) && PulsesInRange(h) && !PulsesClose(h, maxPulseTimeDiff) then 1 else 0
    {
      var bad := CheckTimeSource(h.timeSource);
      if bad {
        return false;
      }
      if h.pulse.low > MAX_FRAC_TIME_COUNT {
        errorTimeFrac := errorTimeFrac + 1;
        return false;
      }
      if h.prevPulse.low > MAX_FRAC_TIME_COUNT {
        errorTimeFrac := errorTimeFrac + 1;
        return false;
      }
      var reference := time.SetReference(h.pulse);
      var previous := time.SetPrevReference(h.prevPulse);
      if reference - previous > maxPulseTimeDiff {
        errorTimeHigh := errorTimeHigh + 1;
        return false;
      }
      return true;
    }

    /** Accepts exactly the well-formed packets with acceptable times; every packet is counted
        either by one framing error or on its queue, and the sequence state stays that of the
        packets seen. */
    method Validate(bytes: seq<uint8>, expectedType: uint8) returns (r: Verdict)
      requires Valid()
      modifies this, nextSeqNum, oqRxPackets, time
      ensures Valid() && maxPulseTimeDiff == old(maxPulseTimeDiff)
      ensures var p := Open(bytes, expectedType);
              && packets == old(packets) + [p]
              && (r == OK <==> Framed(p) && TimesAcceptable(p.header, maxPulseTimeDiff))
              && (r == EBUFFER <==> bytes == [])
              && (Framed(p) && r != OK ==> r == EHEADER)
              && SequenceState() == SequenceAfter(old(SequenceState()), p)
              && (Framed(p) ==> dataStart == HeaderSize(p.version) && dataStart + dataLength == |bytes|)
              && Pulses() == PulsesAfter(old(Pulses()), p)
              && heartBeats == old(heartBeats) + if r == OK && |bytes| == HeaderSize(p.version) then 1 else 0
      ensures |bytes| >= 30 ==> HasFields(packets[|old(packets)|].header, bytes)
      ensures r == OK ==>
                && 30 <= |bytes| && dataStart == (if bytes[1] == 1 then 32 else 30)
                && dataStart + dataLength == |bytes|
    {
      r := ValidatePacket(Open(bytes, expectedType));
    }

    function Pulses(): PulseTimes
      reads time`timeInNS, time`prevTimeInNS
    {
      PulseTimes(time.timeInNS, time.prevTimeInNS)
    }

    ghost function SequenceState(): Sequences
      reads nextSeqNum, oqRxPackets, `errorSeqNum
    {
      Sequences(nextSeqNum[..], oqRxPackets[..], errorSeqNum)
    }

    method ValidatePacket(p: Packet) returns (r: Verdict)
      requires Valid()
      modifies this, nextSeqNum, oqRxPackets, time
      ensures Valid() && maxPulseTimeDiff == old(maxPulseTimeDiff)
      ensures packets == old(packets) + [p]
      ensures r == OK <==> Framed(p) && TimesAcceptable(p.header, maxPulseTimeDiff)
      ensures Framed(p) && r != OK ==> r == EHEADER
      ensures r == EBUFFER <==> p.size == 0
      ensures SequenceState() == SequenceAfter(old(SequenceState()), p)
      ensures Framed(p) ==> dataStart == HeaderSize(p.version) && dataStart + dataLength == p.size
      ensures Pulses() == PulsesAfter(old(Pulses()), p)
      ensures heartBeats == old(heartBeats) + if r == OK && p.size == HeaderSize(p.version) then 1 else 0
    {
      r := Frame(p);
      if r == OK {
        r := Admit(p);
      }
    }

    /** A framed packet joins its queue, and only then is its content checked. */
    method Admit(p: Packet) returns (r: Verdict)
      requires Valid() && Framed(p)
      modifies `errorSeqNum, `packets, nextSeqNum, oqRxPackets, `dataStart, `dataLength, `heartBeats, time
      modifies `errorTiming, `errorTimeStatus, `errorEvenFibreSync, `errorOddFibreSync, `errorTimeFrac, `errorTimeHigh
      ensures Valid() && packets == old(packets) + [p]
      ensures SequenceState() == SequenceAfter(old(SequenceState()), p)
      ensures r == if TimesAcceptable(p.header, maxPulseTimeDiff) then OK else EHEADER
      ensures dataStart == HeaderSize(p.version) && dataStart + dataLength == p.size
      ensures Pulses() == PulsesAfter(old(Pulses()), p)
      ensures heartBeats == old(heartBeats) + if r == OK && p.size == HeaderSize(p.version) then 1 else 0
    {
      Enqueue(p);
      r := CheckContent(p);
    }

    /** A packet that is turned away is done with; another one is still to join its queue. */
    method Frame(p: Packet) returns (r: Verdict)
      requires Valid()
      modifies `packets, `errorBuffer, `errorSize, `errorVersion, `errorCookie, `errorPad, `errorOutputQueue,
               `errorTypeSubType
      modifies `version0Header, `version1Header
      ensures Valid() && packets == old(packets) + if Framed(p) then [] else [p]
      ensures r == OK <==> Framed(p)
      ensures r == EBUFFER <==> p.size == 0
    {
      r := CheckFraming(p);
      if r != OK {
        Reject(p);
      }
    }

    /** The packet leaves no trace but its counter. */
    ghost method Reject(p: Packet)
      requires nextSeqNum != oqRxPackets && SequencesAre(packets, nextSeqNum[..], oqRxPackets[..]) && !Framed(p)
      requires errorSeqNum == AllBreaks(packets, nextSeqNum.Length)
               && FramingErrors() + Sum(oqRxPackets[..]) == |packets| + 1
      modifies `packets
      ensures Valid() && packets == old(packets) + [p]
    {
      UnframedKeeps(packets, p, nextSeqNum[..], oqRxPackets[..], nextSeqNum.Length);
      packets := packets + [p];
    }

    /** The checks after the sequence number, and where the payload is. */
    method CheckContent(p: Packet) returns (r: Verdict)
      requires Framed(p)
      modifies `dataStart, `dataLength, `heartBeats, time
      modifies `errorTiming, `errorTimeStatus, `errorEvenFibreSync, `errorOddFibreSync, `errorTimeFrac, `errorTimeHigh
      ensures r == if TimesAcceptable(p.header, maxPulseTimeDiff) then OK else EHEADER
      ensures dataStart == HeaderSize(p.version) && dataStart + dataLength == p.size
      ensures Pulses() == PulsesAfter(old(Pulses()), p)
      ensures heartBeats == old(heartBeats) + if r == OK && p.size == HeaderSize(p.version) then 1 else 0
    {
      if p.version == 1 {
        dataStart, dataLength := HeaderSize(1), p.header.totalLength - HeaderSize(1);
      } else {
        dataStart, dataLength := HeaderSize(0), p.header.totalLength - HeaderSize(0);
      }
      var ok := CheckTimes(p.header);
      if !ok {
        return EHEADER;
      }
      if p.header.totalLength == HeaderSize(p.version) {
        heartBeats := heartBeats + 1;
      }
      return OK;
    }

    /** The packet joins its queue. */
    method Enqueue(p: Packet)
      requires Valid() && Framed(p)
      modifies `errorSeqNum, `packets, nextSeqNum, oqRxPackets
      ensures Valid() && packets == old(packets) + [p]
      ensures SequenceState() == SequenceAfter(old(SequenceState()), p)
    {
      ghost var next: seq<nat>, rx: seq<nat> := nextSeqNum[..], oqRxPackets[..];
      var h := p.header;
      CheckSequence(h);
      assert nextSeqNum[..] == next[h.queue := h.seqNum + 1] && oqRxPackets[..] == rx[h.queue := rx[h.queue] + 1];
      FramedKeeps(packets, p, h, next, rx, nextSeqNum.Length);
      SumUpdate(rx, h.queue, rx[h.queue] + 1);
      packets := packets + [p];
    }
  }

  lemma {:induction false} NoPackets(n: nat)
    ensures AllBreaks([], n) == 0
  {
    if n > 0 {
      NoPackets(n - 1);
    }
  }

  /** A packet of a header alone, of version 0. */
  function HeaderOnly(h: Header): Packet {
    Packet(30, 0, 0, 0x535345, h, h.typ)
  }

  /** Writes the header of a heartbeat. */
  method MakeHeartbeat(h: Header) returns (bytes: seq<uint8>)
    requires h.totalLength == 30 && h.queue < QUEUES
    ensures Open(bytes, h.typ) == HeaderOnly(h) && Framed(HeaderOnly(h))
  {
    bytes := [];
    for i := 0 to 30
      invariant |bytes| == i && forall k: nat :: k < i ==> bytes[k] == HeaderByte(HeaderOnly(h), k)
    {
      bytes := bytes + [HeaderByte(HeaderOnly(h), i)];
    }
    OpensAsEncoded(bytes, HeaderOnly(h));
  }

  /** A number on a queue and its successor modulo 2^32, when that is 0. */
  method ValidateWrap(last: seq<uint8>, next: seq<uint8>, expectedType: uint8) returns (before: nat, after: nat)
    requires Framed(Open(last, expectedType)) && Framed(Open(next, expectedType))
    requires Open(last, expectedType).header.queue == Open(next, expectedType).header.queue
    requires Open(last, expectedType).header.seqNum == 0xFFFF_FFFF && Open(next, expectedType).header.seqNum == 0
    ensures after == before + 1
  {
    var parser := new Parser();
    var _ := parser.Validate(last, expectedType);
    before := parser.errorSeqNum;
    var _ := parser.Validate(next, expectedType);
    after := parser.errorSeqNum;
  }

  /** A parser that has just seen sequence number 4294967295 counts its successor, 0, as an error. */
  method CountWrap() returns (before: nat, after: nat)
    ensures after == before + 1
  {
    var pulse, prevPulse := EssTime.Stamp(0x0403_0201, 0x0005_0607), EssTime.Stamp(0x0F0E_0D0C, 0x0008_090A);
    var last := MakeHeartbeat(Header(0x34, 30, 3, 65, pulse, prevPulse, 0xFFFF_FFFF));
    var next := MakeHeartbeat(Header(0x34, 30, 3, 65, pulse, prevPulse, 0));
    before, after := ValidateWrap(last, next, 0x34);
  }

  method ValidateFarPulses(bytes: seq<uint8>, expectedType: uint8) returns (r: Verdict, current: int)
    requires var p := Open(bytes, expectedType);
             && Framed(p) && !TimeSourceBad(p.header.timeSource) && PulsesInRange(p.header)
             && EssTime.ToNS(p.header.pulse) > EssTime.ToNS(p.header.prevPulse)
    ensures r == EHEADER && current == EssTime.ToNS(Open(bytes, expectedType).header.pulse)
  {
    var parser := new Parser();
    r := parser.Validate(bytes, expectedType);
    current := parser.time.timeInNS;
  }

  /** A packet with pulses five seconds apart is rejected, and its times are in force. */
  method RejectedTimesStay() returns (r: Verdict, current: int)
    ensures r == EHEADER && current == 12_000_000_000 + 34_070
  {
    var bytes := MakeHeartbeat(Header(0x34, 30, 3, 65, EssTime.Stamp(12, 3000), EssTime.Stamp(7, 3000), 0x0D0C_0B0A));
    r, current := ValidateFarPulses(bytes, 0x34);
  }
}
