# A verified model of the event formation pipeline

The event formation unit receives detector readouts over UDP, hands them from an input
thread to a processing thread, clusters hits into events, and publishes events and
histograms. This project models the stateful parts of that pipeline in Dafny and proves
what they promise, for every input, every run and, where two threads are involved, every
interleaving. `dafny verify dfyconfig.toml` checks all of it.

| module | models |
|---|---|
| `HandOff` | the input thread, the packet ring and the lock-free FIFO together with the processing thread, one atomic load, store or byte at a time |
| `SpscFifo`, `RingBuffer`, `RingIndex` | the FIFO and the packet ring as objects used by one thread at a time, and circular positions |
| `ChronoMerger` | the merge of several event sources within a maximum latency |
| `BitMath`, `FixedSizePool`, `PoolAllocator` | the power-of-two trick, the slot pool with its free stack, byte patterns and statistics, and the allocator that falls back to malloc |
| `EV44Serializer`, `HistogramSerializer` | the two batching serializers: event messages and DA00 histograms |
| `Reduction` | clusters with their cached sums, bounds and indices, and two-plane events |
| `EssTime` | timestamps with the clock tick of exactly 400000/35221 ns, tick arithmetic, times of flight |
| `HeaderParser` | validation of readout headers and the sequence state of the output queues |
| `NmxInstrument` | the filter chain from events to the serializer, and its counters |
| `Basics`, `Multiples` | machine integers, sums of sequences, products as repeated steps |

Parts that the program updates in place are classes with the program's fields; each
method is proved against a reference that does no buffering or caching (the list of calls
made, the list of hits, the list of packets), kept in a ghost field. What the program
promises over a whole run is then a statement about that list. The two threads of the
hand-off are one state machine, and a run is a schedule: a sequence saying which thread
moves next. Long methods are split into named parts, in the program's order wherever it
matters.

Asserts of the pool are modelled as failed results. Exceptions and divisions by zero are
results as well. The wall clock, the network and the Kafka producer are parameters (what
`receive` returns, what `malloc` returns) or ghost lists (the messages the callback
received).

Results that say where the program falls short of its own description:

- The ring must have at least two entries more than the FIFO; the program's eleven are
  enough, and with one fewer than two some schedule has the input thread clear a packet
  that is about to be read, which is then lost (`HandOff.SafeIffRoomy`,
  `HandOff.TightRingLoses`, `HandOff.NoLossIffRoomy`).
- `Cluster::merge` is documented to clear the other cluster. It does so exactly when both
  clusters have hits, or the other's plane and sums were already those of a cleared cluster
  (`Reduction.Cluster.Merge`); reusing a cluster merged into an empty one counts weight
  that is not there (`Reduction.ReuseAfterMerge`).
- Merging leaves the receiver's µTPC indices alone. The hit they choose has the largest time
  exactly if the other cluster ends no later (`Reduction.MergedUtpcIff`,
  `Reduction.Cluster.UtpcAtLargestTimeIff`); the matcher of the NMX instrument merges
  clusters of one plane in the order of their start
  (`src/common/reduction/matching/GapMatcher.cpp:36-58`), so that a pixel need not be that
  of the last hits (`NmxInstrument.PixelAtLargestTimesIff`, and with concrete clusters
  `NmxInstrument.PixelOfEarlierCluster`). The earliest and the latest coordinate are kept in
  the same way (`Reduction.MergeKeepsEarliestIff`, `Reduction.MergeKeepsCoordLatestIff`).
- `coordSpan` is cut to 16 bits: hits at both ends of the range make the span zero and hide
  every gap (`Reduction.FullRangeHidesGap`, `Reduction.GapIffUnhit`, and with concrete hits
  `Reduction.HiddenGap`). It takes a hit at 65535, the invalid coordinate: the NMX and Freia
  instruments drop such hits (`src/modules/nmx/NMXInstrument.cpp:133-138`,
  `src/modules/freia/FreiaInstrument.cpp:141-143`), so only another caller of
  `Cluster::insert` can meet it, and below that coordinate the rule has no exception
  (`Reduction.GapOfValidCoordinates`).
- A time built from nanoseconds is normalised exactly when the nanoseconds within the
  second are below 999999995; later ones round up to a full second that is not carried
  (`EssTime.FromNSNormalIff`, `EssTime.UncarriedSecond`).
- The expected sequence number is wider than the one in the header: the wrap from
  4294967295 to 0, and no other correct successor, counts as an error
  (`HeaderParser.WrapIsABreak`, `HeaderParser.BreaksOfCounting`, and at a parser
  `HeaderParser.CountWrap`).
- A pool block of no bytes cannot be given back (`PoolAllocator.Allocator.AllocateAndFree`,
  `PoolAllocator.EmptyBlock`).
- A histogram produced before its window is full carries frame totals left from the window
  before, and what it sends is missing from the bins of the window's own message, but not
  from its frame totals (`HistogramSerializer.SendingBalance`,
  `HistogramSerializer.MessagesBalance`, `HistogramSerializer.EarlyLoss`); the bins are
  unchanged exactly if the early events leave a sum of zero in each
  (`HistogramSerializer.EarlyLossIff`). The program's own loops do not make that call.
- The average over a bin divides a signed 32-bit sum by an unsigned count: it is the mean
  exactly if the sum is not negative, the count is 1, or it is so large that both are 0
  (`HistogramSerializer.AverageIsMeanIff`).
- A packet whose pulse times are too far apart is rejected but its times stay in force
  (`HeaderParser.Parser.Validate`, `HeaderParser.RejectedTimesStay`).

## Model

| member | source | states |
|---|---|---|
| HandOff.Step | src/common/detector/Detector.cpp:40-89 | every step of either thread (load tail, load head, store cell, store tail, next buffer, byte by byte receive and read) is defined in every well-formed state and leaves indices within the array and the ring |
| HandOff.StepKeepsInv | src/common/memory/SPSCFifo.h:61-84 | each atomic step of push, pop, fill or read keeps the joint invariant of FIFO indices, queued cells, buffer contents, both program counters and all counters |
| HandOff.RunInv | src/common/detector/Detector.cpp:40-89 | the invariant holds after every schedule of the two threads |
| HandOff.BuffersNeverShared | src/common/detector/Detector.cpp:46-82 | with ring entries >= FIFO size + 2, in every interleaving the buffer being cleared or filled is neither queued nor held by the processing thread |
| HandOff.TightRingShares | src/common/memory/RingBuffer.h:107-111 | with one entry fewer there is a schedule in which the input thread owns a buffer the processing thread holds |
| HandOff.TightRingLoses | src/modules/nmx/NMXBase.cpp:135-147 | two turns later its length is cleared before it is read, and FifoSeqErrors counts a lost packet |
| HandOff.NoLossIffRoomy | src/common/detector/Detector.h:169-180 | FifoSeqErrors stays 0 in all schedules if and only if the ring has two entries more than the FIFO |
| HandOff.SafeIffRoomy | src/common/detector/Detector.h:169-180 | buffers are exclusive in all schedules if and only if the ring has two entries more than the FIFO |
| HandOff.DetectorIsSafe | src/common/detector/Detector.h:169-180 | the sizes in use, 2000 and 2000 + 11, are safe |
| HandOff.QueueContents | src/common/memory/SPSCFifo.h:46-51 | the cells between head and tail name exactly the buffers of packets pushed and not yet popped, oldest first |
| HandOff.FifoIsBoundedQueue | src/common/memory/SPSCFifo.h:61-84 | for every FIFO size and every ring, step by step the circular array refines a queue of at most Size items: only the tail store appends, only the head store removes the oldest, push fails exactly if the queue is full at its head load, pop exactly if it is empty at its tail load |
| HandOff.FirstInFirstOut | src/common/memory/SPSCFifo.h:61-84 | over any schedule, again for every ring, the items pushed are the items popped followed by the items queued, in order |
| HandOff.PacketsDelivered | src/modules/nmx/NMXBase.cpp:135-147 | packets are read in order and byte for byte as received when their push succeeded; FifoSeqErrors stays 0; RxPackets = consumed + held + queued + FifoPushErrors + calibration packets + the one in flight |
| HandOff.ArrivalsAreDatagrams | src/common/detector/Detector.cpp:50-58 | over any schedule the packets that arrive are the datagrams received, in order, each cut to the size of a buffer |
| HandOff.FatesAddUp | src/common/detector/Detector.cpp:54-82 | every packet is queued, dropped or taken by calibration mode, never two of them |
| HandOff.RawPackets | src/common/detector/Detector.cpp:60-75 | over any schedule and for every ring, TxRawReadoutPackets is the number of packets taken by calibration mode and of the others whose number modulo MonitorPeriod is below MonitorSamples |
| HandOff.SampledIff | src/common/detector/Detector.cpp:69-70 | a packet number is sampled exactly if it is less than MonitorSamples above a multiple of MonitorPeriod, below the next one |
| HandOff.SampledPerPeriod | src/common/detector/Detector.cpp:69-70 | any MonitorPeriod consecutive numbers, wherever they start, hold min(MonitorPeriod, MonitorSamples) sampled ones |
| SpscFifo.EmptyAndFull | src/common/memory/SPSCFifo.h:89-101 | head == tail exactly for the empty queue, the next tail == head exactly at Size items, for any indices within the array |
| SpscFifo.TailStoreAppends | src/common/memory/SPSCFifo.h:61-72 | the tail store appends the item that was stored at the tail |
| SpscFifo.HeadStoreRemoves | src/common/memory/SPSCFifo.h:75-84 | the head store removes exactly the item at the head |
| SpscFifo.CircularFifo.constructor | src/common/memory/SPSCFifo.h:35-35 | a new FIFO is an empty queue |
| SpscFifo.CircularFifo.Push | src/common/memory/SPSCFifo.h:61-72 | appends any item exactly if fewer than Size items are queued, otherwise changes nothing |
| SpscFifo.CircularFifo.Pop | src/common/memory/SPSCFifo.h:75-84 | removes and returns the oldest item exactly if there is one, otherwise leaves queue and item alone |
| SpscFifo.CircularFifo.WasEmpty | src/common/memory/SPSCFifo.h:89-92 | true exactly for the empty queue |
| SpscFifo.CircularFifo.WasFull | src/common/memory/SPSCFifo.h:97-101 | true exactly when Size items are queued |
| RingIndex.IncIsModulus | src/common/memory/SPSCFifo.h:119-122 | going back to 0 after the last place is adding one modulo the capacity |
| RingIndex.PosDistinct | src/common/memory/SPSCFifo.h:119-122 | items fewer than the capacity apart never share a place |
| RingBuffer.RingBuffer.constructor | src/common/memory/RingBuffer.h:72-75 | the ring starts at its first buffer, with lengths and bytes as they are found in memory |
| RingBuffer.RingBuffer.GetDataIndex | src/common/memory/RingBuffer.h:82-84 | the current entry, always an existing buffer |
| RingBuffer.RingBuffer.SetDataLength | src/common/memory/RingBuffer.h:100-105 | sets the length of one buffer and touches no other, nor the entry |
| RingBuffer.RingBuffer.GetDataLength | src/common/memory/RingBuffer.h:94-98 | the length last set |
| RingBuffer.RingBuffer.GetNextBuffer | src/common/memory/RingBuffer.h:107-111 | moves to the next buffer around the ring and touches none |
| RingBuffer.ComesRoundAfter | src/common/memory/RingBuffer.h:107-111 | within a round of moves the same buffer comes again exactly at its end |
| ChronoMerger.ReadyIff | src/common/reduction/ChronoMerger.cpp:67-74 | ready holds exactly when the front is older than every module's latest time by more than the latency and not all of them are the largest time |
| ChronoMerger.SortIsStable | src/common/reduction/ChronoMerger.cpp:40-44 | sorting yields a chronological permutation that keeps the order of events with equal times |
| ChronoMerger.InsertKeepsInv | src/common/reduction/ChronoMerger.cpp:23-33 | events within the latency of their module are strictly later than everything already popped |
| ChronoMerger.StepKeepsInv | src/common/reduction/ChronoMerger.cpp:23-65 | insert, batch insert, sync_up, sort and pop when sorted and ready keep the merge invariant |
| ChronoMerger.OutputIsChronological | src/common/reduction/ChronoMerger.cpp:23-74 | over any such run the popped events are in non-decreasing order, inserted = popped + queued as multisets, and whatever is inserted on time later is strictly later than all of them |
| ChronoMerger.LatestIsLargest | src/common/reduction/ChronoMerger.cpp:23-38 | over any run a module's latest time is at least every time inserted into it, and without sync_up it is the largest of them, or the one it started from |
| ChronoMerger.FrontBecomesReady | src/common/reduction/ChronoMerger.cpp:23-74 | progress: over any run, once every module has received an event more than the latency after the front, and none at the largest time stamp, the front is ready |
| ChronoMerger.ReleaseFirst | src/common/reduction/ChronoMerger.cpp:23-74 | with one source and latency 100 the event at 1000 is held back until the event at 2000 arrives, and is then the one taken out |
| ChronoMerger.Merger.Insert | src/common/reduction/ChronoMerger.cpp:23-26 | the event joins the end of the queue; the module's latest time becomes the larger of itself and the event's, no other module's changes; an unknown module is refused and changes nothing |
| ChronoMerger.Merger.InsertBatch | src/common/reduction/ChronoMerger.cpp:28-33 | the whole list moves over in order and the caller's list is left empty; the module's latest time becomes the largest of itself and all times of the list, no other module's changes; an unknown module is noticed at the first event and changes nothing |
| ChronoMerger.Merger.SyncUp | src/common/reduction/ChronoMerger.cpp:35-38 | both modules get the later of their latest times, and nothing else changes |
| ChronoMerger.Merger.Sort | src/common/reduction/ChronoMerger.cpp:40-44 | the queue becomes chronological, keeps its events, and keeps the order of those with equal times |
| ChronoMerger.Merger.Reset | src/common/reduction/ChronoMerger.cpp:46-46 | all latest times become 0 and the queue stays |
| ChronoMerger.Merger.Horizon | src/common/reduction/ChronoMerger.cpp:52-59 | the smallest latest time, or 0 when all are the largest value |
| ChronoMerger.Merger.Ready | src/common/reduction/ChronoMerger.cpp:67-74 | true exactly if the front is older than every latest time by more than the latency and not all of them are the largest time |
| ChronoMerger.Merger.PopEarliest | src/common/reduction/ChronoMerger.cpp:61-65 | takes the front of the queue and nothing else |
| BitMath.NextPowerOfTwo | src/common/math/BitMath.h:24-34 | for n from 1 to 2^63 the shift-or sequence returns a power of two with n <= r < 2n, the least one that covers n; for all other n the last increment overflows to 0 |
| BitMath.NextIsLeast | src/common/math/BitMath.h:24-34 | the power of two above the bits of m is the least that covers m + 1, and less than twice as large |
| BitMath.SlotBytes | src/common/memory/FixedSizePool.h:45-45 | a slot has room for the bytes asked for and for the alignment, is less than twice the larger of them, and no smaller power of two would do |
| BitMath.SmearIsNext | src/common/math/BitMath.h:24-34 | six shift-ors set every bit below the highest, and adding one reaches the power of two above: at most 2^63 for m below 2^63, else 2^64 |
| BitMath.RunDoubles | src/common/math/BitMath.h:26-31 | or-ing a number with itself shifted by the length of its run of leading ones doubles that run |
| FixedSizePool.Pool.constructor | src/common/memory/FixedSizePool.h:109-132 | a new pool has all slots free, each listed once, all statistics zero, and with validation all bytes deleted |
| FixedSizePool.Pool.AllocateSlot | src/common/memory/FixedSizePool.h:134-166 | null exactly if all slots are live, an assert fires only for more than 32 bits of bytes; otherwise a free slot becomes live, with validation its bytes get the allocated pattern and no others change, without it no byte changes |
| FixedSizePool.Pool.Acquire | src/common/memory/FixedSizePool.h:148-155 | popping the free stack keeps it listing exactly the free slots from NumSlotsUsed on, and AllocBytes - DeallocBytes the sum of live sizes |
| FixedSizePool.Pool.DeallocateSlot | src/common/memory/FixedSizePool.h:168-189 | for any address: the slot it lies in is freed exactly if it is live and of non-zero size, other addresses meet an assert; the deleted pattern is written from the address on, so that with validation the pool stays valid for the slot's own pointer, and a pointer into the last slot writes past the pool |
| FixedSizePool.Pool.Release | src/common/memory/FixedSizePool.h:174-184 | pushing the slot on the stack over its stale prefix keeps the books |
| FixedSizePool.Pool.PrepareSlot | src/common/memory/FixedSizePool.h:157-163 | the bytes of a free slot are found deleted and left allocated; other free slots stay deleted |
| FixedSizePool.Pool.PreparedBytes | src/common/memory/FixedSizePool.h:157-163 | after an allocation the bytes of the slot, and no others, are 0xCD with validation, and no byte has changed without |
| FixedSizePool.Pool.DeletedBytes | src/common/memory/FixedSizePool.h:186-188 | after a deallocation one slot's length of bytes from the address on, and no others, are 0xED with validation, and no byte has changed without |
| FixedSizePool.Pool.SetBytes | src/common/memory/FixedSizePool.h:162-162 | fills the length of a slot from an address on and leaves all other bytes |
| FixedSizePool.Pool.WriteByte | src/common/memory/FixedSizePool.h:134-166 | an owner may write any byte of a live slot without touching another slot or breaking the pool |
| FixedSizePool.Pool.Contains | src/common/memory/FixedSizePool.h:191-195 | true exactly for addresses within the pool's bytes |
| FixedSizePool.Pool.ValidateEmptyState | src/common/memory/FixedSizePool.h:197-229 | reports no error exactly if nothing is used and, with validation, no size is left, free slots are unique and every byte is deleted |
| FixedSizePool.Pool.CleanIffNothingLive | src/common/memory/FixedSizePool.h:197-229 | in a pool used only through its operations that is the case exactly when nothing is live |
| FixedSizePool.TakeFreeSlot | src/common/memory/FixedSizePool.h:140-148 | the slot on top of the free stack is free, and the rest of the stack lists the remaining free slots once each |
| FixedSizePool.ReturnSlot | src/common/memory/FixedSizePool.h:175-184 | writing the freed slot below the top restores the list of free slots |
| PoolAllocator.Allocator.Allocate | src/common/memory/PoolAllocator.h:71-88 | a request of sizeof(T) * numElements modulo 2^64 bytes is served by the pool exactly if it fits a slot and a slot is free, otherwise by malloc, which is counted; nothing else changes |
| PoolAllocator.Allocator.Deallocate | src/common/memory/PoolAllocator.h:90-98 | an address in the pool, or one that came from malloc, goes back to where it came from; a pool address succeeds exactly if its slot is live, of non-zero size and the pattern ends within the pool |
| PoolAllocator.Allocator.AllocateAndFree | src/common/memory/PoolAllocator.h:71-98 | allocating and freeing restores live slots and heap, for every byte count; it meets an assert exactly if the pool serves a request of no bytes or of more than 32 bits |
| PoolAllocator.Build | src/common/memory/PoolAllocator.h:21-39 | the pool of a configuration has TotalBytes / (sizeof(T) * ObjectsPerSlot) slots, each with room for ObjectsPerSlot objects and the alignment, and less than twice the larger of them |
| PoolAllocator.EmptyBlock | src/common/memory/FixedSizePool.h:168-178 | a concrete pool whose block of no bytes meets an assert when it is given back |
| EV44Serializer.Serializer.constructor | src/common/kafka/EV44Serializer.cpp:39-72 | starts with no events, no messages and message number 1 |
| EV44Serializer.Serializer.AddEvent | src/common/kafka/EV44Serializer.cpp:138-150 | keeps published + pending = all added events in order, each with 32-bit time and pixel and the reference time it was added under; publishes exactly when the buffer is full |
| EV44Serializer.Serializer.CheckAndSetReferenceTime | src/common/kafka/EV44Serializer.cpp:116-125 | pending events are published under the old reference time, exactly if it changes and there are any |
| EV44Serializer.Serializer.Produce | src/common/kafka/EV44Serializer.cpp:94-112 | publishes the pending events exactly if there are any and leaves none pending |
| EV44Serializer.Serializer.ProducePending | src/common/kafka/EV44Serializer.cpp:94-112 | the published messages gain exactly the pending events, numbered one above the last message, with 1 to MaxEvents events each |
| EV44Serializer.Serializer.Serialize | src/common/kafka/EV44Serializer.cpp:78-92 | stamps the message number and lengths in place, then resets the count and moves to the next number |
| EV44Serializer.PublishOne | src/common/kafka/EV44Serializer.cpp:78-112 | one more message keeps the numbering 1, 2, 3, ... and appends its events |
| HistogramSerializer.PlaceIsOnAxis | src/common/kafka/serializer/DA00HistogramSerializer.h:285-313 | an in-range time belongs to bin i exactly if axis[i] <= time < axis[i+1] |
| HistogramSerializer.DivisionPlaces | src/common/kafka/serializer/DA00HistogramSerializer.h:289-313 | the division by the step finds that bin, the last bin or the drop, as the axis says |
| HistogramSerializer.InitAxis | src/common/kafka/serializer/DA00HistogramSerializer.h:446-466 | the axis has BinCount + 1 edges one bin width apart, 0 included, and the step computed from its ends is that width |
| HistogramSerializer.Published | src/common/kafka/serializer/DA00HistogramSerializer.h:335-440 | the messages of complete windows are a function of the calls alone, direct calls of produce among them: one for every complete window with an event left in the bins; added events = in complete windows + in the open window + dropped |
| HistogramSerializer.MessagesBalance | src/common/kafka/serializer/DA00HistogramSerializer.h:379-426 | every such message is that of one window of AggregatedFrames reference times: it has the last of them, the edges of all bins, every reference time's offset from the first of all and the sum of its events; each bin has the sum of its events left, or with averaging the largest number that times their count is not above it; the frame totals count all events, and summed bins fall short of them by exactly what was sent early |
| HistogramSerializer.SignalTells | src/common/kafka/serializer/DA00HistogramSerializer.h:388-401 | each bin of a message follows from the sum s and the count n of the bin's events left: s itself, or with averaging the a with n * a <= s < n * (a + 1), for a negative s the same of s + 2^32, and 0 for a bin without events |
| HistogramSerializer.EarlyTells | src/common/kafka/serializer/DA00HistogramSerializer.h:388-426 | the same of a message sent by a direct call of produce, whose vectors begin with the offsets and totals of the open window's frames |
| HistogramSerializer.MessagesBalanceWithoutProduce | src/common/kafka/serializer/DA00HistogramSerializer.h:379-426 | over any run without direct calls of produce the bins of every message sum to the same total as its frame totals |
| HistogramSerializer.EarlyLossIff | src/common/kafka/serializer/DA00HistogramSerializer.h:388-401 | early calls of produce leave the bins of the window's own message as they would be exactly if the early events sum to zero in every bin |
| HistogramSerializer.EarlyLoss | src/common/kafka/serializer/DA00HistogramSerializer.h:388-401 | a concrete run: events 7 and 3 with a direct call of produce between them end in a bin of 3 and a frame total of 10 |
| HistogramSerializer.AverageIsMeanIff | src/common/math/NumericalMath.h:39-46 | the average computed from a 32-bit sum and an unsigned count is the truncated mean exactly if the sum is not negative, the count is 1, or the count exceeds the sum read as unsigned |
| HistogramSerializer.AverageBounds | src/common/math/NumericalMath.h:39-46 | the average of a sum that is not negative is its quotient rounded down; of a negative one that of the sum plus 2^32, in 32 bits with sign |
| HistogramSerializer.SignalMatchesTotals | src/common/kafka/serializer/DA00HistogramSerializer.h:318-322 | the frame totals of a window sum to all its events, and the summed bins to those not sent early |
| HistogramSerializer.SendingIsWindow | src/common/kafka/serializer/DA00HistogramSerializer.h:379-440 | what produce sends of the vectors is the open window's message exactly if the window is full or no event is left in the bins, and nothing exactly if none is left |
| HistogramSerializer.SendingBalance | src/common/kafka/serializer/DA00HistogramSerializer.h:388-426 | the bins sum to the open window's events not sent yet, the frame totals to all of them and what is left in the vectors from the window before; both agree exactly if what was sent early and what is left sum to 0 |
| HistogramSerializer.EarlyDrainKeeps | src/common/kafka/serializer/DA00HistogramSerializer.h:388-401 | emptying the bins before the window is full takes the window's events out of the bins and leaves its frame totals and offsets |
| HistogramSerializer.AcceptKeeps | src/common/kafka/serializer/DA00HistogramSerializer.h:315-322 | an accepted event extends the current frame, its bin and its frame total, and keeps all else |
| HistogramSerializer.DropKeeps | src/common/kafka/serializer/DA00HistogramSerializer.h:289-310 | a dropped event moves one drop counter only |
| HistogramSerializer.NextReferenceKeeps | src/common/kafka/serializer/DA00HistogramSerializer.h:348-369 | a new reference time within a window opens the next element with its offset from the first reference time; the working element stays FrameCounter |
| HistogramSerializer.NewWindowReferenceKeeps | src/common/kafka/serializer/DA00HistogramSerializer.h:348-369 | a reference time after a full window publishes that window and starts again at element 0 with empty bins |
| HistogramSerializer.SameReferenceKeeps | src/common/kafka/serializer/DA00HistogramSerializer.h:343-345 | repeating the reference time changes nothing |
| HistogramSerializer.Serializer.constructor | src/common/kafka/serializer/DA00HistogramSerializer.h:196-254 | starts with empty bins and no reference time, also for an axis of no width |
| HistogramSerializer.Build | src/common/kafka/serializer/DA00HistogramSerializer.h:221-236 | each of the three exceptions and the division by a bin count of 0 for exactly its inputs; otherwise a new serializer |
| HistogramSerializer.Serializer.Locate | src/common/kafka/serializer/DA00HistogramSerializer.h:285-313 | the computed bin is the event's place on the axis; an event put into the last bin is counted; the division fails exactly for a time on or past an axis of no width |
| HistogramSerializer.Serializer.AddEvent | src/common/kafka/serializer/DA00HistogramSerializer.h:285-327 | unless that division fails, the event lands in exactly one bin or one drop counter, and all vectors stay those of the calls made |
| HistogramSerializer.Serializer.CheckAndSetReferenceTime | src/common/kafka/serializer/DA00HistogramSerializer.h:335-370 | sets the reference time and keeps vectors, counters and published messages those of the calls made |
| HistogramSerializer.Serializer.DrainBins | src/common/kafka/serializer/DA00HistogramSerializer.h:388-401 | moves every bin's sum, or with averaging its quotient rounded down (for a negative sum, of the sum plus 2^32), out, empties every bin and tells whether any was hit |
| HistogramSerializer.Serializer.Produce | src/common/kafka/serializer/AbstractSerializer.cpp:24-46 | without a reference time only counts the failure; with one sends the vectors as they are if a bin was hit, and empties the bins |
| HistogramSerializer.Serializer.ProduceEarly | src/common/kafka/serializer/AbstractSerializer.cpp:24-46 | a direct call at any time keeps the serializer consistent and sends the events not sent yet, if there are any; what it sends is the open window's whole message exactly if the window is full |
| Reduction.SumsInsert | src/common/reduction/Cluster.cpp:57-83 | inserting a hit keeps all six weighted sums those of the hits |
| Reduction.SumsMerge | src/common/reduction/Cluster.cpp:131-136 | adding the cached sums of two clusters gives the sums of all their hits |
| Reduction.InsertKeepsShape | src/common/reduction/Cluster.cpp:39-107 | insert keeps time and coordinate bounds and the common plane those of the hits; the indices stay the first and last with the largest time of the hits they account for, after any inserts and merges |
| Reduction.InsertKeepsEarliest | src/common/reduction/Cluster.cpp:87-90 | insert keeps the earliest coordinate that of the first hit with the smallest time |
| Reduction.InsertKeepsCoordLatest | src/common/reduction/Cluster.cpp:95-102 | insert keeps the latest coordinate that of the first hit with the largest time |
| Reduction.ShapesMerge | src/common/reduction/Cluster.cpp:120-140 | merging keeps bounds and common plane those of all hits, and the indices those of the hits they accounted for |
| Reduction.CommonPlaneAppend | src/common/reduction/Cluster.cpp:120-125 | the plane of joined hits is their common plane, or invalid when the parts differ |
| Reduction.BoundsUnique | src/common/reduction/Cluster.cpp:85-107 | the hits leave only one choice of bounds |
| Reduction.MergeKeepsLatestIff | src/common/reduction/Cluster.cpp:110-142 | after a merge the kept indices are the first and the last with the largest time exactly if every merged time is smaller |
| Reduction.MergedUtpcIff | src/common/reduction/Cluster.cpp:110-142 | the hit they choose for the µTPC coordinate has the largest time exactly if the merged cluster ends no later |
| Reduction.MergeKeepsEarliestIff | src/common/reduction/Cluster.cpp:110-142 | the kept earliest coordinate is right exactly if the merged cluster starts no earlier or has the same earliest coordinate |
| Reduction.MergeKeepsCoordLatestIff | src/common/reduction/Cluster.cpp:110-142 | the kept latest coordinate is right exactly if the merged cluster ends no later or has the same latest coordinate |
| Reduction.Cluster.constructor | src/common/reduction/Cluster.h:138-165 | a new cluster is empty, on the invalid plane, with zero sums |
| Reduction.Cluster.Insert | src/common/reduction/Cluster.cpp:35-108 | appends the hit and keeps every cached value that of the hits; extreme coordinates that were right stay so |
| Reduction.ClusterOfAll | src/common/reduction/Cluster.cpp:35-108 | inserting any list of hits into a new cluster leaves every cached value that of exactly these hits |
| Reduction.Cluster.SumsOfHits | src/common/reduction/Cluster.cpp:62-84 | each of the six cached sums is that of its own quantity over the hits: weight, squared weight, and both times coordinate and time |
| Reduction.Cluster.Merge | src/common/reduction/Cluster.cpp:110-142 | this cluster's values become those of both hit lists; the other's hits are gone, and it is cleared exactly if both had hits or its plane and sums were those of a cleared cluster; µTPC hit and extreme coordinates stay right exactly under conditions on the times of the two clusters before |
| Reduction.Cluster.Clear | src/common/reduction/Cluster.cpp:144-153 | no hits, invalid plane, all sums zero |
| Reduction.Cluster.CenterWithin | src/common/reduction/Cluster.cpp:199-199 | the cached centre of mass of any cluster built by inserts and merges, with positive weight, lies within its cached coordinates, and its rounding fits 16 bits |
| Reduction.CenterWithinHits | src/common/geometry/vmm3/VMM3Geometry.h:230-233 | the rounded centre given to the geometry lies within the coordinates of the hits |
| Reduction.CenterBalances | src/common/reduction/Cluster.cpp:199-199 | the centre times the weight is the coordinate mass, and there is a centre exactly if there is weight |
| Reduction.RoundIsNearest | src/common/geometry/vmm3/VMM3Geometry.h:230-233 | rounding gives the one integer that is closest, halves upward |
| Reduction.PlaneOfHits | src/common/reduction/Cluster.cpp:35-48 | the cached plane is a valid one exactly if all hits are on it |
| Reduction.ReuseAfterMerge | src/common/reduction/Cluster.cpp:115-118 | concrete clusters for which the documented clearing fails: one hit of weight 7 and a sum of 12 |
| Reduction.GapIsReal | src/common/reduction/Cluster.cpp:161-163 | a reported gap means more than MaxAllowedGap coordinates between the bounds without a hit |
| Reduction.GapIffUnhit | src/common/reduction/Cluster.cpp:161-182 | for every hit list, a gap is reported exactly if the coordinates without a hit exceed MaxAllowedGap by more than the hits that repeat a coordinate, and the range is not the full 16 bits |
| Reduction.GapOfValidCoordinates | src/common/reduction/Cluster.cpp:161-182 | for distinct coordinates below the invalid one, exactly if more than MaxAllowedGap coordinates have no hit, without exception |
| Reduction.FullRangeHidesGap | src/common/reduction/Cluster.cpp:177-182 | over the full range no gap is reported, however few hits there are |
| Reduction.HiddenGap | src/common/reduction/Cluster.cpp:161-182 | inserting hits at 0 and 65535 leaves 65534 coordinates without a hit and reports no gap |
| Reduction.CoordinateCount | src/common/reduction/Cluster.cpp:161-163 | there are at most as many coordinates as hits, as many exactly if they are distinct |
| Reduction.CoordSpanCounts | src/common/reduction/Cluster.cpp:177-182 | the coordinate span is the number of coordinates from the smallest to the largest of the hits, with 65536 cut to 0, and 0 without hits |
| Reduction.UtpcIsLatestIff | src/common/reduction/Cluster.cpp:213-233 | the µTPC hit is the first or the last index, and has the largest time of all hits exactly if no hit beyond those the indices account for is later than it |
| Reduction.UtpcMeanIsCenter | src/common/reduction/Cluster.cpp:235-253 | the weighted µTPC value is the square-weighted centre of the hit and its existing neighbours |
| Reduction.UtpcBetweenNeighbours | src/common/reduction/Cluster.cpp:235-253 | it is a number exactly if one of them has weight, and lies between their smallest and largest coordinate |
| Reduction.Cluster.UtpcAtLargestTimeIff | src/common/reduction/Cluster.cpp:213-233 | for a cluster after any inserts and merges: the hit chosen from the cached indices has the largest time exactly if none that came by a merge is later, which is when its time is timeEnd |
| Reduction.Cluster.UtpcOfCloserEnd | src/common/reduction/Cluster.cpp:213-233 | with the first and the last hit at the largest time of the hits the indices account for: the coordinate is that of the one closer to its end of the list, of the heavier one at equal distances, and of the last at equal weights |
| Reduction.UtpcOfFirst | src/common/reduction/Cluster.cpp:213-233 | concrete inserts of two hits at the largest time and an earlier one, for which the first is chosen |
| Reduction.Cluster.UtpcNearHit | src/common/reduction/Cluster.cpp:235-253 | the weighted µTPC coordinate is a number exactly if the chosen hit or a neighbour has weight, and lies between their coordinates |
| Reduction.RangesOverlapOrGap | src/common/reduction/Cluster.cpp:256-280 | the gap is zero exactly if the ranges share a time, the overlap counts the shared times, and a gap is the distance of the nearest times |
| Reduction.Cluster.OverlapOrGap | src/common/reduction/Cluster.cpp:256-280 | the same of the cached times of two clusters; an empty one shares no time and has the largest gap |
| Reduction.Event.constructor | src/common/reduction/Event.cpp:17-18 | a new event has two cleared clusters, all of whose cached values are right |
| Reduction.Event.Insert | src/common/reduction/Event.cpp:24-30 | a hit joins the cluster of its plane as the cluster's insert would have it, sums, bounds and indices included, or none; the other cluster is untouched |
| Reduction.Event.Merge | src/common/reduction/Event.cpp:36-44 | a cluster's hits move to the cluster of its plane, with the cluster's cached values into an empty one and joined to those of another, or stay where they are; the other plane is untouched |
| Reduction.Event.CentersWithin | src/common/geometry/vmm3/VMM3Geometry.h:230-235 | the rounded centres of an event built by its own inserts and merges, with weight on both planes, fit 16 bits and lie between the coordinates of hits of their plane |
| Reduction.Event.TimesOfHits | src/common/reduction/Event.cpp:57-71 | timeStart and timeEnd are the smallest and largest time of all hits of both planes |
| EssTime.FromNSNormalIff | src/common/time/ESSTime.h:205-209 | the low part never exceeds the clock frequency and is below it exactly for the first 999999995 ns of a second |
| EssTime.UncarriedSecond | src/common/time/ESSTime.h:205-209 | 999999995 ns become 0 seconds and a full second of ticks |
| EssTime.RoundTrip | src/common/time/ESSTime.h:205-209 | converting a normal time to ns and back returns it, even with 1 ns of slack within the second |
| EssTime.RoundTripExact | src/common/time/ESSTime.h:341-344 | the exact conversion always allows the way back |
| EssTime.FromNSError | src/common/time/ESSTime.h:205-209 | ns to a time and back is off by at most 6 ns |
| EssTime.ToNSIsMonotone | src/common/time/ESSTime.h:341-344 | normal times are ordered in ns exactly as by high and low part |
| EssTime.ToNSFits | src/common/time/ESSTime.h:341-344 | any two parts and any delay stay below 2^63 ns |
| EssTime.ToNSIsFloor | src/common/time/ESSTime.h:341-344 | a time in ns is its seconds and the largest number of whole ns not above its ticks |
| EssTime.FromNSIsClosest | src/common/time/ESSTime.h:205-209 | ns become their whole seconds and the number of ticks closest to the rest, the larger of two equally close ones |
| EssTime.AddsUp | src/common/time/ESSTime.h:268-293 | adding a ticks and then b is adding a + b, with seconds modulo 2^32 |
| EssTime.Clock.AddTicks | src/common/time/ESSTime.h:278-293 | from a low part of at most a full second, adds exactly the given ticks and leaves the low part below the frequency; from any low part, says exactly when the result is normal |
| EssTime.Clock.AddNanoseconds | src/common/time/ESSTime.h:231-235 | adds exactly the whole ticks of the duration |
| EssTime.AddedNanoseconds | src/common/time/ESSTime.h:231-235 | that moves the time by the duration, up to 12 ns less |
| EssTime.Clock.FromNanoseconds | src/common/time/ESSTime.h:205-209 | builds the seconds and the closest tick |
| EssTime.FlightAccepted | src/common/time/ESSTime.cpp:68-124 | a time of flight is given exactly if the event is at most MaxTOF after the reference, or before it and at most MaxTOF after the previous one; it never exceeds MaxTOF |
| EssTime.FlightsBalance | src/common/time/ESSTime.cpp:68-124 | over any run TofNegative = PrevTofCount + PrevTofNegative + PrevTofHigh, and every event is counted once as accepted or rejected |
| EssTime.ReferenceTime.GetTOF | src/common/time/ESSTime.cpp:68-95 | returns the time from the reference, or for an earlier event from the previous one, if it is at most MaxTOF, and counts the one of five cases that it is |
| EssTime.ReferenceTime.GetPrevTOF | src/common/time/ESSTime.cpp:97-124 | the same against the previous reference |
| EssTime.ReferenceTime.SetReference | src/common/time/ESSTime.cpp:49-52 | the reference becomes the time in ns and is returned |
| EssTime.ReferenceTime.SetPrevReference | src/common/time/ESSTime.cpp:59-62 | the previous reference becomes the time in ns and is returned |
| HeaderParser.Parser.constructor | src/common/readout/ess/Parser.cpp:27-31 | expects sequence number 0 on every queue |
| HeaderParser.Parser.Validate | src/common/readout/ess/Parser.cpp:33-250 | OK exactly for well-formed packets of the expected type and an existing queue with good time source and pulse times; a packet turned away before the sequence check leaves all sequence state unchanged; ErrorSeqNum, NextSeqNum and the queue counters stay those of the packets seen, each packet is in one framing counter or one queue counter, and the pulse times in force become those of every framed packet with good flags and times in range, accepted or not; every header field is that of its own bytes, low byte first, and the payload of an accepted packet starts at 30 in version 0 and at 32 in version 1 |
| HeaderParser.OpensAsEncoded | src/common/readout/ess/Parser.h:143-171 | reading a header that was written field by field, each low byte first and without gaps, returns every field, whatever follows the header |
| HeaderParser.FramedIff | src/common/readout/ess/Parser.cpp:37-122 | which bytes a packet must have to reach the sequence check: 30 to 8972 of them, 32 for version 1, no padding, "ESS", the expected type, its own length, and a queue below 12 |
| HeaderParser.TimeSourceBadIff | src/common/readout/ess/Parser.cpp:153-182 | the time sources rejected, by their eight bits |
| HeaderParser.Parser.CheckFraming | src/common/readout/ess/Parser.cpp:37-122 | each early exit with its return code and its counter |
| HeaderParser.Parser.CheckSequence | src/common/readout/ess/Parser.cpp:124-138 | counts the packet on its queue, counts a break, and expects the next number |
| HeaderParser.Parser.CheckTimeSource | src/common/readout/ess/Parser.cpp:153-182 | rejects exactly the bad flag combinations and counts every one of them |
| HeaderParser.Parser.CheckTimes | src/common/readout/ess/Parser.cpp:153-234 | accepts exactly pulse times in range and close enough; reference times are set before the distance check, also for packets it rejects |
| HeaderParser.FramedKeeps | src/common/readout/ess/Parser.cpp:124-138 | one packet more on a queue adds a break exactly if its number is not the expected one, and touches no other queue |
| HeaderParser.OtherPacketsDoNotMatter | src/common/readout/ess/Parser.cpp:124-138 | a packet rejected early or on another queue has no part in a queue's numbers, wherever it arrives |
| HeaderParser.NoBreaksIff | src/common/readout/ess/Parser.cpp:126-138 | a queue has no breaks exactly if its numbers count up from 0 |
| HeaderParser.WrapIsABreak | src/common/readout/ess/Parser.cpp:126-138 | the correct successor modulo 2^32 is counted as a break exactly after 4294967295, and there any other number is too |
| HeaderParser.BreaksOfCounting | src/common/readout/ess/Parser.cpp:126-138 | numbers that count up from 0 modulo 2^32 have exactly one break for every wrap |
| HeaderParser.NoBreaksWhileCounting | src/common/readout/ess/Parser.cpp:126-138 | so none exactly for at most 2^32 packets |
| HeaderParser.CountWrap | src/common/readout/ess/Parser.cpp:126-138 | two calls of a real parser, with sequence numbers 4294967295 and 0, raise ErrorSeqNum in the second |
| HeaderParser.RejectedTimesStay | src/common/readout/ess/Parser.cpp:195-234 | a call of a real parser with pulses five seconds apart is rejected and leaves the pulse time in force |
| NmxInstrument.SentIff | src/modules/nmx/NMXInstrument.cpp:192-285 | an event is serialized exactly if both planes have hits, all spans fit, the time of flight is allowed and the geometry has a pixel; the time of flight is at most MaxTOF and within 6 ns of the event's |
| NmxInstrument.SentExactly | src/modules/nmx/NMXInstrument.cpp:254-285 | for an event time that comes from a normal time stamp the conversion loses nothing: the time of flight sent is the event's time less the current or the previous reference |
| NmxInstrument.OneCall | src/modules/nmx/NMXInstrument.cpp:192-285 | an event whose time comes from a normal stamp makes one call exactly if it passes all filters, and the call has the end time less the reference in force as its time and the table's entry of the two coordinates as its pixel, both in 32 bits with sign |
| NmxInstrument.MatchedCall | src/modules/nmx/NMXInstrument.cpp:253-285 | the same of a matched event from any stamp |
| NmxInstrument.HandedArePassing | src/modules/nmx/NMXInstrument.cpp:189-287 | for any list of events the k-th call is that of the k-th event that passes, and there are no others |
| NmxInstrument.PixelAtLargestTimesIff | src/modules/nmx/geometry/NMXGeometry.h:131-141 | the pixel is that of one hit of each plane, for planes merged from any clusters; a plane's hit has the plane's largest time exactly if no later merged hit is later than it |
| NmxInstrument.PixelOfCloserEnds | src/modules/nmx/geometry/NMXGeometry.h:131-141 | the pixel is the table's entry of the two coordinates, 0 if it has none, and each coordinate is that of the first or the last hit at the largest time, by their distances from the ends of the list and then by weight |
| NmxInstrument.TimeSpanCounts | src/common/reduction/Cluster.cpp:188-193 | the time span is the number of times from the first to the last hit, with 2^64 cut to 0 |
| NmxInstrument.PixelOfEarlierCluster | src/common/reduction/matching/GapMatcher.cpp:36-58 | two merged x clusters whose last hit is at 20 and whose pixel is taken at 10 |
| NmxInstrument.EventsAccountedFor | src/modules/nmx/NMXInstrument.cpp:189-287 | events = empty + without coincidence + rejected + matched; without coincidence = x only + y only; matched = serialized + pixel errors + TofHigh + PrevTofNegative + PrevTofHigh; one serializer call for each event counted |
| NmxInstrument.CountedBeforeMatch | src/modules/nmx/NMXInstrument.cpp:193-251 | for every event the exact condition under which each counter of planes and spans moves, with the limits in the program's order |
| NmxInstrument.CountedAfterMatch | src/modules/nmx/NMXInstrument.cpp:253-285 | and each counter of matched events, flights, pixel errors and events |
| NmxInstrument.TofFits32Iff | src/modules/nmx/NMXInstrument.cpp:282-282 | the cast to 32 bits with sign keeps every allowed time of flight exactly if MaxTOF is below 2^31 |
| NmxInstrument.Instrument.GenerateEvents | src/modules/nmx/NMXInstrument.cpp:189-287 | all counters, and the calls made to the serializer, in order, are those of the events given; with times from normal stamps the new calls are one for each event that passes, in order, with its own time of flight and pixel; the list is left empty |
| NmxInstrument.Instrument.CountPlanes | src/modules/nmx/NMXInstrument.cpp:193-209 | empty events are skipped and one-plane events counted by their plane |
| NmxInstrument.Instrument.CountSpans | src/modules/nmx/NMXInstrument.cpp:211-251 | an event passes exactly if no limit rejects it, and otherwise is counted under the first that does |
| NmxInstrument.Instrument.SendMatched | src/modules/nmx/NMXInstrument.cpp:253-285 | a matched event is serialized, or counted as a time or pixel failure |
| NmxInstrument.Instrument.CalcPixel | src/common/geometry/DetectorGeometry.h:186-195 | the pixel of the two unweighted µTPC coordinates; 0 is counted as an error |

## Left out

- Sockets, Kafka, FlatBuffers encoding, logging, command line, configuration files, timers: the model starts at what `receive` delivers and ends at the callback's message.
- `CircularFifo::free` (src/common/memory/SPSCFifo.h:103-111) is not a count of free cells and is not specified.
- Memory orders weaker than sequential consistency: the source uses the strongest for every atomic.
- HandOff.Step: idle time counters, what the monitor serializer does with a packet, a monitor period of 0, and stopping the threads are not modelled; a receive that times out is a datagram of no bytes.
- HandOff.PacketsDelivered: what the processing thread does with a packet after reading its bytes is the subject of the other modules.
- SpscFifo.CircularFifo.Push: one thread at a time; the interleaved forms are HandOff.FifoIsBoundedQueue and HandOff.FirstInFirstOut.
- The cookies around the buffers of the packet ring are not modelled.
- ChronoMerger.OutputIsChronological: runs with `reset` are excluded, since it takes back the latest times on which the promise rests.
- FixedSizePool.Pool.AllocateSlot: both settings of Validate, but only with asserts switched on, as every pool of the program has them.
- FixedSizePool.Pool.DeallocateSlot: after a failed assert, or a pattern written past the pool, nothing is claimed.
- PoolAllocator: what `malloc` returns is given and never null; rebinding to another element type is left out.
- EV44Serializer.Serializer.Produce: a serializer without callback, and direct calls of `serialize` and `setReferenceTime`, are left out.
- HistogramSerializer.Serializer.AddEvent: overflow of the 32-bit sums and of the reference offset is not modelled. The reference time must be set first, as the program's comment demands.
- HistogramSerializer.Serializer.constructor: at least one aggregated frame; with none the program's iterators point past empty vectors. The axis has whole numbers, as in the program's own use.
- Cluster sums are exact integers where the program has doubles, centres of mass are reals, and the six sums are one record.
- Reduction.Cluster.Merge: a cluster is not merged into itself, and a vector that was moved from is empty, as standard libraries leave it.
- Reduction.Cluster.Insert: a hit at the largest time of a cluster whose indices point to an earlier one leaves them at two different times; nothing is said of the µTPC hit then, until a later hit comes.
- `Cluster2D`, the gap clusterer and the gap matcher: the same invariant with one coordinate more, and algorithms on top of it.
- Event's own timeOverlap and timeGap: the same functions as the cluster's, applied to TimesOfHits.
- EssTime.FromNSNormalIff: the tick is an exact fraction where the program has a double; negative durations and more than 2^32 seconds are left out.
- EssTime.ReferenceTime.GetTOF: differences are unbounded, so that a reference set from a number above 2^63 does not overflow.
- HeaderParser.Parser.Validate: the buffer and its size are one sequence of bytes; counters are unbounded.
- NmxInstrument.Instrument.GenerateEvents: events are given by what is read of their clusters, and their times are below 2^32 seconds. The table from coordinates to pixels is part of the configuration; the logical_geometry library, which computes it, is not part of this model.
- Freia, TREX, CBM and CAEN instruments, pixel geometries, calibration, the command server and statistics publishing.
