/** A fixed number of equal memory slots, handed out from a stack of free slot
    numbers, with byte patterns that reveal use after free. */
module FixedSizePool {
  import opened Basics
  import opened Multiples

  const MEM_DELETED_PATTERN: uint8 := 0xED
  const MEM_ALLOCATED_PATTERN: uint8 := 0xCD
  const MAX_UINT32: nat := 0xFFFF_FFFF

  /** The n bytes from p on hold the pattern. */
  ghost predicate Filled(bytes: seq<uint8>, p: nat, n: nat, pattern: uint8) {
    p + n <= |bytes| && forall i :: p <= i < p + n ==> bytes[i] == pattern
  }

  /** Only the n bytes from p on may differ. */
  ghost predicate SameOutside(bytes: seq<uint8>, bytes': seq<uint8>, p: nat, n: nat) {
    && |bytes| == |bytes'|
    && forall i :: 0 <= i < |bytes| && !(p <= i < p + n) ==> bytes'[i] == bytes[i]
  }

  /** Bytes changed in one slot leave the other slots as they were. */
  lemma OtherSlotsKept(bytes: seq<uint8>, bytes': seq<uint8>, slot: nat, other: nat, slotBytes: nat, pattern: uint8)
    requires SameOutside(bytes, bytes', Times(slot, slotBytes), slotBytes) && slot != other
    requires Filled(bytes, Times(other, slotBytes), slotBytes, pattern)
    ensures Filled(bytes', Times(other, slotBytes), slotBytes, pattern)
  {
    if slot < other {
      StepsApart(slot, other, slotBytes);
    } else {
      StepsApart(other, slot, slotBytes);
    }
  }

  // ---- the free slots ----

  /** From index used on, the stack lists exactly the slots that are not live, each once. */
  ghost predicate ListsFreeSlots(stack: seq<nat>, used: nat, live: set<nat>) {
    && used <= |stack|
    && (forall i :: used <= i < |stack| ==> stack[i] < |stack| && stack[i] !in live)
    && (forall i, j :: used <= i < j < |stack| ==> stack[i] != stack[j])
    && (forall slot :: 0 <= slot < |stack| && slot !in live ==> slot in stack[used..])
  }

  lemma AllFree(stack: seq<nat>)
    requires forall i :: 0 <= i < |stack| ==> stack[i] == i
    ensures ListsFreeSlots(stack, 0, {})
  {
    forall slot | 0 <= slot < |stack|
      ensures slot in stack[0..]
    {
      assert stack[0..][slot] == slot;
    }
  }

  lemma TakeFreeSlot(stack: seq<nat>, used: nat, live: set<nat>)
    requires ListsFreeSlots(stack, used, live) && used < |stack|
    ensures stack[used] < |stack| && stack[used] !in live
    ensures ListsFreeSlots(stack, used + 1, live + {stack[used]})
  {
    assert stack[used..] == [stack[used]] + stack[used + 1..];
  }

  lemma ReturnSlot(stack: seq<nat>, used: nat, live: set<nat>, slot: nat)
    requires ListsFreeSlots(stack, used, live) && 0 < used && slot in live && slot < |stack|
    ensures ListsFreeSlots(stack[used - 1 := slot], used - 1, live - {slot})
  {
    var stack' := stack[used - 1 := slot];
    assert stack'[used - 1..] == [slot] + stack[used..];
  }

  lemma KeyAdded(m: map<nat, nat>, k: nat, v: nat)
    requires k !in m
    ensures m[k := v].Keys == m.Keys + {k} && |m[k := v]| == |m| + 1
  {
    assert m[k := v].Keys == m.Keys + {k};
    assert |m.Keys| == |m|;
  }

  lemma KeyRemoved(m: map<nat, nat>, k: nat)
    requires k in m
    ensures (m - {k}).Keys == m.Keys - {k} && |m - {k}| == |m| - 1
  {
    assert (m - {k}).Keys == m.Keys - {k};
    assert |m.Keys| == |m|;
  }

  // ---- sizes and patterns of the slots ----

  /** A slot's recorded size is the requested one while it is live, else 0; the
      sizes add up to total. */
  ghost predicate SizesMatch(sizes: seq<nat>, live: map<nat, nat>, total: int) {
    && (forall slot | slot in live :: slot < |sizes| && live[slot] <= MAX_UINT32)
    && (forall slot :: 0 <= slot < |sizes| ==> sizes[slot] == if slot in live then live[slot] else 0)
    && Sum(sizes) == total
  }

  lemma SizesTaken(sizes: seq<nat>, live: map<nat, nat>, total: int, slot: nat, byteCount: nat)
    requires SizesMatch(sizes, live, total) && slot < |sizes| && slot !in live && byteCount <= MAX_UINT32
    ensures SizesMatch(sizes[slot := byteCount], live[slot := byteCount], total + byteCount)
  {
    SumUpdate(sizes, slot, byteCount);
  }

  lemma SizesReturned(sizes: seq<nat>, live: map<nat, nat>, total: int, slot: nat)
    requires SizesMatch(sizes, live, total) && slot in live
    ensures SizesMatch(sizes[slot := 0], live - {slot}, total - sizes[slot])
  {
    SumUpdate(sizes, slot, 0);
  }

  ghost predicate FreeSlotsDeleted(bytes: seq<uint8>, live: set<nat>, numSlots: nat, slotBytes: nat) {
    forall slot :: 0 <= slot < numSlots && slot !in live ==>
      Filled(bytes, Times(slot, slotBytes), slotBytes, MEM_DELETED_PATTERN)
  }

  /** Taking a slot, or writing into one that is live, leaves the free slots deleted. */
  lemma DeletedAfterTake(bytes: seq<uint8>, bytes': seq<uint8>, live: set<nat>, numSlots: nat, slotBytes: nat,
                         slot: nat)
    requires FreeSlotsDeleted(bytes, live, numSlots, slotBytes)
    requires SameOutside(bytes, bytes', Times(slot, slotBytes), slotBytes)
    ensures FreeSlotsDeleted(bytes', live + {slot}, numSlots, slotBytes)
  {
    forall other | 0 <= other < numSlots && other !in live + {slot}
      ensures Filled(bytes', Times(other, slotBytes), slotBytes, MEM_DELETED_PATTERN)
    {
      OtherSlotsKept(bytes, bytes', slot, other, slotBytes, MEM_DELETED_PATTERN);
    }
  }

  lemma DeletedAfterReturn(bytes: seq<uint8>, bytes': seq<uint8>, live: set<nat>, numSlots: nat, slotBytes: nat,
                           slot: nat)
    requires FreeSlotsDeleted(bytes, live, numSlots, slotBytes)
    requires SameOutside(bytes, bytes', Times(slot, slotBytes), slotBytes)
    requires Filled(bytes', Times(slot, slotBytes), slotBytes, MEM_DELETED_PATTERN)
    ensures FreeSlotsDeleted(bytes', live - {slot}, numSlots, slotBytes)
  {
    forall other | 0 <= other < numSlots && other !in live - {slot}
      ensures Filled(bytes', Times(other, slotBytes), slotBytes, MEM_DELETED_PATTERN)
    {
      if other != slot {
        OtherSlotsKept(bytes, bytes', slot, other, slotBytes, MEM_DELETED_PATTERN);
      }
    }
  }

  // ---- the pool ----

  /** A pointer into the pool as an offset from its first byte; a failed
      assertion ends the program. */
  datatype Allocation = Null | Pointer(offset: nat) | Aborted

  /** Overrun: the memset went past the end of the pool. */
  datatype Deallocation = Freed | NotFromPool | AlreadyEmpty | SlotNotInUse | Overrun

  datatype Verdict = Ok | NotEmpty | NotDeallocated | DuplicateFreeSlot | PatternDamaged

  /** p points into the slot. */
  ghost predicate InSlot(p: int, slot: nat, slotBytes: nat) {
    Times(slot, slotBytes) <= p < Times(slot, slotBytes) + slotBytes
  }

  /** No address lies in two slots. */
  lemma OneSlot(p: int, slot: nat, other: nat, slotBytes: nat)
    requires InSlot(p, slot, slotBytes) && InSlot(p, other, slotBytes)
    ensures slot == other
  {
    if slot < other {
      StepsApart(slot, other, slotBytes);
    } else if other < slot {
      StepsApart(other, slot, slotBytes);
    }
  }

  class Pool {
    const slotBytes: nat
    const numSlots: nat
    const validate: bool   // keep byte patterns and check them
    var numSlotsUsed: nat
    const freeSlotStack: array<nat>
    const slotAllocSize: array<nat>
    const poolBytes: array<uint8>
    // MemStats
    var allocCount: nat
    var allocBytes: nat
    var deallocCount: nat
    var deallocBytes: nat
    var mallocFallbackCount: nat

    /** The live slots and the sizes they were requested with. */
    ghost var live: map<nat, nat>

    ghost predicate Valid()
      reads this, freeSlotStack, slotAllocSize, poolBytes
    {
      Layout() && BooksMatch() && BytesMatch(live.Keys)
    }

    ghost predicate Layout() {
      && slotBytes > 0
      && poolBytes.Length == Times(numSlots, slotBytes)
      && poolBytes as object != freeSlotStack && poolBytes as object != slotAllocSize
    }

    /** Stack, sizes and statistics agree with the live slots. */
    ghost predicate BooksMatch()
      reads this, freeSlotStack, slotAllocSize
    {
      && freeSlotStack.Length == slotAllocSize.Length == numSlots && freeSlotStack != slotAllocSize
      && numSlotsUsed == |live|
      && ListsFreeSlots(freeSlotStack[..], numSlotsUsed, live.Keys)
      && SizesMatch(slotAllocSize[..], live, allocBytes - deallocBytes)
      && allocCount == deallocCount + |live|
    }

    ghost predicate BytesMatch(slots: set<nat>)
      reads poolBytes
    {
      validate ==> FreeSlotsDeleted(poolBytes[..], slots, numSlots, slotBytes)
    }

    constructor (slotBytes: nat, numSlots: nat, validate: bool)
      requires slotBytes > 0
      ensures Valid() && fresh(freeSlotStack) && fresh(slotAllocSize) && fresh(poolBytes)
      ensures this.slotBytes == slotBytes && this.numSlots == numSlots && this.validate == validate && live == map[]
      ensures allocCount == deallocCount == allocBytes == deallocBytes == mallocFallbackCount == 0
    {
      this.slotBytes, this.numSlots, this.validate := slotBytes, numSlots, validate;
      numSlotsUsed := 0;
      freeSlotStack := new nat[numSlots](i => i);
      slotAllocSize := new nat[numSlots](_ => 0);
      poolBytes := new uint8[Times(numSlots, slotBytes)];
      allocCount, allocBytes, deallocCount, deallocBytes, mallocFallbackCount := 0, 0, 0, 0, 0;
      live := map[];
      new;
      SumZeros(slotAllocSize[..]);
      if validate {
        DeleteAll();
      }
      AllFree(freeSlotStack[..]);
    }

    /** memset over the whole pool. */
    method DeleteAll()
      requires Layout()
      modifies poolBytes
      ensures BytesMatch({})
    {
      for i := 0 to poolBytes.Length
        invariant forall k :: 0 <= k < i ==> poolBytes[k] == MEM_DELETED_PATTERN
      {
        poolBytes[i] := MEM_DELETED_PATTERN;
      }
      forall slot | 0 <= slot < numSlots
        ensures Filled(poolBytes[..], Times(slot, slotBytes), slotBytes, MEM_DELETED_PATTERN)
      {
        StepsApart(slot, numSlots, slotBytes);
      }
    }

    /** Null exactly when every slot is live; otherwise a slot that was free is
        now live, filled with the allocated pattern, and nothing else changed. */
    method AllocateSlot(byteCount: nat) returns (r: Allocation, ghost slot: nat)
      requires Valid()
      modifies this, freeSlotStack, slotAllocSize, poolBytes
      ensures Valid() && mallocFallbackCount == old(mallocFallbackCount)
      ensures r.Null? <==> forall slot | 0 <= slot < numSlots :: slot in old(live)
      ensures r.Aborted? <==> !r.Null? && byteCount > 0xFFFF_FFFF
      ensures allocCount == old(allocCount) + (if r.Pointer? then 1 else 0) && deallocCount == old(deallocCount)
      ensures allocBytes == old(allocBytes) + (if r.Pointer? then byteCount else 0)
      ensures deallocBytes == old(deallocBytes)
      ensures !r.Pointer? ==> live == old(live) && poolBytes[..] == old(poolBytes[..])
      ensures r.Pointer? ==>
                && slot < numSlots && slot !in old(live) && r.offset == Times(slot, slotBytes)
                && live == old(live)[slot := byteCount]
                && Prepared(old(poolBytes[..]), r.offset)
    {
      slot := 0;
      SomeSlotIsFree();
      if numSlotsUsed == numSlots {
        return Null, slot;
      }
      var slotIndex := freeSlotStack[numSlotsUsed];
      assert slotIndex < numSlots;                // "Expect capacity"
      assert slotAllocSize[slotIndex] == 0;       // "Expect slot to be empty"
      if byteCount > MAX_UINT32 {                 // "Not expecting >32 bit alloc"
        return Aborted, slot;
      }
      var p := HandOut(slotIndex, byteCount);
      return Pointer(p), slotIndex;
    }

    method HandOut(slotIndex: nat, byteCount: nat) returns (p: nat)
      requires Valid() && numSlotsUsed < numSlots && slotIndex == freeSlotStack[numSlotsUsed]
      requires slotIndex < numSlots && slotIndex !in live && byteCount <= MAX_UINT32
      modifies this, slotAllocSize, poolBytes
      ensures Valid() && mallocFallbackCount == old(mallocFallbackCount)
      ensures live == old(live)[slotIndex := byteCount]
      ensures p == Times(slotIndex, slotBytes) && Prepared(old(poolBytes[..]), p)
      ensures allocCount == old(allocCount) + 1 && allocBytes == old(allocBytes) + byteCount
      ensures deallocCount == old(deallocCount) && deallocBytes == old(deallocBytes)
    {
      Acquire(slotIndex, byteCount);
      p := PrepareSlot(slotIndex, old(live).Keys);
    }

    lemma SomeSlotIsFree()
      requires BooksMatch()
      ensures numSlotsUsed == numSlots <==> forall slot | 0 <= slot < numSlots :: slot in live
      ensures numSlotsUsed < numSlots ==>
                && freeSlotStack[numSlotsUsed] < numSlots && freeSlotStack[numSlotsUsed] !in live
                && slotAllocSize[freeSlotStack[numSlotsUsed]] == 0
    {
      if numSlotsUsed < numSlots {
        var free := freeSlotStack[..][numSlotsUsed];
        assert free < numSlots && free !in live && slotAllocSize[..][free] == 0;
      } else {
        assert freeSlotStack[..][numSlotsUsed..] == [];
      }
    }

    /** The bytes after a slot was handed out. */
    ghost predicate Prepared(before: seq<uint8>, p: nat)
      reads poolBytes
    {
      if validate then
        Filled(poolBytes[..], p, slotBytes, MEM_ALLOCATED_PATTERN) && SameOutside(before, poolBytes[..], p, slotBytes)
      else
        poolBytes[..] == before
    }

    /** With validation the slot's bytes are 0xCD; no other byte changes, and none without. */
    lemma PreparedBytes(before: seq<uint8>, p: nat, i: nat)
      requires Prepared(before, p) && i < poolBytes.Length
      ensures |before| == poolBytes.Length && (validate ==> p + slotBytes <= poolBytes.Length)
      ensures poolBytes[i] == if validate && p <= i < p + slotBytes then 0xCD else before[i]
    {
      assert poolBytes[i] == poolBytes[..][i];
    }

    /** The bytes of an allocation: a free slot's are still deleted, and become allocated. */
    method PrepareSlot(slotIndex: nat, ghost slots: set<nat>) returns (p: nat)
      requires Layout() && slotIndex < numSlots && slotIndex !in slots && BytesMatch(slots)
      modifies poolBytes
      ensures p == Times(slotIndex, slotBytes) && Prepared(old(poolBytes[..]), p)
      ensures BytesMatch(slots + {slotIndex})
    {
      p := slotIndex * slotBytes;
      TimesIsProduct(slotIndex, slotBytes);
      StepsApart(slotIndex, numSlots, slotBytes);
      assert p + slotBytes <= poolBytes.Length;   // "Don't go past end of capacity"
      if validate {
        for i := 0 to slotBytes {
          assert poolBytes[..][p + i] == MEM_DELETED_PATTERN by {   // "Unused memory must have deletion pattern"
            assert Filled(poolBytes[..], p, slotBytes, MEM_DELETED_PATTERN);
          }
        }
        SetBytes(p, MEM_ALLOCATED_PATTERN);
        DeletedAfterTake(old(poolBytes[..]), poolBytes[..], slots, numSlots, slotBytes, slotIndex);
      }
    }

    /** The bookkeeping of an allocation. */
    method Acquire(slotIndex: nat, byteCount: nat)
      requires BooksMatch() && numSlotsUsed < numSlots && slotIndex == freeSlotStack[numSlotsUsed]
               && byteCount <= MAX_UINT32
      modifies `numSlotsUsed, `allocCount, `allocBytes, `live, slotAllocSize
      ensures BooksMatch() && mallocFallbackCount == old(mallocFallbackCount)
      ensures live == old(live)[slotIndex := byteCount] && live.Keys == old(live).Keys + {slotIndex}
      ensures allocCount == old(allocCount) + 1 && allocBytes == old(allocBytes) + byteCount
    {
      TakeFreeSlot(freeSlotStack[..], numSlotsUsed, live.Keys);
      RecordSize(slotIndex, byteCount);
      Remember(slotIndex, byteCount);
    }

    /** Once its size is recorded and its number off the stack, a slot is live. */
    ghost method Remember(slotIndex: nat, byteCount: nat)
      requires freeSlotStack.Length == slotAllocSize.Length == numSlots && freeSlotStack != slotAllocSize
      requires numSlotsUsed == |live| + 1 && slotIndex !in live && allocCount == deallocCount + |live| + 1
      requires ListsFreeSlots(freeSlotStack[..], numSlotsUsed, live.Keys + {slotIndex})
      requires SizesMatch(slotAllocSize[..], live[slotIndex := byteCount], allocBytes - deallocBytes)
      modifies `live
      ensures BooksMatch()
      ensures live == old(live)[slotIndex := byteCount] && live.Keys == old(live).Keys + {slotIndex}
    {
      KeyAdded(live, slotIndex, byteCount);
      live := live[slotIndex := byteCount];
    }

    method RecordSize(slotIndex: nat, byteCount: nat)
      requires SizesMatch(slotAllocSize[..], live, allocBytes - deallocBytes)
      requires slotIndex < slotAllocSize.Length && slotIndex !in live && byteCount <= MAX_UINT32
      modifies `numSlotsUsed, `allocCount, `allocBytes, slotAllocSize
      ensures SizesMatch(slotAllocSize[..], live[slotIndex := byteCount], allocBytes - deallocBytes)
      ensures numSlotsUsed == old(numSlotsUsed) + 1
      ensures allocCount == old(allocCount) + 1 && allocBytes == old(allocBytes) + byteCount
    {
      numSlotsUsed := numSlotsUsed + 1;
      SizesTaken(slotAllocSize[..], live, allocBytes - deallocBytes, slotIndex, byteCount);
      allocCount := allocCount + 1;
      allocBytes := allocBytes + byteCount;
      slotAllocSize[slotIndex] := byteCount;
      assert slotAllocSize[..] == old(slotAllocSize[..])[slotIndex := byteCount];
    }

    /** memset over the length of a slot. */
    method SetBytes(p: nat, pattern: uint8)
      requires p + slotBytes <= poolBytes.Length
      modifies poolBytes
      ensures Filled(poolBytes[..], p, slotBytes, pattern)
      ensures SameOutside(old(poolBytes[..]), poolBytes[..], p, slotBytes)
    {
      for i := 0 to slotBytes
        invariant forall k :: p <= k < p + i ==> poolBytes[k] == pattern
        invariant forall k :: 0 <= k < poolBytes.Length && !(p <= k < p + i) ==> poolBytes[k] == old(poolBytes[k])
      {
        poolBytes[p + i] := pattern;
      }
    }

    /** The slot an address lies in. */
    lemma SlotOf(p: int)
      requires Layout()
      ensures p / slotBytes < 0 <==> p < 0
      ensures p / slotBytes >= numSlots <==> p >= poolBytes.Length
      ensures forall slot: nat | InSlot(p, slot, slotBytes) :: slot == p / slotBytes
      ensures p >= 0 ==> InSlot(p, p / slotBytes, slotBytes)
    {
      forall slot: nat | InSlot(p, slot, slotBytes)
        ensures slot == p / slotBytes
      {
        DivisionFindsStep(slot, p, slotBytes);
      }
      if p >= 0 {
        PointInStep(p, slotBytes);
        var slot := p / slotBytes;
        if slot < numSlots {
          StepsApart(slot, numSlots, slotBytes);
        } else if numSlots < slot {
          StepsApart(numSlots, slot, slotBytes);
        }
      }
    }

    /** Takes any address. The slot it lies in is freed exactly if it is live and was requested
        with some bytes; every other address meets an assert. Patterns are written from the
        address on, which is the slot's own bytes only for the pointer that AllocateSlot
        returned. */
    method DeallocateSlot(p: int) returns (r: Deallocation, ghost slot: nat)
      requires Valid()
      modifies this, freeSlotStack, slotAllocSize, poolBytes
      ensures mallocFallbackCount == old(mallocFallbackCount)
      ensures allocCount == old(allocCount) && allocBytes == old(allocBytes)
      ensures r.Freed? ==>
                && slot in old(live) && deallocCount == old(deallocCount) + 1
                && deallocBytes == old(deallocBytes) + old(live)[slot]
      ensures r.NotFromPool? <==> !(0 <= p < Times(numSlots, slotBytes))
      ensures !r.NotFromPool? ==> slot < numSlots && InSlot(p, slot, slotBytes)
      ensures r.AlreadyEmpty? <==> !r.NotFromPool? && |old(live)| == 0
      ensures r.Freed? || r.Overrun? <==> !r.NotFromPool? && slot in old(live) && old(live)[slot] > 0
      ensures r.Overrun? <==> (r.Freed? || r.Overrun?) && !Room(p)
      ensures r.Freed? ==> BooksMatch() && live == old(live) - {slot} && Deleted(old(poolBytes[..]), p)
      ensures r.Freed? && (validate ==> p == Times(slot, slotBytes)) ==> Valid()
    {
      SlotOf(p);
      var slotIndex := p / slotBytes;
      slot := 0;
      if slotIndex < 0 || slotIndex >= numSlots {   // a negative difference is a huge unsigned index
        return NotFromPool, slot;
      }
      slot := slotIndex;
      r := Release(slotIndex);
      if r.Freed? {
        var within := DeleteSlot(p, slotIndex, old(live).Keys);
        if !within {
          return Overrun, slot;
        }
      }
    }

    /** A pattern from address p on ends within the pool. */
    predicate Room(p: int) {
      validate ==> p + slotBytes <= Times(numSlots, slotBytes)
    }

    /** The bytes after a slot was given back. */
    ghost predicate Deleted(before: seq<uint8>, p: int)
      reads poolBytes
    {
      if validate then
        && p >= 0 && Filled(poolBytes[..], p, slotBytes, MEM_DELETED_PATTERN)
        && SameOutside(before, poolBytes[..], p, slotBytes)
      else
        poolBytes[..] == before
    }

    /** With validation the bytes of a slot from the address on are 0xED; no other byte changes,
        and none without. */
    lemma DeletedBytes(before: seq<uint8>, p: nat, i: nat)
      requires Deleted(before, p) && i < poolBytes.Length
      ensures |before| == poolBytes.Length && (validate ==> p + slotBytes <= poolBytes.Length)
      ensures poolBytes[i] == if validate && p <= i < p + slotBytes then 0xED else before[i]
    {
      assert poolBytes[i] == poolBytes[..][i];
    }

    /** The bytes of a deallocation. */
    method DeleteSlot(p: nat, slotIndex: nat, ghost slots: set<nat>) returns (within: bool)
      requires Layout() && BytesMatch(slots) && InSlot(p, slotIndex, slotBytes) && slotIndex < numSlots
      modifies poolBytes
      ensures within <==> Room(p)
      ensures within ==> Deleted(old(poolBytes[..]), p)
      ensures !validate || p == Times(slotIndex, slotBytes) ==> within && BytesMatch(slots - {slotIndex})
    {
      StepsApart(slotIndex, numSlots, slotBytes);
      if validate {
        if p + slotBytes > poolBytes.Length {
          return false;
        }
        SetBytes(p, MEM_DELETED_PATTERN);
        if p == Times(slotIndex, slotBytes) {
          DeletedAfterReturn(old(poolBytes[..]), poolBytes[..], slots, numSlots, slotBytes, slotIndex);
        }
      }
      return true;
    }

    /** The bookkeeping of a deallocation. */
    method Release(slotIndex: nat) returns (r: Deallocation)
      requires BooksMatch() && slotIndex < numSlots
      modifies `numSlotsUsed, `live, `deallocCount, `deallocBytes, freeSlotStack, slotAllocSize
      ensures deallocCount == old(deallocCount) + if r.Freed? then 1 else 0
      ensures slotIndex in old(live) ==>
                deallocBytes == old(deallocBytes) + if r.Freed? then old(live)[slotIndex] else 0
      ensures !r.Freed? ==> deallocBytes == old(deallocBytes)
      ensures r.AlreadyEmpty? <==> |old(live)| == 0
      ensures !r.NotFromPool? && !r.Overrun? && mallocFallbackCount == old(mallocFallbackCount)
      ensures r.Freed? <==> slotIndex in old(live) && old(live)[slotIndex] > 0
      ensures r.Freed? ==> BooksMatch() && live == old(live) - {slotIndex} && live.Keys == old(live).Keys - {slotIndex}
    {
      if numSlotsUsed == 0 {
        return AlreadyEmpty;
      }
      numSlotsUsed := numSlotsUsed - 1;
      if slotAllocSize[slotIndex] == 0 {
        return SlotNotInUse;
      }
      FreeSlot(slotIndex);
      return Freed;
    }

    /** One slot less is used, and its number is still to go on the stack. */
    method FreeSlot(slotIndex: nat)
      requires freeSlotStack.Length == slotAllocSize.Length == numSlots && freeSlotStack != slotAllocSize
      requires numSlotsUsed + 1 == |live| && slotIndex in live && allocCount == deallocCount + |live|
      requires ListsFreeSlots(freeSlotStack[..], numSlotsUsed + 1, live.Keys)
      requires SizesMatch(slotAllocSize[..], live, allocBytes - deallocBytes)
      modifies `live, `deallocCount, `deallocBytes, freeSlotStack, slotAllocSize
      ensures BooksMatch() && live == old(live) - {slotIndex} && live.Keys == old(live).Keys - {slotIndex}
      ensures deallocCount == old(deallocCount) + 1 && deallocBytes == old(deallocBytes) + old(live)[slotIndex]
    {
      ClearSize(slotIndex);
      PushFree(slotIndex);
      Forget(slotIndex);
    }

    /** Once its size is cleared and its number on the stack, a slot is no longer live. */
    ghost method Forget(slotIndex: nat)
      requires freeSlotStack.Length == slotAllocSize.Length == numSlots && freeSlotStack != slotAllocSize
      requires numSlotsUsed + 1 == |live| && slotIndex in live && allocCount + 1 == deallocCount + |live|
      requires ListsFreeSlots(freeSlotStack[..], numSlotsUsed, (live - {slotIndex}).Keys)
      requires SizesMatch(slotAllocSize[..], live - {slotIndex}, allocBytes - deallocBytes)
      modifies `live
      ensures BooksMatch() && live == old(live) - {slotIndex} && live.Keys == old(live).Keys - {slotIndex}
    {
      KeyRemoved(live, slotIndex);
      live := live - {slotIndex};
    }

    method ClearSize(slotIndex: nat)
      requires SizesMatch(slotAllocSize[..], live, allocBytes - deallocBytes) && slotIndex in live
      modifies `deallocCount, `deallocBytes, slotAllocSize
      ensures SizesMatch(slotAllocSize[..], live - {slotIndex}, allocBytes - deallocBytes)
      ensures deallocCount == old(deallocCount) + 1 && deallocBytes == old(deallocBytes) + live[slotIndex]
    {
      SizesReturned(slotAllocSize[..], live, allocBytes - deallocBytes, slotIndex);
      deallocCount := deallocCount + 1;
      deallocBytes := deallocBytes + slotAllocSize[slotIndex];
      slotAllocSize[slotIndex] := 0;
      assert slotAllocSize[..] == old(slotAllocSize[..])[slotIndex := 0];
    }

    /** The freed slot takes the place below the top, over what is stale there. */
    method PushFree(slotIndex: nat)
      requires ListsFreeSlots(freeSlotStack[..], numSlotsUsed + 1, live.Keys) && slotIndex in live
               && slotIndex < freeSlotStack.Length
      modifies freeSlotStack
      ensures ListsFreeSlots(freeSlotStack[..], numSlotsUsed, (live - {slotIndex}).Keys)
    {
      KeyRemoved(live, slotIndex);
      ReturnSlot(freeSlotStack[..], numSlotsUsed + 1, live.Keys, slotIndex);
      freeSlotStack[numSlotsUsed] := slotIndex;
      assert freeSlotStack[..] == old(freeSlotStack[..])[numSlotsUsed := slotIndex];
    }

    /** The owner of a live slot may write any of its bytes. */
    method WriteByte(slot: nat, k: nat, value: uint8)
      requires Valid() && slot in live && k < slotBytes
      modifies poolBytes
      ensures Valid() && Times(slot, slotBytes) + k < poolBytes.Length
      ensures poolBytes[..] == old(poolBytes[..])[Times(slot, slotBytes) + k := value]
    {
      StepsApart(slot, numSlots, slotBytes);
      TimesIsProduct(slot, slotBytes);
      poolBytes[slot * slotBytes + k] := value;
      if validate {
        DeletedAfterTake(old(poolBytes[..]), poolBytes[..], live.Keys, numSlots, slotBytes, slot);
        assert live.Keys + {slot} == live.Keys;
      }
    }

    method Contains(p: int) returns (r: bool)
      requires Valid()
      ensures r <==> 0 <= p < Times(numSlots, slotBytes)
    {
      r := 0 <= p && p < poolBytes.Length;
    }

    /** What a clean pool looks like; without patterns nothing but the count is looked at. */
    ghost predicate Clean()
      reads this, freeSlotStack, slotAllocSize, poolBytes
    {
      && numSlotsUsed == 0
      && (validate ==>
            && (forall i :: 0 <= i < slotAllocSize.Length ==> slotAllocSize[i] == 0)
            && (forall i, j :: 0 <= i < j < freeSlotStack.Length ==> freeSlotStack[i] != freeSlotStack[j])
            && (forall i :: 0 <= i < poolBytes.Length ==> poolBytes[i] == MEM_DELETED_PATTERN))
    }

    /** Looks at everything, whatever state the pool is in; it needs only that
        the stack names existing slots. */
    method ValidateEmptyState() returns (r: Verdict)
      requires freeSlotStack.Length == slotAllocSize.Length == numSlots
      requires forall i :: 0 <= i < numSlots ==> freeSlotStack[i] < numSlots
      ensures r.Ok? <==> Clean()
      ensures r.NotEmpty? <==> numSlotsUsed != 0
      ensures r.PatternDamaged? ==> validate && exists i :: 0 <= i < poolBytes.Length && poolBytes[i] != 0xED
    {
      if numSlotsUsed != 0 {
        return NotEmpty;
      }
      if validate {
        r := CheckFreeSlots();
        if !r.Ok? {
          return;
        }
        for i := 0 to poolBytes.Length
          invariant forall k :: 0 <= k < i ==> poolBytes[k] == MEM_DELETED_PATTERN
        {
          if poolBytes[i] != MEM_DELETED_PATTERN {
            return PatternDamaged;
          }
        }
      }
      return Ok;
    }

    /** No size left behind, and no slot free twice. */
    method CheckFreeSlots() returns (r: Verdict)
      requires freeSlotStack.Length == slotAllocSize.Length == numSlots
      requires forall i :: 0 <= i < numSlots ==> freeSlotStack[i] < numSlots
      ensures !r.NotEmpty? && !r.PatternDamaged?
      ensures r.Ok? <==>
                && (forall i :: 0 <= i < numSlots ==> slotAllocSize[i] == 0)
                && (forall i, j :: 0 <= i < j < numSlots ==> freeSlotStack[i] != freeSlotStack[j])
    {
      var foundSlots := new bool[numSlots](_ => false);
      for i := 0 to numSlots
        invariant forall k :: 0 <= k < i ==> slotAllocSize[k] == 0
        invariant forall k, j :: 0 <= k < j < i ==> freeSlotStack[k] != freeSlotStack[j]
        invariant forall slot :: 0 <= slot < numSlots ==> (foundSlots[slot] <==> slot in freeSlotStack[..i])
      {
        if slotAllocSize[i] != 0 {
          return NotDeallocated;
        }
        var curSlot := freeSlotStack[i];
        if foundSlots[curSlot] {
          return DuplicateFreeSlot;
        }
        foundSlots[curSlot] := true;
        assert freeSlotStack[..i + 1] == freeSlotStack[..i] + [curSlot];
      }
      return Ok;
    }

    /** After every live pointer has been freed the pool is clean again; before, it is not. */
    lemma CleanIffNothingLive()
      requires Valid()
      ensures Clean() <==> live == map[]
    {
      if live == map[] {
        assert freeSlotStack[..][0..] == freeSlotStack[..];
        forall i, j | 0 <= i < j < numSlots
          ensures freeSlotStack[i] != freeSlotStack[j]
        {
          assert freeSlotStack[..][i] != freeSlotStack[..][j];
        }
        forall i | validate && 0 <= i < poolBytes.Length
          ensures poolBytes[i] == MEM_DELETED_PATTERN
        {
          SlotOf(i);
          assert Filled(poolBytes[..], Times(i / slotBytes, slotBytes), slotBytes, MEM_DELETED_PATTERN);
          assert poolBytes[..][i] == MEM_DELETED_PATTERN;
        }
      } else {
        assert |live| != 0;
      }
    }
  }
}
