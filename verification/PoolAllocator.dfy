/** An allocator that takes blocks from a pool while they fit and last, and from
    malloc otherwise. */
module PoolAllocator {
  import opened Basics
  import BitMath
  import opened Multiples
  import opened FixedSizePool

  /** An address, or the end of the program in a failed assertion. */
  datatype Block = At(address: int) | Failed

  class Allocator {
    const pool: Pool
    const elementBytes: nat
    const poolAddress: int

    /** Blocks obtained from malloc and not yet given back. */
    ghost var heap: set<int>

    ghost predicate InPool(address: int)
      reads this
    {
      poolAddress <= address < poolAddress + Times(pool.numSlots, pool.slotBytes)
    }

    ghost predicate Valid()
      reads this, pool, pool.freeSlotStack, pool.slotAllocSize, pool.poolBytes
    {
      pool.Valid() && elementBytes > 0 && forall a | a in heap :: !InPool(a)
    }

    constructor (pool: Pool, elementBytes: nat, poolAddress: int)
      requires pool.Valid() && elementBytes > 0
      ensures Valid() && this.pool == pool && this.elementBytes == elementBytes && heap == {}
      ensures this.poolAddress == poolAddress
    {
      this.pool, this.elementBytes, this.poolAddress := pool, elementBytes, poolAddress;
      heap := {};
    }

    /** The request fits into a slot, and a slot is free. */
    ghost predicate FromPool(byteCount: nat)
      reads this, pool
    {
      byteCount <= pool.slotBytes && exists free :: 0 <= free < pool.numSlots && free !in pool.live
    }

    /** The byte count is a product of 64-bit numbers: too many elements wrap around to a block
        that is too small. */
    method Allocate(numElements: uint64, mallocAddress: int) returns (r: Block, ghost slot: nat)
      requires Valid() && !InPool(mallocAddress) && mallocAddress !in heap
      modifies this, pool, pool.freeSlotStack, pool.slotAllocSize, pool.poolBytes
      ensures Valid() && Served((elementBytes * numElements) % TWO_64, mallocAddress, r, slot)
      ensures pool.mallocFallbackCount == old(pool.mallocFallbackCount) +
                if (elementBytes * numElements) % TWO_64 <= pool.slotBytes
                   && exists free :: 0 <= free < pool.numSlots && free !in old(pool.live) then 0 else 1
    {
      var byteCount := (elementBytes * numElements) % TWO_64;
      r, slot := AllocateBytes(byteCount, mallocAddress);
    }

    /** How a request is met: the pool serves it exactly when it fits into a slot
        and a slot is free, malloc otherwise; nothing else changes. */
    twostate predicate Served(byteCount: nat, mallocAddress: int, r: Block, slot: nat)
      reads this, pool, pool.poolBytes
    {
      if old(FromPool(byteCount)) then
        && heap == old(heap) && pool.mallocFallbackCount == old(pool.mallocFallbackCount)
        && (r.Failed? <==> byteCount > MAX_UINT32)
        && (r.At? ==>
              && slot < pool.numSlots && slot !in old(pool.live)
              && r.address == poolAddress + Times(slot, pool.slotBytes)
                && pool.live == old(pool.live)[slot := byteCount])
      else
        && r == At(mallocAddress) && heap == old(heap) + {mallocAddress}
        && pool.live == old(pool.live) && pool.poolBytes[..] == old(pool.poolBytes[..])
        && pool.mallocFallbackCount == old(pool.mallocFallbackCount) + 1
    }

    /** mallocAddress is what malloc would return. */
    method AllocateBytes(byteCount: nat, mallocAddress: int) returns (r: Block, ghost slot: nat)
      requires Valid() && !InPool(mallocAddress) && mallocAddress !in heap
      modifies this, pool, pool.freeSlotStack, pool.slotAllocSize, pool.poolBytes
      ensures Valid() && Served(byteCount, mallocAddress, r, slot)
    {
      var alloc := Null;
      slot := 0;
      if byteCount <= pool.slotBytes {
        alloc, slot := pool.AllocateSlot(byteCount);
      }
      match alloc
      case Pointer(offset) =>
        r := At(poolAddress + offset);
      case Aborted =>
        r := Failed;
      case Null =>
        FallBack(mallocAddress);
        r := At(mallocAddress);
    }

    method FallBack(mallocAddress: int)
      requires Valid() && !InPool(mallocAddress)
      modifies `heap, pool`mallocFallbackCount
      ensures Valid() && heap == old(heap) + {mallocAddress}
              && pool.mallocFallbackCount == old(pool.mallocFallbackCount) + 1
    {
      pool.mallocFallbackCount := pool.mallocFallbackCount + 1;
      heap := heap + {mallocAddress};
    }

    /** Every block goes back to where it came from; outside the pool it must have come from
        malloc. */
    method Deallocate(address: int) returns (ok: bool, ghost slot: nat)
      requires Valid() && (InPool(address) || address in heap)
      modifies this, pool, pool.freeSlotStack, pool.slotAllocSize, pool.poolBytes
      ensures ok <==> InPool(address) ==>
              slot in old(pool.live) && old(pool.live)[slot] > 0 && pool.Room(address - poolAddress)
      ensures InPool(address) ==>
                && slot < pool.numSlots && InSlot(address - poolAddress, slot, pool.slotBytes) && heap == old(heap)
                && (ok ==> pool.live == old(pool.live) - {slot})
                && (ok && (pool.validate ==> address == poolAddress + Times(slot, pool.slotBytes)) ==> Valid())
      ensures !InPool(address) ==>
                && Valid() && heap == old(heap) - {address}
                && pool.live == old(pool.live) && pool.poolBytes[..] == old(pool.poolBytes[..])
    {
      var inPool := pool.Contains(address - poolAddress);
      slot := 0;
      if inPool {
        ok, slot := GiveToPool(address);
      } else {
        heap := heap - {address};
        ok := true;
      }
    }

    method GiveToPool(address: int) returns (ok: bool, ghost slot: nat)
      requires Valid() && InPool(address)
      modifies pool, pool.freeSlotStack, pool.slotAllocSize, pool.poolBytes
      ensures ok <==> slot in old(pool.live) && old(pool.live)[slot] > 0 && pool.Room(address - poolAddress)
      ensures slot < pool.numSlots && InSlot(address - poolAddress, slot, pool.slotBytes)
      ensures ok ==> pool.live == old(pool.live) - {slot}
      ensures ok && (pool.validate ==> address == poolAddress + Times(slot, pool.slotBytes)) ==> Valid()
    {
      var r;
      r, slot := pool.DeallocateSlot(address - poolAddress);
      ok := r.Freed?;
    }

    /** What is allocated can be given back, which restores everything. A block from the pool
        ends in a failed assertion, on one side or the other, exactly if it has no bytes or
        more than 32 bits can count. */
    method AllocateAndFree(byteCount: nat, mallocAddress: int) returns (ok: bool)
      requires Valid() && !InPool(mallocAddress) && mallocAddress !in heap
      modifies this, pool, pool.freeSlotStack, pool.slotAllocSize, pool.poolBytes
      ensures ok <==> old(FromPool(byteCount)) ==> 0 < byteCount <= MAX_UINT32
      ensures ok ==> Valid() && heap == old(heap) && pool.live == old(pool.live)
    {
      ghost var live := pool.live;
      ghost var fromPool := FromPool(byteCount);
      var block, slot := AllocateBytes(byteCount, mallocAddress);
      if !fromPool {
        assert heap - {mallocAddress} == old(heap);
      }
      match block
      case Failed =>
        ok := false;
      case At(address) =>
        ok := FreeAgain(address, fromPool, slot, byteCount, live);
    }

    /** Gives back a block that was just allocated. */
    method FreeAgain(address: int, ghost fromPool: bool, ghost slot: nat, ghost byteCount: nat,
                     ghost live: map<nat, nat>)
      returns (ok: bool)
      requires Valid()
      requires if fromPool then
                 slot < pool.numSlots && slot !in live && address == poolAddress + Times(slot, pool.slotBytes)
                 && pool.live == live[slot := byteCount]
               else
                 address in heap && pool.live == live
      modifies this, pool, pool.freeSlotStack, pool.slotAllocSize, pool.poolBytes
      ensures ok <==> !fromPool || byteCount > 0
      ensures ok ==> Valid() && pool.live == live && heap == if fromPool then old(heap) else old(heap) - {address}
    {
      if fromPool {
        StepsApart(slot, pool.numSlots, pool.slotBytes);
        UndoUpdate(live, slot, byteCount);
      }
      ghost var freed;
      ok, freed := Deallocate(address);
      if fromPool {
        OneSlot(address - poolAddress, slot, freed, pool.slotBytes);
      }
    }
  }

  lemma UndoUpdate(m: map<nat, nat>, k: nat, v: nat)
    requires k !in m
    ensures m[k := v] - {k} == m
  {
  }

  /** The allocator of a configuration: slots for so many objects, as many as the bytes allow
      before the slot size is rounded up. */
  method Build(elementBytes: uint64, objectsPerSlot: uint64, totalBytes: uint64, alignment: uint64, validate: bool,
               poolAddress: int)
    returns (a: Allocator)
    requires 0 < elementBytes * objectsPerSlot <= totalBytes
    requires elementBytes * objectsPerSlot <= TWO_63 && alignment <= TWO_63
    ensures fresh(a) && fresh(a.pool) && fresh(a.pool.freeSlotStack) && fresh(a.pool.slotAllocSize)
    ensures fresh(a.pool.poolBytes) && a.Valid() && a.heap == {} && a.pool.live == map[]
    ensures a.elementBytes == elementBytes && a.poolAddress == poolAddress
    ensures a.pool.numSlots == totalBytes / (elementBytes * objectsPerSlot) >= 1
    ensures elementBytes * objectsPerSlot <= a.pool.slotBytes && alignment <= a.pool.slotBytes
    ensures a.pool.slotBytes < 2 * (elementBytes * objectsPerSlot) || a.pool.slotBytes < 2 * alignment
    ensures BitMath.IsPowerOfTwo(a.pool.slotBytes)
  {
    var bytes := elementBytes * objectsPerSlot;
    SlotsFit(totalBytes, bytes);
    var slotBytes := BitMath.SlotBytes(bytes, alignment);
    var pool := new Pool(slotBytes, totalBytes / bytes, validate);
    Positive(elementBytes, objectsPerSlot);
    a := new Allocator(pool, elementBytes, poolAddress);
  }

  lemma SlotsFit(totalBytes: nat, bytes: nat)
    requires 0 < bytes <= totalBytes
    ensures totalBytes / bytes >= 1
  {
  }

  lemma Positive(a: nat, b: nat)
    requires a * b > 0
    ensures a > 0
  {
  }

  /** Memory for no objects from a pool ends in a failed assertion when it is given back. */
  method EmptyBlock() returns (ok: bool)
    ensures !ok
  {
    var a := Build(8, 2, 64, 8, true, 0x1000);
    assert a.FromPool(0) by {
      assert 0 !in a.pool.live;
    }
    ok := a.AllocateAndFree(0, 0);
  }
}
