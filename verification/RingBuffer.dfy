/** The ring of packet buffers. */
module RingBuffer {
  import opened Basics
  import opened RingIndex

  datatype Slot = Slot(length: nat, bytes: seq<uint8>)

  /** The current entry and all buffers. */
  datatype Ring = Ring(entry: nat, slots: seq<Slot>)

  ghost predicate RingWellFormed(ring: Ring, entries: nat, bufferSize: nat) {
    && |ring.slots| == entries && ring.entry < entries
    && forall i :: 0 <= i < |ring.slots| ==> |ring.slots[i].bytes| == bufferSize
  }

  ghost function StoreSlot(ring: Ring, i: nat, slot: Slot): Ring
    requires i < |ring.slots|
  {
    Ring(ring.entry, ring.slots[i := slot])
  }

  /** A buffer comes round again exactly after a full round of moves. */
  lemma ComesRoundAfter(advanced: nat, moves: nat, entries: nat)
    requires 0 < moves <= entries
    ensures Pos(advanced + moves, entries) == Pos(advanced, entries) <==> moves == entries
  {
    if moves < entries {
      PosDistinct(advanced, advanced + moves, entries);
    } else {
      PosOffset(advanced, entries - 1, entries);
      assert Pos(advanced + entries, entries) == Inc(Pos(advanced + (entries - 1), entries), entries);
    }
  }

  /** The ring as an object, as its producer uses it. */
  class RingBuffer {
    const maxEntries: nat
    const bufferSize: nat
    var entry: nat
    const slots: array<Slot>
    // how often the ring moved on
    ghost var advanced: nat

    ghost function View(): Ring
      reads this, slots
    {
      Ring(entry, slots[..])
    }

    ghost predicate Valid()
      reads this, slots
    {
      maxEntries > 0 && RingWellFormed(View(), maxEntries, bufferSize) && entry == Pos(advanced, maxEntries)
    }

    /** The memory of the buffers is what it happened to be, lengths included. */
    constructor (entries: nat, memory: seq<Slot>)
      requires entries == |memory| > 0 && forall i :: 0 <= i < entries ==> |memory[i].bytes| == |memory[0].bytes|
      ensures Valid() && fresh(slots) && maxEntries == entries && bufferSize == |memory[0].bytes|
      ensures View() == Ring(0, memory) && advanced == 0
    {
      maxEntries, bufferSize := entries, |memory[0].bytes|;
      entry, advanced := 0, 0;
      slots := new Slot[entries](i requires 0 <= i < entries => memory[i]);
    }

    method GetDataIndex() returns (index: nat)
      requires Valid()
      ensures index == entry < maxEntries
    {
      index := entry;
    }

    /** The asserted conditions are those of the program. */
    method SetDataLength(index: nat, length: nat)
      requires Valid() && length <= bufferSize && index < maxEntries
      modifies slots
      ensures Valid() && View() == StoreSlot(old(View()), index, old(slots[index]).(length := length))
    {
      slots[index] := slots[index].(length := length);
    }

    method GetDataLength(index: nat) returns (length: nat)
      requires Valid() && index < maxEntries
      ensures length == slots[index].length
    {
      length := slots[index].length;
    }

    /** One byte written through the pointer that getDataBuffer returns. */
    method WriteByte(index: nat, k: nat, b: uint8)
      requires Valid() && index < maxEntries && k < bufferSize
      modifies slots
      ensures Valid()
      ensures View() == StoreSlot(old(View()), index, old(slots[index]).(bytes := old(slots[index]).bytes[k := b]))
    {
      slots[index] := slots[index].(bytes := slots[index].bytes[k := b]);
    }

    /** Moves on to the next buffer, around the ring. */
    method GetNextBuffer() returns (index: nat)
      requires Valid()
      modifies `entry, `advanced
      ensures Valid() && index == entry == Inc(old(entry), maxEntries) && advanced == old(advanced) + 1
    {
      IncIsModulus(entry, maxEntries);
      index := (entry + 1) % maxEntries;
      entry, advanced := index, advanced + 1;
    }
  }
}
