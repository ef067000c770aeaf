/** The single-producer, single-consumer FIFO: a circular array of one cell more than it
    may hold items, so that equal indices mean empty. */
module SpscFifo {
  import opened RingIndex

  /** The two indices and the array. */
  datatype Fifo<T> = Fifo(head: nat, tail: nat, cells: seq<T>)

  ghost predicate InBounds<T>(fifo: Fifo<T>) {
    fifo.head < |fifo.cells| && fifo.tail < |fifo.cells|
  }

  ghost function QueueLength<T>(fifo: Fifo<T>): nat
    requires InBounds(fifo)
  {
    if fifo.head <= fifo.tail then fifo.tail - fifo.head else fifo.tail + |fifo.cells| - fifo.head
  }

  /** The content as a queue: the cells from head up to tail. */
  ghost function Queue<T>(fifo: Fifo<T>): seq<T>
    requires InBounds(fifo)
  {
    seq(QueueLength(fifo), i requires 0 <= i < QueueLength(fifo) =>
      fifo.cells[if fifo.head + i < |fifo.cells| then fifo.head + i else fifo.head + i - |fifo.cells|])
  }

  /** Empty and full, read off the two indices. */
  lemma EmptyAndFull<T>(fifo: Fifo<T>)
    requires InBounds(fifo)
    ensures |Queue(fifo)| == QueueLength(fifo) < |fifo.cells|
    ensures fifo.head == fifo.tail <==> Queue(fifo) == []
    ensures Inc(fifo.tail, |fifo.cells|) == fifo.head <==> |Queue(fifo)| == |fifo.cells| - 1
  {
  }

  /** Writing the cell at tail leaves the queue alone: that cell is not part of it. */
  lemma CellStoreKeeps<T>(fifo: Fifo<T>, item: T)
    requires InBounds(fifo)
    ensures Queue(fifo.(cells := fifo.cells[fifo.tail := item])) == Queue(fifo)
  {
  }

  /** Moving tail on appends the cell it leaves. */
  lemma TailStoreAppends<T>(fifo: Fifo<T>)
    requires InBounds(fifo) && Inc(fifo.tail, |fifo.cells|) != fifo.head
    ensures Queue(fifo.(tail := Inc(fifo.tail, |fifo.cells|))) == Queue(fifo) + [fifo.cells[fifo.tail]]
  {
  }

  /** Moving head on removes the cell it leaves. */
  lemma HeadStoreRemoves<T>(fifo: Fifo<T>)
    requires InBounds(fifo) && fifo.head != fifo.tail
    ensures Queue(fifo) == [fifo.cells[fifo.head]] + Queue(fifo.(head := Inc(fifo.head, |fifo.cells|)))
  {
  }

  /** The FIFO as an object, used by one thread at a time. */
  class CircularFifo<T(0)> {
    const size: nat
    var tail: nat
    var head: nat
    const cells: array<T>

    ghost function View(): Fifo<T>
      reads this, cells
    {
      Fifo(head, tail, cells[..])
    }

    ghost predicate Valid()
      reads this, cells
    {
      cells.Length == size + 1 && InBounds(View())
    }

    ghost function Contents(): seq<T>
      requires Valid()
      reads this, cells
    {
      Queue(View())
    }

    constructor (size: nat)
      ensures Valid() && fresh(cells) && this.size == size && Contents() == []
    {
      this.size := size;
      tail, head := 0, 0;
      cells := new T[size + 1];
    }

    method Increment(index: nat) returns (next: nat)
      requires index < cells.Length
      ensures next == Inc(index, cells.Length)
    {
      IncIsModulus(index, cells.Length);
      next := (index + 1) % cells.Length;
    }

    /** Appends the item unless the queue is full. */
    method Push(item: T) returns (ok: bool)
      requires Valid()
      modifies this`tail, cells
      ensures Valid()
      ensures ok <==> |old(Contents())| < size
      ensures Contents() == if ok then old(Contents()) + [item] else old(Contents())
    {
      EmptyAndFull(View());
      var currentTail := tail;
      var nextTail := Increment(currentTail);
      if nextTail != head {
        ghost var before := View();
        CellStoreKeeps(before, item);
        TailStoreAppends(before.(cells := before.cells[tail := item]));
        cells[currentTail] := item;
        tail := nextTail;
        assert View() == Fifo(head, nextTail, before.cells[currentTail := item]);
        return true;
      }
      return false;
    }

    /** Removes the oldest item unless the queue is empty. */
    method Pop(item: T) returns (ok: bool, item': T)
      requires Valid()
      modifies this`head
      ensures Valid()
      ensures ok <==> old(Contents()) != []
      ensures if ok then old(Contents()) == [item'] + Contents() else item' == item && Contents() == old(Contents())
    {
      EmptyAndFull(View());
      var currentHead := head;
      if currentHead == tail {
        return false, item;
      }
      HeadStoreRemoves(View());
      item' := cells[currentHead];
      head := Increment(currentHead);
      return true, item';
    }

    method WasEmpty() returns (r: bool)
      requires Valid()
      ensures r <==> Contents() == []
    {
      EmptyAndFull(View());
      r := head == tail;
    }

    method WasFull() returns (r: bool)
      requires Valid()
      ensures r <==> |Contents()| == size
    {
      EmptyAndFull(View());
      var nextTail := Increment(tail);
      r := nextTail == head;
    }
  }
}
