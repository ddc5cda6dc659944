/** The ring that packets wait in: a FIFO of fixed capacity whose put() on a full ring drops the oldest item. */
module CircularBufferModel {

  /** What put() does to the items, oldest first. */
  function PutIn<T>(items: seq<T>, item: T, size: nat): seq<T> {
    if items != [] && |items| == size then items[1..] + [item] else items + [item]
  }

  /** put() keeps the newest items: all of them while there is room, and then all but the oldest. */
  lemma PutKeepsNewest<T>(items: seq<T>, item: T, size: nat)
    requires 0 < size && |items| <= size
    ensures var r := PutIn(items, item, size);
            && r == (items + [item])[|items| + 1 - |r|..]
            && |r| == if |items| < size then |items| + 1 else size
  {
  }

  /** The slot i places behind another, around the end of the array. */
  function Slot(from: nat, length: nat, i: nat): (at: nat)
    requires from < length && i <= length
    ensures at < length
  {
    if from + i < length then from + i else from + i - length
  }

  lemma SlotsShift(from: nat, length: nat, i: nat)
    requires from < length && i < length
    ensures Slot(Slot(from, length, 1), length, i) == Slot(from, length, i + 1)
  {
  }

  /** The slots of n items and, if there is room, the one behind them are all different. */
  lemma SlotsDiffer(from: nat, length: nat, i: nat, j: nat)
    requires from < length && i < j < length
    ensures Slot(from, length, i) != Slot(from, length, j)
  {
  }

  class CircularBuffer<T(0)> {
    var buffer: array<T>
    var readPos: nat
    var writePos: nat
    var count: nat

    ghost predicate Valid()
      reads this, buffer
    {
      && 0 < buffer.Length
      && readPos < buffer.Length && count <= buffer.Length
      && writePos == Slot(readPos, buffer.Length, count)
    }

    ghost function Items(): (items: seq<T>)
      requires Valid()
      reads this, buffer
      ensures |items| == count
    {
      seq(count, i requires 0 <= i < count && Valid() reads this, buffer => buffer[Slot(readPos, buffer.Length, i)])
    }

    constructor (size: nat)
      requires 0 < size
      ensures Valid() && fresh(buffer) && buffer.Length == size && Items() == []
    {
      buffer := new T[size];
      readPos, writePos, count := 0, 0, 0;
    }

    method NextPos(current: nat) returns (next: nat)
      requires current < buffer.Length
      ensures next == Slot(current, buffer.Length, 1)
    {
      next := (current + 1) % buffer.Length;
    }

    predicate IsFull()
      reads this, buffer
    {
      count == buffer.Length
    }

    method PutItem(item: T)
      requires Valid()
      modifies this`readPos, this`writePos, this`count, buffer
      ensures Valid() && Items() == PutIn(old(Items()), item, buffer.Length)
    {
      ghost var items, full, from := Items(), IsFull(), readPos;
      buffer[writePos] := item;
      if !IsFull() {
        count := count + 1;
      }
      if IsFull() && readPos == writePos {
        readPos := NextPos(readPos);
      }
      writePos := NextPos(writePos);
      forall i | 0 <= i < count ensures Items()[i] == PutIn(items, item, buffer.Length)[i] {
        SlotsShift(from, buffer.Length, i);
        if full && i < count - 1 {
          SlotsDiffer(from, buffer.Length, 0, i + 1);
        } else if !full && i < count - 1 {
          SlotsDiffer(from, buffer.Length, i, count - 1);
        }
      }
    }

    method GetItem() returns (res: bool, item: T)
      requires Valid()
      modifies this`readPos, this`count
      ensures Valid() && res == (old(Items()) != [])
      ensures res ==> item == old(Items())[0] && Items() == old(Items())[1..]
      ensures !res ==> Items() == old(Items())
    {
      item := buffer[readPos];
      res := count != 0;
      if res {
        readPos := NextPos(readPos);
        count := count - 1;
      }
    }

    method Clear()
      requires Valid()
      modifies this`readPos, this`writePos, this`count
      ensures Valid() && Items() == []
    {
      readPos, writePos, count := 0, 0, 0;
    }
  }
}
