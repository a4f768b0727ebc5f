/** The mailbox as an object, for callers that use it from one thread. */
module SequentialMailbox {
  import opened Arith
  import opened Wrappers

  class BoundedMpscMailbox<T> {
    const capacity: nat
    const sequence: array<nat>
    const storage: array<Option<T>>
    var enqueuePosition: nat
    var dequeuePosition: nat

    /** The slot of every position in the current window is free, or holds its published value. */
    ghost predicate Valid()
      reads this, sequence, storage
    {
      && capacity >= 2 && sequence.Length == storage.Length == capacity
      && dequeuePosition <= enqueuePosition <= dequeuePosition + capacity
      && (forall k | dequeuePosition <= k < enqueuePosition ::
            sequence[k % capacity] == k + 1 && storage[k % capacity].Some?)
      && (forall k | enqueuePosition <= k < dequeuePosition + capacity :: sequence[k % capacity] == k)
    }

    ghost function ContentsFrom(k: nat): (r: seq<T>)
      requires Valid() && dequeuePosition <= k <= enqueuePosition
      reads this, sequence, storage
      ensures |r| == enqueuePosition - k
      ensures forall j | 0 <= j < |r| :: r[j] == storage[(k + j) % capacity].value
      decreases enqueuePosition - k
    {
      if k == enqueuePosition then [] else [storage[k % capacity].value] + ContentsFrom(k + 1)
    }

    ghost function Contents(): (r: seq<T>)
      requires Valid()
      reads this, sequence, storage
    {
      ContentsFrom(dequeuePosition)
    }

    constructor (capacity: nat)
      requires capacity >= 2
      ensures Valid() && this.capacity == capacity && Contents() == [] && fresh(sequence) && fresh(storage)
    {
      this.capacity := capacity;
      var slots := new nat[capacity];
      var index := 0;
      while index < capacity
        invariant 0 <= index <= capacity && forall k | 0 <= k < index :: slots[k] == k
      {
        slots[index] := index;
        index := index + 1;
      }
      sequence := slots;
      storage := new Option<T>[capacity](_ => None);
      enqueuePosition, dequeuePosition := 0, 0;
      new;
      forall k | 0 <= k < this.capacity ensures this.sequence[k % this.capacity] == k {
        SmallMod(k, this.capacity);
      }
    }

    /** Without other threads the compare-exchange succeeds and the retry loop runs once. */
    method TryEmplace(value: T) returns (ok: bool)
      requires Valid()
      modifies this`enqueuePosition, sequence, storage
      ensures Valid()
      ensures ok == (|old(Contents())| < capacity)
      ensures Contents() == if ok then old(Contents()) + [value] else old(Contents())
    {
      var position := enqueuePosition;
      var slot := position % capacity;
      var difference := sequence[slot] - position;
      if position == dequeuePosition + capacity {
        ModShift(dequeuePosition, 1, capacity);
        assert dequeuePosition + 1 * capacity == position;
      }
      if difference < 0 {
        return false;
      }
      assert position < dequeuePosition + capacity && difference == 0;
      SlotsDiffer();
      enqueuePosition := position + 1;
      storage[slot] := Some(value);
      sequence[slot] := position + 1;
      return true;
    }

    method TryPop() returns (result: Option<T>)
      requires Valid()
      modifies this`dequeuePosition, sequence, storage
      ensures Valid()
      ensures old(Contents()) == [] ==> result == None && Contents() == []
      ensures old(Contents()) != [] ==> result == Some(old(Contents())[0]) && Contents() == old(Contents())[1..]
    {
      var position := dequeuePosition;
      var slot := position % capacity;
      if sequence[slot] != position + 1 {
        return None;
      }
      SlotsDiffer();
      ModShift(position, 1, capacity);
      assert position + 1 * capacity == position + capacity;
      result := storage[slot];
      storage[slot] := None;
      sequence[slot] := position + capacity;
      dequeuePosition := position + 1;
    }

    /** Distinct positions of the window have distinct slots. */
    lemma SlotsDiffer()
      requires Valid()
      ensures forall a, b | dequeuePosition <= a < b < dequeuePosition + capacity :: a % capacity != b % capacity
    {
      forall a, b | dequeuePosition <= a < b < dequeuePosition + capacity ensures a % capacity != b % capacity {
        if a % capacity == b % capacity {
          SameRemainderGap(a, b, capacity);
        }
      }
    }

    method ApproximateSize() returns (size: nat)
      requires Valid()
      ensures size == |Contents()|
    {
      var difference := enqueuePosition - dequeuePosition;
      size := if difference < capacity then difference else capacity;
    }

    /** The destructor's loop: every published value is dropped. */
    method DestroyRemaining()
      requires Valid()
      modifies this`dequeuePosition, sequence, storage
      ensures Valid() && Contents() == [] && enqueuePosition == old(enqueuePosition)
    {
      while sequence[dequeuePosition % capacity] == dequeuePosition + 1
        invariant Valid() && enqueuePosition == old(enqueuePosition)
        decreases enqueuePosition - dequeuePosition
      {
        var head := TryPop();
      }
    }
  }
}
