/**
One call at a time on the ring of MPMCQueue.hpp, in its own imperative form: a caller that runs
with no other call in flight. `MpmcRing.QuiescentRingIsSettled` shows that every such moment of
every concurrent run satisfies the `Settled` that these methods start from.
*/
module MpmcQueue {
  import opened Arith
  import opened MpmcRing

  /** Bitwise and of two naturals, lowest bit first. */
  function BitAnd(x: nat, y: nat): nat {
    if x == 0 || y == 0 then 0
    else (if x % 2 == 1 && y % 2 == 1 then 1 else 0) + 2 * BitAnd(x / 2, y / 2)
  }

  lemma {:induction false} MaskIsModulo(pos: nat, k: nat)
    ensures Pow2(k) >= 1 && BitAnd(pos, Pow2(k) - 1) == pos % Pow2(k)
    decreases k
  {
    Pow2Positive(k);
    if k > 0 {
      var half := Pow2(k - 1);
      Pow2Positive(k - 1);
      MaskIsModulo(pos / 2, k - 1);
      ModDouble(pos, half);
      assert (2 * half - 1) % 2 == 1 && (2 * half - 1) / 2 == half - 1;
    }
  }

  lemma ModDouble(x: nat, half: nat)
    requires half > 0
    ensures x % (2 * half) == x % 2 + 2 * (x / 2 % half)
  {
    var q, r := x / 2 / half, x / 2 % half;
    assert x / 2 == half * q + r;
    assert 2 * (half * q) == (2 * half) * q;
    DivModUnique(x, 2 * half, q, x % 2 + 2 * r);
  }

  /** The cell index `pos & (Capacity - 1)` of the code is the `Slot` of the model. */
  lemma MaskIsSlot(pos: nat, k: nat)
    ensures Pow2(k) >= 1 && BitAnd(pos, Pow2(k) - 1) == Slot(Pow2(k), pos)
  {
    MaskIsModulo(pos, k);
    SlotIsMod(Pow2(k), pos);
  }

  class MPMCQueue<T(0)> {
    var head: nat
    var tail: nat
    const sequence: array<nat>
    const data: array<T>
    ghost var contents: seq<T>

    ghost predicate Valid()
      reads this, sequence, data
    {
      && sequence as object != data
      && Settled(sequence.Length, head, tail, sequence[..], data[..], contents)
    }

    /** Every capacity the static_assert admits can be built; from two cells on the queue is a bounded FIFO. */
    constructor (capacity: nat)
      requires capacity >= 1
      ensures fresh(sequence) && fresh(data) && sequence.Length == data.Length == capacity
      ensures head == tail == 0 && contents == [] && forall k | 0 <= k < capacity :: sequence[k] == k
      ensures capacity >= 2 ==> Valid()
    {
      head, tail := 0, 0;
      contents := [];
      var cells := new nat[capacity];
      sequence := cells;
      data := new T[capacity];
      new;
      for i := 0 to capacity
        invariant forall k :: 0 <= k < i ==> sequence[k] == k
        invariant head == tail == 0 && contents == []
      {
        sequence[i] := i;
      }
      forall t: nat | 0 <= t < capacity ensures Slot(capacity, t) == t { }
    }

    /** `weakFailures` is how often `compare_exchange_weak` fails spuriously before it succeeds. */
    method Push(item: T, weakFailures: nat) returns (ok: bool)
      requires Valid()
      modifies this, sequence, data
      ensures Valid()
      ensures ok <==> |old(contents)| < sequence.Length
      ensures contents == if ok then old(contents) + [item] else old(contents)
    {
      var cap := sequence.Length;
      var failures := weakFailures;
      var pos := head;
      NextCells(cap, head, tail, sequence[..], data[..], contents);
      while true
        invariant pos == head && tail == old(tail) && contents == old(contents) && Valid()
        invariant sequence[..] == old(sequence[..]) && head == old(head)
        decreases failures
      {
        var cell := Slot(cap, pos);
        var seqNo := sequence[cell];
        if seqNo == pos {
          if failures == 0 {
            PushFillsCell(cap, head, tail, sequence[..], data[..], contents, item);
            ghost var filled, marked := data[..][cell := item], sequence[..][cell := pos + 1];
            head := pos + 1;
            data[cell] := item;
            sequence[cell] := pos + 1;
            contents := contents + [item];
            assert data[..] == filled && sequence[..] == marked;
            return true;
          }
          failures := failures - 1;
          pos := head;
        } else if seqNo < pos {
          return false;
        } else {
          assert false;
        }
      }
    }

    method Pop(weakFailures: nat, fallback: T) returns (ok: bool, item: T)
      requires Valid()
      modifies this, sequence
      ensures Valid()
      ensures ok <==> |old(contents)| > 0
      ensures ok ==> [item] + contents == old(contents)
      ensures !ok ==> item == fallback && contents == old(contents)
    {
      var cap := sequence.Length;
      var failures := weakFailures;
      var pos := tail;
      item := fallback;
      NextCells(cap, head, tail, sequence[..], data[..], contents);
      while true
        invariant pos == tail && head == old(head) && contents == old(contents) && item == fallback && Valid()
        invariant sequence[..] == old(sequence[..]) && tail == old(tail)
        decreases failures
      {
        var cell := Slot(cap, pos);
        var seqNo := sequence[cell];
        if seqNo == pos + 1 {
          if failures == 0 {
            PopRecyclesCell(cap, head, tail, sequence[..], data[..], contents);
            ghost var marked := sequence[..][cell := pos + cap];
            tail := pos + 1;
            item := data[cell];
            sequence[cell] := pos + cap;
            contents := contents[1..];
            assert sequence[..] == marked;
            return true, item;
          }
          failures := failures - 1;
          pos := tail;
        } else if seqNo < pos + 1 {
          return false, item;
        } else {
          assert false;
        }
      }
    }
  }

  /** What the cells of the next tickets show when no call is in flight. */
  lemma NextCells<T>(cap: nat, head: nat, tail: nat, sq: seq<nat>, data: seq<T>, queue: seq<T>)
    requires Settled(cap, head, tail, sq, data, queue)
    ensures sq[Slot(cap, head)] == if head < tail + cap then head else tail + 1
    ensures sq[Slot(cap, tail)] == if tail < head then tail + 1 else tail
  {
    SlotPeriod(cap, tail);
  }

  /** Storing into the free cell of ticket `head` keeps the ring settled. */
  lemma PushFillsCell<T>(cap: nat, head: nat, tail: nat, sq: seq<nat>, data: seq<T>, queue: seq<T>, item: T)
    requires Settled(cap, head, tail, sq, data, queue) && head < tail + cap
    ensures Settled(cap, head + 1, tail, sq[Slot(cap, head) := head + 1], data[Slot(cap, head) := item], queue + [item])
  {
    OtherSlots(cap, tail, head);
  }

  /** Recycling the published cell of ticket `tail` keeps the ring settled. */
  lemma PopRecyclesCell<T>(cap: nat, head: nat, tail: nat, sq: seq<nat>, data: seq<T>, queue: seq<T>)
    requires Settled(cap, head, tail, sq, data, queue) && tail < head
    ensures data[Slot(cap, tail)] == queue[0]
    ensures Settled(cap, head, tail + 1, sq[Slot(cap, tail) := tail + cap], data, queue[1..])
  {
    SlotPeriod(cap, tail);
    OtherSlots(cap, tail, tail);
  }
}
