/**
The lock-free multi-producer multi-consumer ring of MPMCQueue.hpp as a transition system.

Every `push` or `pop` call is an operation with its own program counter; one transition is one
atomic load, compare-and-swap or store (or the one access to a cell's data between two of them).
A run is any sequence of labels, so it covers every interleaving of any number of calls, with
spurious failures of `compare_exchange_weak` chosen by the label. Tickets are unbounded.
*/
module MpmcRing {
  import opened Arith

  /** Where one call stands. `pos` is the local ticket of the call. */
  datatype Op<T> =
    | PushLoadHead(item: T)
    | PushLoadSeq(item: T, pos: nat)
    | PushCas(item: T, pos: nat)
    | PushWrite(item: T, pos: nat)
    | PushPublish(item: T, pos: nat)
    | PushDone(item: T, pos: nat)      // returned true
    | PushFull(item: T)                // returned false
    | PopLoadTail
    | PopLoadSeq(pos: nat)
    | PopCas(pos: nat)
    | PopRead(pos: nat)
    | PopRecycle(item: T, pos: nat)
    | PopDone(item: T, pos: nat)       // returned true
    | PopEmpty                         // returned false
  {
    /** The call has won ticket `pos` of `head_`. */
    predicate ClaimedPush() { PushWrite? || PushPublish? || PushDone? }

    /** The call has won ticket `pos` of `tail_`. */
    predicate ClaimedPop() { PopRead? || PopRecycle? || PopDone? }

    predicate Finished() { PushDone? || PushFull? || PopDone? || PopEmpty? }

    /** The next transition of the call touches the data of cell `Slot(cap, pos)`. */
    predicate TouchesData() { PushWrite? || PopRead? }
  }

  /** `pushed[t]` records the item of the call that won ticket `t`; the code keeps no such record. */
  datatype Ring<T> = Ring(
    cap: nat,
    head: nat,
    tail: nat,
    sequence: seq<nat>,
    data: seq<T>,
    ops: map<nat, Op<T>>,
    pushed: seq<T>)

  datatype Label<T> =
    | BeginPush(id: nat, item: T)
    | BeginPop(id: nat)
    | Advance(id: nat, spurious: bool)

  predicate WellShaped<T>(s: Ring<T>) {
    s.cap > 0 && |s.sequence| == s.cap && |s.data| == s.cap
  }

  /** The constructed queue: cell i starts with sequence number i; its data is whatever it was. */
  function Init<T>(data: seq<T>): Ring<T>
  {
    Ring(|data|, 0, 0, seq(|data|, i => i), data, map[], [])
  }

  function SetOp<T>(s: Ring<T>, id: nat, op: Op<T>): Ring<T> {
    s.(ops := s.ops[id := op])
  }

  function AdvancePush<T>(s: Ring<T>, id: nat, op: Op<T>, spurious: bool): Ring<T>
    requires WellShaped(s)
  {
    match op
    case PushLoadHead(v) => SetOp(s, id, PushLoadSeq(v, s.head))
    case PushLoadSeq(v, pos) =>
      var q := s.sequence[Slot(s.cap, pos)];
      SetOp(s, id, if q == pos then PushCas(v, pos) else if q < pos then PushFull(v) else PushLoadHead(v))
    case PushCas(v, pos) =>
      if s.head == pos && !spurious then
        SetOp(s.(head := pos + 1, pushed := s.pushed + [v]), id, PushWrite(v, pos))
      else
        SetOp(s, id, PushLoadSeq(v, s.head))
    case PushWrite(v, pos) =>
      SetOp(s.(data := s.data[Slot(s.cap, pos) := v]), id, PushPublish(v, pos))
    case PushPublish(v, pos) =>
      SetOp(s.(sequence := s.sequence[Slot(s.cap, pos) := pos + 1]), id, PushDone(v, pos))
    case _ => s
  }

  function AdvancePop<T>(s: Ring<T>, id: nat, op: Op<T>, spurious: bool): Ring<T>
    requires WellShaped(s)
  {
    match op
    case PopLoadTail => SetOp(s, id, PopLoadSeq(s.tail))
    case PopLoadSeq(pos) =>
      var q := s.sequence[Slot(s.cap, pos)];
      SetOp(s, id, if q == pos + 1 then PopCas(pos) else if q < pos + 1 then PopEmpty else PopLoadTail)
    case PopCas(pos) =>
      if s.tail == pos && !spurious then
        SetOp(s.(tail := pos + 1), id, PopRead(pos))
      else
        SetOp(s, id, PopLoadSeq(s.tail))
    case PopRead(pos) => SetOp(s, id, PopRecycle(s.data[Slot(s.cap, pos)], pos))
    case PopRecycle(v, pos) =>
      SetOp(s.(sequence := s.sequence[Slot(s.cap, pos) := pos + s.cap]), id, PopDone(v, pos))
    case _ => s
  }

  /** One transition. A label that is not enabled leaves the state alone. */
  function Apply<T>(s: Ring<T>, l: Label<T>): (r: Ring<T>)
    requires WellShaped(s)
    ensures WellShaped(r)
  {
    match l
    case BeginPush(id, v) => if id in s.ops then s else SetOp(s, id, PushLoadHead(v))
    case BeginPop(id) => if id in s.ops then s else SetOp(s, id, PopLoadTail)
    case Advance(id, spurious) =>
      if id !in s.ops then s else AdvancePop(AdvancePush(s, id, s.ops[id], spurious), id, s.ops[id], spurious)
  }

  function Exec<T>(s: Ring<T>, ls: seq<Label<T>>): (r: Ring<T>)
    requires WellShaped(s)
    ensures WellShaped(r)
  {
    if ls == [] then s else Apply(Exec(s, ls[..|ls| - 1]), ls[|ls| - 1])
  }

  // ---------------------------------------------------------------------------------------------
  // The invariant
  // ---------------------------------------------------------------------------------------------

  /** What cell `Slot(cap, t)` holds, for a ticket t of the window [tail, tail + cap). */
  ghost predicate CellOk<T>(s: Ring<T>, t: nat)
    requires WellShaped(s) && |s.pushed| == s.head
  {
    var q := s.sequence[Slot(s.cap, t)];
    if t < s.head then
      q == t || (q == t + 1 && s.data[Slot(s.cap, t)] == s.pushed[t])
    else
      || q == t
      || (t >= s.cap && q == t - s.cap + 1 && t - s.cap < s.head && s.data[Slot(s.cap, t)] == s.pushed[t - s.cap])
  }

  ghost predicate OpOk<T>(s: Ring<T>, op: Op<T>)
    requires WellShaped(s) && |s.pushed| == s.head
  {
    match op
    case PushLoadSeq(_, pos) => pos <= s.head
    case PushCas(_, pos) => pos <= s.head && (pos == s.head ==> s.sequence[Slot(s.cap, pos)] == pos)
    case PushWrite(v, pos) =>
      s.tail <= pos < s.head && s.sequence[Slot(s.cap, pos)] == pos && s.pushed[pos] == v
    case PushPublish(v, pos) =>
      && s.tail <= pos < s.head && s.sequence[Slot(s.cap, pos)] == pos
      && s.pushed[pos] == v && s.data[Slot(s.cap, pos)] == v
    case PushDone(v, pos) => pos < s.head && s.pushed[pos] == v && s.sequence[Slot(s.cap, pos)] > pos
    case PopLoadSeq(pos) => pos <= s.tail
    case PopCas(pos) => pos <= s.tail && (pos == s.tail ==> s.sequence[Slot(s.cap, pos)] == pos + 1)
    case PopRead(pos) => pos < s.tail && s.head <= pos + s.cap && s.sequence[Slot(s.cap, pos)] == pos + 1
    case PopRecycle(v, pos) =>
      pos < s.tail <= s.head <= pos + s.cap && s.sequence[Slot(s.cap, pos)] == pos + 1 && v == s.pushed[pos]
    case PopDone(v, pos) => pos < s.tail <= s.head && s.sequence[Slot(s.cap, pos)] >= pos + s.cap && v == s.pushed[pos]
    case _ => true
  }

  ghost predicate Shape<T>(s: Ring<T>) {
    WellShaped(s) && s.cap >= 2 && |s.pushed| == s.head && s.tail <= s.head <= s.tail + s.cap
  }

  ghost predicate Cells<T>(s: Ring<T>)
    requires Shape(s)
  {
    forall t: nat | s.tail <= t < s.tail + s.cap :: CellOk(s, t)
  }

  ghost predicate Ops<T>(s: Ring<T>)
    requires Shape(s)
  {
    forall id | id in s.ops :: OpOk(s, s.ops[id])
  }

  /** No two calls hold the same push ticket, and no two the same pop ticket. */
  ghost predicate Distinct<T>(s: Ring<T>) {
    forall i, j | i in s.ops && j in s.ops && i != j ::
      && (s.ops[i].ClaimedPush() && s.ops[j].ClaimedPush() ==> s.ops[i].pos != s.ops[j].pos)
      && (s.ops[i].ClaimedPop() && s.ops[j].ClaimedPop() ==> s.ops[i].pos != s.ops[j].pos)
  }

  ghost predicate HasPush<T>(s: Ring<T>, t: nat) {
    exists id :: id in s.ops && s.ops[id].ClaimedPush() && s.ops[id].pos == t
  }

  ghost predicate HasPop<T>(s: Ring<T>, t: nat) {
    exists id :: id in s.ops && s.ops[id].ClaimedPop() && s.ops[id].pos == t
  }

  /** Every ticket handed out belongs to a call. */
  ghost predicate Owned<T>(s: Ring<T>) {
    && (forall t: nat | t < s.head :: HasPush(s, t))
    && (forall t: nat | t < s.tail :: HasPop(s, t))
  }

  ghost predicate Inv<T>(s: Ring<T>) {
    Shape(s) && Cells(s) && Ops(s) && Distinct(s) && Owned(s)
  }

  // ---------------------------------------------------------------------------------------------
  // Tickets and cells
  // ---------------------------------------------------------------------------------------------

  /** With one cell only, ticket p + 1 would share the cell of ticket p. */
  lemma NextCellDiffers(cap: nat, p: nat)
    requires cap >= 2
    ensures Slot(cap, p + 1) != Slot(cap, p)
  {
    if Slot(cap, p + 1) == Slot(cap, p) { SlotInjective(cap, p, p + 1); }
  }

  // ---------------------------------------------------------------------------------------------
  // Every transition keeps the invariant
  // ---------------------------------------------------------------------------------------------

  lemma InitInv<T>(data: seq<T>)
    requires |data| >= 2
    ensures Inv(Init(data))
  {
    var s := Init(data);
    forall t: nat | s.tail <= t < s.tail + s.cap ensures CellOk(s, t) {
      assert Slot(s.cap, t) == t;
    }
  }

  /** A step that only moves one call, to a state that claims no new ticket. */
  lemma MoveKeepsInv<T>(s: Ring<T>, id: nat, op: Op<T>)
    requires Inv(s) && OpOk(s, op)
    requires op.ClaimedPush() ==> id in s.ops && s.ops[id].ClaimedPush() && s.ops[id].pos == op.pos
    requires op.ClaimedPop() ==> id in s.ops && s.ops[id].ClaimedPop() && s.ops[id].pos == op.pos
    requires id in s.ops && s.ops[id].ClaimedPush() ==> op.ClaimedPush()
    requires id in s.ops && s.ops[id].ClaimedPop() ==> op.ClaimedPop()
    ensures Inv(SetOp(s, id, op))
  {
    var r := SetOp(s, id, op);
    assert Cells(r) by {
      forall t: nat | r.tail <= t < r.tail + r.cap ensures CellOk(r, t) { assert CellOk(s, t); }
    }
    assert Ops(r) by {
      forall i | i in r.ops ensures OpOk(r, r.ops[i]) { if i != id { assert OpOk(s, s.ops[i]); } }
    }
    OwnedKept(s, r, id);
  }

  lemma OwnedKept<T>(s: Ring<T>, r: Ring<T>, id: nat)
    requires Owned(s) && s.head == r.head && s.tail == r.tail
    requires id in r.ops && r.ops == s.ops[id := r.ops[id]]
    requires id in s.ops && s.ops[id].ClaimedPush() ==> r.ops[id].ClaimedPush() && r.ops[id].pos == s.ops[id].pos
    requires id in s.ops && s.ops[id].ClaimedPop() ==> r.ops[id].ClaimedPop() && r.ops[id].pos == s.ops[id].pos
    ensures Owned(r)
  {
    forall t: nat | t < r.head ensures HasPush(r, t) {
      assert HasPush(s, t);
      var i :| i in s.ops && s.ops[i].ClaimedPush() && s.ops[i].pos == t;
      assert i in r.ops && r.ops[i].ClaimedPush() && r.ops[i].pos == t;
    }
    forall t: nat | t < r.tail ensures HasPop(r, t) {
      assert HasPop(s, t);
      var i :| i in s.ops && s.ops[i].ClaimedPop() && s.ops[i].pos == t;
      assert i in r.ops && r.ops[i].ClaimedPop() && r.ops[i].pos == t;
    }
  }

  lemma PushCasKeepsInv<T>(s: Ring<T>, id: nat)
    requires Inv(s) && id in s.ops && s.ops[id].PushCas? && s.head == s.ops[id].pos
    ensures Inv(AdvancePush(s, id, s.ops[id], false))
  {
    var v, pos := s.ops[id].item, s.head;
    var r := AdvancePush(s, id, s.ops[id], false);
    assert OpOk(s, s.ops[id]);
    WinnersFindRoom(s, id);
    assert CellOk(s, pos);
    assert Cells(r) by {
      forall t: nat | r.tail <= t < r.tail + r.cap ensures CellOk(r, t) { assert CellOk(s, t); }
    }
    assert Ops(r) by {
      forall i | i in r.ops ensures OpOk(r, r.ops[i]) {
        if i != id {
          assert OpOk(s, s.ops[i]);
          if s.ops[i].PopRead? || s.ops[i].PopRecycle? {
            if s.head == s.ops[i].pos + s.cap { SlotPeriod(s.cap, s.ops[i].pos); }
          }
        }
      }
    }
    assert Distinct(r) by {
      forall i | i in s.ops && i != id && s.ops[i].ClaimedPush() ensures s.ops[i].pos != pos {
        assert OpOk(s, s.ops[i]);
      }
    }
    assert Owned(r) by { OwnedAfterPushCas(s, r, id); }
  }

  lemma OwnedAfterPushCas<T>(s: Ring<T>, r: Ring<T>, id: nat)
    requires Owned(s) && id in s.ops && s.ops[id].PushCas? && r.head == s.head + 1 && r.tail == s.tail
    requires id in r.ops && r.ops == s.ops[id := r.ops[id]] && r.ops[id].ClaimedPush() && r.ops[id].pos == s.head
    ensures Owned(r)
  {
    var m := r.(head := s.head);
    OwnedKept(s, m, id);
    forall t: nat | t < r.head ensures HasPush(r, t) {
      if t < s.head {
        assert HasPush(m, t);
        var i :| i in m.ops && m.ops[i].ClaimedPush() && m.ops[i].pos == t;
        assert i in r.ops && r.ops[i].ClaimedPush() && r.ops[i].pos == t;
      } else {
        assert r.ops[id].pos == t;
      }
    }
    forall t: nat | t < r.tail ensures HasPop(r, t) {
      assert HasPop(m, t);
      var i :| i in m.ops && m.ops[i].ClaimedPop() && m.ops[i].pos == t;
      assert i in r.ops && r.ops[i].ClaimedPop() && r.ops[i].pos == t;
    }
  }

  /** Filling the claimed cell touches no cell that holds an unread item. */
  lemma PushWriteKeepsInv<T>(s: Ring<T>, id: nat)
    requires Inv(s) && id in s.ops && s.ops[id].PushWrite?
    ensures Inv(AdvancePush(s, id, s.ops[id], false))
  {
    var v, pos := s.ops[id].item, s.ops[id].pos;
    var r := AdvancePush(s, id, s.ops[id], false);
    assert OpOk(s, s.ops[id]);
    OtherSlots(s.cap, s.tail, pos);
    assert Cells(r) by {
      forall t: nat | r.tail <= t < r.tail + r.cap ensures CellOk(r, t) { assert CellOk(s, t); }
    }
    assert Ops(r) by {
      forall i | i in r.ops ensures OpOk(r, r.ops[i]) {
        if i != id {
          assert OpOk(s, s.ops[i]);
          if s.ops[i].PushPublish? { OtherSlots(s.cap, s.tail, s.ops[i].pos); }
        }
      }
    }
    OwnedKept(s, r, id);
  }

  lemma PushPublishKeepsInv<T>(s: Ring<T>, id: nat)
    requires Inv(s) && id in s.ops && s.ops[id].PushPublish?
    ensures Inv(AdvancePush(s, id, s.ops[id], false))
  {
    var v, pos := s.ops[id].item, s.ops[id].pos;
    var r := AdvancePush(s, id, s.ops[id], false);
    assert OpOk(s, s.ops[id]);
    PublishKeepsCells(s, r, pos);
    assert Ops(r) by {
      forall i | i in r.ops ensures OpOk(r, r.ops[i]) {
        if i != id {
          assert OpOk(s, s.ops[i]);
          PublishKeepsOp(s, r, pos, s.ops[i]);
        }
      }
    }
    OwnedKept(s, r, id);
  }

  lemma PublishKeepsCells<T>(s: Ring<T>, r: Ring<T>, pos: nat)
    requires Shape(s) && Cells(s) && s.tail <= pos < s.head && s.data[Slot(s.cap, pos)] == s.pushed[pos]
    requires r == s.(ops := r.ops, sequence := s.sequence[Slot(s.cap, pos) := pos + 1])
    ensures Shape(r) && Cells(r)
  {
    OtherSlots(s.cap, s.tail, pos);
    forall t: nat | r.tail <= t < r.tail + r.cap ensures CellOk(r, t) { assert CellOk(s, t); }
  }

  lemma PublishKeepsOp<T>(s: Ring<T>, r: Ring<T>, pos: nat, op: Op<T>)
    requires Shape(s) && s.tail <= pos < s.head && s.sequence[Slot(s.cap, pos)] == pos
    requires r == s.(ops := r.ops, sequence := s.sequence[Slot(s.cap, pos) := pos + 1])
    requires OpOk(s, op) && ((op.PushWrite? || op.PushPublish?) ==> op.pos != pos)
    ensures OpOk(r, op)
  {
    match op
    case PopCas(p) => NextCellDiffers(s.cap, p);
    case PopRead(p) => NextCellDiffers(s.cap, p);
    case PopRecycle(_, p) => NextCellDiffers(s.cap, p);
    case _ =>
  }

  lemma PopCasKeepsInv<T>(s: Ring<T>, id: nat)
    requires Inv(s) && id in s.ops && s.ops[id].PopCas? && s.tail == s.ops[id].pos
    ensures Inv(AdvancePop(s, id, s.ops[id], false))
  {
    var pos := s.tail;
    var r := AdvancePop(s, id, s.ops[id], false);
    assert OpOk(s, s.ops[id]);
    assert CellOk(s, pos);
    assert Shape(r);
    assert Cells(r) by {
      forall t: nat | r.tail <= t < r.tail + r.cap ensures CellOk(r, t) {
        if t < s.tail + s.cap { assert CellOk(s, t); } else { SlotPeriod(s.cap, pos); }
      }
    }
    assert Ops(r) by {
      forall i | i in r.ops ensures OpOk(r, r.ops[i]) {
        if i != id { assert OpOk(s, s.ops[i]); }
      }
    }
    assert Distinct(r) by {
      forall i | i in s.ops && i != id && s.ops[i].ClaimedPop() ensures s.ops[i].pos != pos {
        assert OpOk(s, s.ops[i]);
      }
    }
    assert Owned(r) by { OwnedAfterPopCas(s, r, id); }
  }

  lemma OwnedAfterPopCas<T>(s: Ring<T>, r: Ring<T>, id: nat)
    requires Owned(s) && id in s.ops && s.ops[id].PopCas? && r.head == s.head && r.tail == s.tail + 1
    requires id in r.ops && r.ops == s.ops[id := r.ops[id]] && r.ops[id].ClaimedPop() && r.ops[id].pos == s.tail
    ensures Owned(r)
  {
    var m := r.(tail := s.tail);
    OwnedKept(s, m, id);
    forall t: nat | t < r.tail ensures HasPop(r, t) {
      if t < s.tail {
        assert HasPop(m, t);
        var i :| i in m.ops && m.ops[i].ClaimedPop() && m.ops[i].pos == t;
        assert i in r.ops && r.ops[i].ClaimedPop() && r.ops[i].pos == t;
      } else {
        assert r.ops[id].pos == t;
      }
    }
    forall t: nat | t < r.head ensures HasPush(r, t) {
      assert HasPush(m, t);
      var i :| i in m.ops && m.ops[i].ClaimedPush() && m.ops[i].pos == t;
      assert i in r.ops && r.ops[i].ClaimedPush() && r.ops[i].pos == t;
    }
  }

  /** A consumer that has won ticket pos finds the item of that ticket in the cell. */
  lemma ClaimedCellHoldsItem<T>(s: Ring<T>, pos: nat)
    requires Inv(s) && pos < s.tail && s.head <= pos + s.cap && s.sequence[Slot(s.cap, pos)] == pos + 1
    ensures s.data[Slot(s.cap, pos)] == s.pushed[pos]
  {
    SlotPeriod(s.cap, pos);
    assert CellOk(s, pos + s.cap);
  }

  lemma PopRecycleKeepsInv<T>(s: Ring<T>, id: nat)
    requires Inv(s) && id in s.ops && s.ops[id].PopRecycle?
    ensures Inv(AdvancePop(s, id, s.ops[id], false))
  {
    var v, pos := s.ops[id].item, s.ops[id].pos;
    var r := AdvancePop(s, id, s.ops[id], false);
    assert OpOk(s, s.ops[id]);
    RecycleKeepsCells(s, r, pos);
    assert Ops(r) by {
      forall i | i in r.ops ensures OpOk(r, r.ops[i]) {
        if i != id {
          assert OpOk(s, s.ops[i]);
          RecycleKeepsOp(s, r, pos, s.ops[i]);
        }
      }
    }
    OwnedKept(s, r, id);
  }

  lemma RecycleKeepsCells<T>(s: Ring<T>, r: Ring<T>, pos: nat)
    requires Shape(s) && Cells(s) && pos < s.tail && s.head <= pos + s.cap
    requires r == s.(ops := r.ops, sequence := s.sequence[Slot(s.cap, pos) := pos + s.cap])
    ensures Shape(r) && Cells(r)
  {
    SlotPeriod(s.cap, pos);
    OtherSlots(s.cap, s.tail, pos + s.cap);
    forall t: nat | r.tail <= t < r.tail + r.cap ensures CellOk(r, t) { assert CellOk(s, t); }
  }

  lemma RecycleKeepsOp<T>(s: Ring<T>, r: Ring<T>, pos: nat, op: Op<T>)
    requires Shape(s) && pos < s.tail && s.head <= pos + s.cap && s.sequence[Slot(s.cap, pos)] == pos + 1
    requires r == s.(ops := r.ops, sequence := s.sequence[Slot(s.cap, pos) := pos + s.cap])
    requires OpOk(s, op) && ((op.PopRead? || op.PopRecycle?) ==> op.pos != pos)
    ensures OpOk(r, op)
  {
    match op
    case PushCas(_, p) =>
      SlotPeriod(s.cap, pos);
      OtherSlots(s.cap, s.tail, pos + s.cap);
    case PushWrite(_, p) =>
      SlotPeriod(s.cap, pos);
      OtherSlots(s.cap, s.tail, pos + s.cap);
    case PushPublish(_, p) =>
      SlotPeriod(s.cap, pos);
      OtherSlots(s.cap, s.tail, pos + s.cap);
    case _ =>
  }

  /** Loads and failed compare-and-swaps only move the caller. */
  lemma LoadKeepsInv<T>(s: Ring<T>, id: nat, spurious: bool)
    requires Inv(s) && id in s.ops
    ensures s.ops[id].PushLoadHead? || s.ops[id].PushLoadSeq? ==> Inv(AdvancePush(s, id, s.ops[id], spurious))
    ensures s.ops[id].PushCas? && (s.head != s.ops[id].pos || spurious) ==> Inv(AdvancePush(s, id, s.ops[id], spurious))
    ensures s.ops[id].PopLoadTail? || s.ops[id].PopLoadSeq? || s.ops[id].PopRead? ==>
      Inv(AdvancePop(s, id, s.ops[id], spurious))
    ensures s.ops[id].PopCas? && (s.tail != s.ops[id].pos || spurious) ==> Inv(AdvancePop(s, id, s.ops[id], spurious))
  {
    assert OpOk(s, s.ops[id]);
    match s.ops[id]
    case PushLoadHead(v) => MoveKeepsInv(s, id, PushLoadSeq(v, s.head));
    case PushLoadSeq(v, pos) =>
      var q := s.sequence[Slot(s.cap, pos)];
      MoveKeepsInv(s, id, if q == pos then PushCas(v, pos) else if q < pos then PushFull(v) else PushLoadHead(v));
    case PushCas(v, pos) => MoveKeepsInv(s, id, PushLoadSeq(v, s.head));
    case PopLoadTail => MoveKeepsInv(s, id, PopLoadSeq(s.tail));
    case PopLoadSeq(pos) =>
      var q := s.sequence[Slot(s.cap, pos)];
      MoveKeepsInv(s, id, if q == pos + 1 then PopCas(pos) else if q < pos + 1 then PopEmpty else PopLoadTail);
    case PopCas(pos) => MoveKeepsInv(s, id, PopLoadSeq(s.tail));
    case PopRead(pos) =>
      ClaimedCellHoldsItem(s, pos);
      MoveKeepsInv(s, id, PopRecycle(s.data[Slot(s.cap, pos)], pos));
    case _ =>
  }

  /** The push half and the pop half of `Advance` never both act. */
  lemma AdvanceSplits<T>(s: Ring<T>, id: nat, spurious: bool)
    requires WellShaped(s) && id in s.ops
    ensures Apply(s, Advance(id, spurious)) ==
      if s.ops[id].PopLoadTail? || s.ops[id].PopLoadSeq? || s.ops[id].PopCas? || s.ops[id].PopRead?
         || s.ops[id].PopRecycle?
      then AdvancePop(s, id, s.ops[id], spurious) else AdvancePush(s, id, s.ops[id], spurious)
  {
  }

  lemma ApplyKeepsInv<T>(s: Ring<T>, l: Label<T>)
    requires Inv(s)
    ensures Inv(Apply(s, l))
  {
    match l
    case BeginPush(id, v) => if id !in s.ops { MoveKeepsInv(s, id, PushLoadHead(v)); }
    case BeginPop(id) => if id !in s.ops { MoveKeepsInv(s, id, PopLoadTail); }
    case Advance(id, spurious) =>
      if id in s.ops {
        AdvanceSplits(s, id, spurious);
        LoadKeepsInv(s, id, spurious);
        var op := s.ops[id];
        if op.PushCas? && s.head == op.pos && !spurious { PushCasKeepsInv(s, id); }
        if op.PushWrite? { PushWriteKeepsInv(s, id); }
        if op.PushPublish? { PushPublishKeepsInv(s, id); }
        if op.PopCas? && s.tail == op.pos && !spurious { PopCasKeepsInv(s, id); }
        if op.PopRecycle? { PopRecycleKeepsInv(s, id); }
      }
  }

  lemma {:induction false} ExecInv<T>(data: seq<T>, ls: seq<Label<T>>)
    requires |data| >= 2
    ensures Inv(Exec(Init(data), ls))
  {
    if ls == [] {
      InitInv(data);
    } else {
      ExecInv(data, ls[..|ls| - 1]);
      ApplyKeepsInv(Exec(Init(data), ls[..|ls| - 1]), ls[|ls| - 1]);
    }
  }

  // ---------------------------------------------------------------------------------------------
  // What holds after every run
  // ---------------------------------------------------------------------------------------------

  /** The items pushed and not yet claimed by a consumer, oldest first. */
  function Queue<T>(s: Ring<T>): seq<T>
    requires s.tail <= |s.pushed|
  {
    s.pushed[s.tail..]
  }

  /**
  Safety of every interleaving: the ring never holds more than `cap` tickets; what a pop returned
  is exactly what the push of the same ticket was given; and no ticket is pushed or popped twice.
  */
  lemma EveryRunIsSafe<T>(data: seq<T>, ls: seq<Label<T>>)
    requires |data| >= 2
    ensures var s := Exec(Init(data), ls);
      && s.tail <= s.head <= s.tail + s.cap
      && |s.pushed| == s.head
      && (forall i | i in s.ops && s.ops[i].PopDone? ::
            exists j ::
              j in s.ops && s.ops[j].ClaimedPush() && s.ops[j].pos == s.ops[i].pos && s.ops[j].item == s.ops[i].item)
      && (forall i, j | i in s.ops && j in s.ops && i != j && s.ops[i].PopDone? && s.ops[j].PopDone? ::
            s.ops[i].pos != s.ops[j].pos)
      && (forall i, j | i in s.ops && j in s.ops && i != j && s.ops[i].PushDone? && s.ops[j].PushDone? ::
            s.ops[i].pos != s.ops[j].pos)
  {
    ExecInv(data, ls);
    var s := Exec(Init(data), ls);
    forall i | i in s.ops && s.ops[i].PopDone?
      ensures exists j ::
        j in s.ops && s.ops[j].ClaimedPush() && s.ops[j].pos == s.ops[i].pos && s.ops[j].item == s.ops[i].item
    {
      assert OpOk(s, s.ops[i]);
      assert HasPush(s, s.ops[i].pos);
      var j :| j in s.ops && s.ops[j].ClaimedPush() && s.ops[j].pos == s.ops[i].pos;
      assert OpOk(s, s.ops[j]);
    }
  }

  /** The plain (non-atomic) accesses to a cell's data never overlap. */
  lemma EveryRunIsRaceFree<T>(data: seq<T>, ls: seq<Label<T>>, i: nat, j: nat)
    requires |data| >= 2
    requires var s := Exec(Init(data), ls);
      i in s.ops && j in s.ops && i != j && s.ops[i].TouchesData() && s.ops[j].TouchesData()
    ensures var s := Exec(Init(data), ls); Slot(s.cap, s.ops[i].pos) != Slot(s.cap, s.ops[j].pos)
  {
    ExecInv(data, ls);
    TouchedCellsDiffer(Exec(Init(data), ls), i, j);
  }

  lemma TouchedCellsDiffer<T>(s: Ring<T>, i: nat, j: nat)
    requires Inv(s) && i in s.ops && j in s.ops && i != j && s.ops[i].TouchesData() && s.ops[j].TouchesData()
    ensures Slot(s.cap, s.ops[i].pos) != Slot(s.cap, s.ops[j].pos)
  {
    assert OpOk(s, s.ops[i]) && OpOk(s, s.ops[j]);
    NextCellDiffers(s.cap, s.ops[i].pos);
    NextCellDiffers(s.cap, s.ops[j].pos);
  }

  /**
  Refinement of a bounded FIFO queue: a step leaves `Queue` alone, or appends the item of the push
  that just won its ticket (and there was room), or removes the oldest item for the pop that just
  won its ticket.
  */
  lemma StepRefinesFifo<T>(s: Ring<T>, l: Label<T>)
    requires Inv(s)
    ensures var r := Apply(s, l);
      && r.tail <= |r.pushed|
      && s.pushed <= r.pushed
      && (|| Queue(r) == Queue(s)
          || (&& l.Advance? && l.id in s.ops && s.ops[l.id].PushCas? && r.ops[l.id].PushWrite? && |Queue(s)| < s.cap
              && r.ops[l.id].pos == s.head && Queue(r) == Queue(s) + [s.ops[l.id].item])
          || (&& l.Advance? && l.id in s.ops && s.ops[l.id].PopCas? && r.ops[l.id] == PopRead(s.tail) && |Queue(s)| > 0
              && r.pushed[s.tail] == Queue(s)[0] && Queue(r) == Queue(s)[1..]))
  {
    if l.Advance? && l.id in s.ops {
      WinnersFindRoom(s, l.id);
      FifoCore(s, l.id, l.spurious);
    }
  }

  /** A push about to win `head` finds a free cell, a pop about to win `tail` an item. */
  lemma WinnersFindRoom<T>(s: Ring<T>, id: nat)
    requires Inv(s) && id in s.ops
    ensures s.ops[id].PushCas? && s.ops[id].pos == s.head ==> s.head < s.tail + s.cap
    ensures s.ops[id].PopCas? && s.ops[id].pos == s.tail ==> s.tail < s.head
  {
    assert OpOk(s, s.ops[id]);
    assert CellOk(s, s.tail);
    SlotPeriod(s.cap, s.tail);
  }

  lemma FifoCore<T>(s: Ring<T>, id: nat, spurious: bool)
    requires WellShaped(s) && s.tail <= s.head == |s.pushed| && id in s.ops
    requires s.ops[id].PushCas? && s.ops[id].pos == s.head ==> s.head < s.tail + s.cap
    requires s.ops[id].PopCas? && s.ops[id].pos == s.tail ==> s.tail < s.head
    ensures var r := Apply(s, Advance(id, spurious));
      && r.tail <= |r.pushed|
      && s.pushed <= r.pushed
      && (|| Queue(r) == Queue(s)
          || (&& s.ops[id].PushCas? && r.ops[id].PushWrite? && |Queue(s)| < s.cap
              && r.ops[id].pos == s.head && Queue(r) == Queue(s) + [s.ops[id].item])
          || (&& s.ops[id].PopCas? && r.ops[id] == PopRead(s.tail) && |Queue(s)| > 0
              && r.pushed[s.tail] == Queue(s)[0] && Queue(r) == Queue(s)[1..]))
  {
    AdvanceSplits(s, id, spurious);
  }

  /** No call is in flight. */
  ghost predicate Quiescent<T>(s: Ring<T>) {
    forall i | i in s.ops :: s.ops[i].Finished()
  }

  /** A ticket below `tail` has been published, one below `head` has a cell that reached it. */
  lemma TicketReached<T>(s: Ring<T>, t: nat)
    requires Inv(s)
    ensures t < s.head ==> s.sequence[Slot(s.cap, t)] >= t
    ensures t < s.tail ==> s.sequence[Slot(s.cap, t)] > t
    ensures t < s.head && Quiescent(s) ==> s.sequence[Slot(s.cap, t)] > t
    ensures t < s.tail && Quiescent(s) ==> s.sequence[Slot(s.cap, t)] >= t + s.cap
  {
    if t < s.head {
      assert HasPush(s, t);
      var i :| i in s.ops && s.ops[i].ClaimedPush() && s.ops[i].pos == t;
      assert OpOk(s, s.ops[i]);
    }
    if t < s.tail {
      assert HasPop(s, t);
      var j :| j in s.ops && s.ops[j].ClaimedPop() && s.ops[j].pos == t;
      assert OpOk(s, s.ops[j]);
    }
  }

  /** A pop that returns true returns the item that was oldest when it won its ticket. */
  lemma {:induction false} PopReturnsOldest<T>(data: seq<T>, ls: seq<Label<T>>, more: seq<Label<T>>, id: nat, pos: nat)
    requires |data| >= 2
    requires var s := Exec(Init(data), ls); id in s.ops && s.ops[id] == PopCas(pos) && s.tail == pos
    ensures var s := Exec(Init(data), ls);
      var r := Exec(Apply(s, Advance(id, false)), more);
      s.tail < |s.pushed| && id in r.ops && r.ops[id].ClaimedPop() && r.ops[id].pos == pos
      && (r.ops[id].PopDone? ==> r.ops[id].item == Queue(s)[0])
  {
    ExecInv(data, ls);
    var s := Exec(Init(data), ls);
    var m := Apply(s, Advance(id, false));
    assert OpOk(s, s.ops[id]);
    assert CellOk(s, pos);
    ApplyKeepsInv(s, Advance(id, false));
    assert m.ops[id] == PopRead(pos) && m.pushed == s.pushed;
    ClaimIsKept(m, more, id);
    var r := Exec(m, more);
    assert OpOk(r, r.ops[id]);
  }

  lemma {:induction false} ClaimIsKept<T>(s: Ring<T>, more: seq<Label<T>>, id: nat)
    requires Inv(s) && id in s.ops && s.ops[id].ClaimedPop()
    ensures var r := Exec(s, more);
      Inv(r) && s.pushed <= r.pushed && id in r.ops && r.ops[id].ClaimedPop() && r.ops[id].pos == s.ops[id].pos
  {
    if more != [] {
      ClaimIsKept(s, more[..|more| - 1], id);
      ApplyKeepsInv(Exec(s, more[..|more| - 1]), more[|more| - 1]);
      ClaimSurvives(Exec(s, more[..|more| - 1]), more[|more| - 1], id);
    }
  }

  lemma ClaimSurvives<T>(s: Ring<T>, l: Label<T>, id: nat)
    requires WellShaped(s) && id in s.ops && s.ops[id].ClaimedPop()
    ensures var r := Apply(s, l);
      s.pushed <= r.pushed && id in r.ops && r.ops[id].ClaimedPop() && r.ops[id].pos == s.ops[id].pos
  {
    if l.Advance? && l.id in s.ops { AdvanceSplits(s, l.id, l.spurious); }
  }

  /**
  `pop` returns false only at an instant when the oldest unclaimed ticket is unpublished: no push
  of that ticket has completed.
  */
  lemma PopFalseMeansUnpublished<T>(data: seq<T>, ls: seq<Label<T>>, id: nat)
    requires |data| >= 2
    requires var s := Exec(Init(data), ls);
      id in s.ops && s.ops[id].PopLoadSeq? && Apply(s, Advance(id, false)).ops[id].PopEmpty?
    ensures var s := Exec(Init(data), ls);
      s.ops[id].pos == s.tail && !exists j :: j in s.ops && s.ops[j].PushDone? && s.ops[j].pos == s.tail
  {
    ExecInv(data, ls);
    var s := Exec(Init(data), ls);
    var pos := s.ops[id].pos;
    assert OpOk(s, s.ops[id]);
    assert pos == s.tail by { TicketReached(s, pos); }
    forall j | j in s.ops && s.ops[j].PushDone? ensures s.ops[j].pos != s.tail { assert OpOk(s, s.ops[j]); }
  }

  /** `push` returns false only when the pop of ticket head - cap has not completed. */
  lemma PushFalseMeansNotRecycled<T>(data: seq<T>, ls: seq<Label<T>>, id: nat)
    requires |data| >= 2
    requires var s := Exec(Init(data), ls);
      id in s.ops && s.ops[id].PushLoadSeq? && Apply(s, Advance(id, false)).ops[id].PushFull?
    ensures var s := Exec(Init(data), ls);
      && s.ops[id].pos == s.head && s.cap <= s.head
      && !exists j :: j in s.ops && s.ops[j].PopDone? && s.ops[j].pos == s.head - s.cap
  {
    ExecInv(data, ls);
    var s := Exec(Init(data), ls);
    var pos := s.ops[id].pos;
    assert OpOk(s, s.ops[id]);
    assert pos == s.head by { TicketReached(s, pos); }
    FullCell(s);
  }

  lemma FullCell<T>(s: Ring<T>)
    requires Inv(s) && s.sequence[Slot(s.cap, s.head)] < s.head
    ensures s.cap <= s.head && !exists j :: j in s.ops && s.ops[j].PopDone? && s.ops[j].pos == s.head - s.cap
  {
    assert s.cap <= s.head by { if s.head < s.tail + s.cap { assert CellOk(s, s.head); } }
    SlotPeriod(s.cap, s.head - s.cap);
    forall j | j in s.ops && s.ops[j].PopDone? ensures s.ops[j].pos != s.head - s.cap { assert OpOk(s, s.ops[j]); }
  }

  /** The cells of a ring with no call in flight: published tickets, then free ones. */
  ghost predicate Settled<T>(cap: nat, head: nat, tail: nat, sequence: seq<nat>, data: seq<T>, queue: seq<T>) {
    && cap >= 2 && |sequence| == cap && |data| == cap
    && tail <= head <= tail + cap && |queue| == head - tail
    && (forall t: nat | tail <= t < head :: sequence[Slot(cap, t)] == t + 1 && data[Slot(cap, t)] == queue[t - tail])
    && (forall t: nat | head <= t < tail + cap :: sequence[Slot(cap, t)] == t)
  }

  /** With no call in flight the cells hold exactly the queue, so the next call sees a bounded FIFO. */
  lemma QuiescentRingIsSettled<T>(data: seq<T>, ls: seq<Label<T>>)
    requires |data| >= 2
    requires Quiescent(Exec(Init(data), ls))
    ensures var s := Exec(Init(data), ls);
      s.tail <= |s.pushed| && Settled(s.cap, s.head, s.tail, s.sequence, s.data, Queue(s))
  {
    ExecInv(data, ls);
    SettledRing(Exec(Init(data), ls));
  }

  lemma SettledRing<T>(s: Ring<T>)
    requires Inv(s) && Quiescent(s)
    ensures Settled(s.cap, s.head, s.tail, s.sequence, s.data, Queue(s))
  {
    forall t: nat | s.tail <= t < s.head
      ensures s.sequence[Slot(s.cap, t)] == t + 1 && s.data[Slot(s.cap, t)] == Queue(s)[t - s.tail]
    {
      assert CellOk(s, t);
      TicketReached(s, t);
    }
    forall t: nat | s.head <= t < s.tail + s.cap
      ensures s.sequence[Slot(s.cap, t)] == t
    {
      assert CellOk(s, t);
      if t >= s.cap {
        TicketReached(s, t - s.cap);
        SlotPeriod(s.cap, t - s.cap);
      }
    }
  }

  // ---------------------------------------------------------------------------------------------
  // One cell is not enough
  // ---------------------------------------------------------------------------------------------

  lemma {:induction false} ExecConcat<T>(s: Ring<T>, a: seq<Label<T>>, b: seq<Label<T>>)
    requires WellShaped(s)
    ensures Exec(s, a + b) == Exec(Exec(s, a), b)
  {
    if b == [] {
      assert a + b == a;
    } else {
      ExecConcat(s, a, b[..|b| - 1]);
      assert (a + b)[..|a + b| - 1] == a + b[..|b| - 1];
    }
  }

  // Calls that run without interruption -----------------------------------------------------------

  /** One transition of a call, without spurious failure. */
  function Then<T>(s: Ring<T>, id: nat): (r: Ring<T>)
    requires WellShaped(s)
    ensures WellShaped(r)
  {
    Apply(s, Advance(id, false))
  }

  function TwoMore<T>(s: Ring<T>, id: nat): (r: Ring<T>)
    requires WellShaped(s)
    ensures WellShaped(r)
  {
    Then(Then(s, id), id)
  }

  /** A call and the five transitions it takes when nobody disturbs it. */
  function Alone<T>(begin: Label<T>, id: nat): seq<Label<T>> {
    [begin, Advance(id, false)] + [Advance(id, false), Advance(id, false)] + [Advance(id, false), Advance(id, false)]
  }

  lemma ExecTwo<T>(s: Ring<T>, a: Label<T>, b: Label<T>)
    requires WellShaped(s)
    ensures Exec(s, [a, b]) == Apply(Apply(s, a), b)
  {
    assert [a, b][..1] == [a] && [a][..0] == [];
    assert Exec(s, [a]) == Apply(s, a);
  }

  lemma ExecAlone<T>(s: Ring<T>, begin: Label<T>, id: nat)
    requires WellShaped(s)
    ensures Exec(s, Alone(begin, id)) == TwoMore(TwoMore(Then(Apply(s, begin), id), id), id)
  {
    var go: Label<T> := Advance(id, false);
    var s1 := Then(Apply(s, begin), id);
    ExecTwo(s, begin, go);
    ExecConcat(s, [begin, go], [go, go]);
    ExecTwo(s1, go, go);
    ExecConcat(s, [begin, go] + [go, go], [go, go]);
    ExecTwo(TwoMore(s1, id), go, go);
  }

  lemma SetTwice<T>(s: Ring<T>, id: nat, a: Op<T>, b: Op<T>)
    ensures SetOp(SetOp(s, id, a), id, b) == SetOp(s, id, b)
  {
    assert s.ops[id := a][id := b] == s.ops[id := b];
  }

  /** A push looks at the cell of ticket head. */
  lemma PushLooks<T>(s: Ring<T>, id: nat, v: T)
    requires WellShaped(s) && id !in s.ops
    ensures Then(Apply(s, BeginPush(id, v)), id) == SetOp(s, id, PushLoadSeq(v, s.head))
  {
    SetTwice(s, id, PushLoadHead(v), PushLoadSeq(v, s.head));
  }

  lemma PopLooks<T>(s: Ring<T>, id: nat)
    requires WellShaped(s) && id !in s.ops
    ensures Then(Apply(s, BeginPop(id)), id) == SetOp(s, id, PopLoadSeq(s.tail))
  {
    SetTwice(s, id, PopLoadTail, PopLoadSeq(s.tail));
  }

  /** A finished call stays as it is. */
  lemma FinishedStays<T>(s: Ring<T>, id: nat)
    requires WellShaped(s) && id in s.ops && s.ops[id].Finished()
    ensures Then(s, id) == s
  {
  }

  lemma PushClaims<T>(s: Ring<T>, id: nat, v: T)
    requires WellShaped(s) && s.sequence[Slot(s.cap, s.head)] == s.head
    ensures TwoMore(SetOp(s, id, PushLoadSeq(v, s.head)), id) ==
      SetOp(s.(head := s.head + 1, pushed := s.pushed + [v]), id, PushWrite(v, s.head))
  {
    SetTwice(s, id, PushLoadSeq(v, s.head), PushCas(v, s.head));
    assert Then(SetOp(s, id, PushLoadSeq(v, s.head)), id) == SetOp(s, id, PushCas(v, s.head));
    SetTwice(s.(head := s.head + 1, pushed := s.pushed + [v]), id, PushCas(v, s.head), PushWrite(v, s.head));
  }

  lemma PushStores<T>(s: Ring<T>, id: nat, v: T, pos: nat)
    requires WellShaped(s)
    ensures var c := Slot(s.cap, pos);
      TwoMore(SetOp(s, id, PushWrite(v, pos)), id) ==
      SetOp(s.(data := s.data[c := v], sequence := s.sequence[c := pos + 1]), id, PushDone(v, pos))
  {
    var c := Slot(s.cap, pos);
    var s1 := s.(data := s.data[c := v]);
    SetTwice(s1, id, PushWrite(v, pos), PushPublish(v, pos));
    assert Then(SetOp(s, id, PushWrite(v, pos)), id) == SetOp(s1, id, PushPublish(v, pos));
    SetTwice(s1.(sequence := s.sequence[c := pos + 1]), id, PushPublish(v, pos), PushDone(v, pos));
  }

  lemma PopClaims<T>(s: Ring<T>, id: nat)
    requires WellShaped(s) && s.sequence[Slot(s.cap, s.tail)] == s.tail + 1
    ensures TwoMore(SetOp(s, id, PopLoadSeq(s.tail)), id) == SetOp(s.(tail := s.tail + 1), id, PopRead(s.tail))
  {
    SetTwice(s, id, PopLoadSeq(s.tail), PopCas(s.tail));
    assert Then(SetOp(s, id, PopLoadSeq(s.tail)), id) == SetOp(s, id, PopCas(s.tail));
    SetTwice(s.(tail := s.tail + 1), id, PopCas(s.tail), PopRead(s.tail));
  }

  lemma PopReads<T>(s: Ring<T>, id: nat, pos: nat)
    requires WellShaped(s)
    ensures var c := Slot(s.cap, pos);
      TwoMore(SetOp(s, id, PopRead(pos)), id) ==
      SetOp(s.(sequence := s.sequence[c := pos + s.cap]), id, PopDone(s.data[c], pos))
  {
    var c := Slot(s.cap, pos);
    SetTwice(s, id, PopRead(pos), PopRecycle(s.data[c], pos));
    assert Then(SetOp(s, id, PopRead(pos)), id) == SetOp(s, id, PopRecycle(s.data[c], pos));
    SetTwice(s.(sequence := s.sequence[c := pos + s.cap]), id, PopRecycle(s.data[c], pos), PopDone(s.data[c], pos));
  }

  /** The ring after a push took ticket head. */
  function Pushed<T>(s: Ring<T>, id: nat, v: T): Ring<T>
    requires WellShaped(s)
  {
    var c := Slot(s.cap, s.head);
    SetOp(s.(head := s.head + 1, pushed := s.pushed + [v], data := s.data[c := v],
             sequence := s.sequence[c := s.head + 1]), id, PushDone(v, s.head))
  }

  /** The ring after a pop took ticket tail. */
  function Popped<T>(s: Ring<T>, id: nat): Ring<T>
    requires WellShaped(s)
  {
    var c := Slot(s.cap, s.tail);
    SetOp(s.(tail := s.tail + 1, sequence := s.sequence[c := s.tail + s.cap]), id, PopDone(s.data[c], s.tail))
  }

  lemma PushWins<T>(s: Ring<T>, id: nat, v: T)
    requires WellShaped(s) && id !in s.ops && s.sequence[Slot(s.cap, s.head)] == s.head
    ensures Exec(s, Alone(BeginPush(id, v), id)) == Pushed(s, id, v)
  {
    ExecAlone(s, BeginPush(id, v), id);
    PushLooks(s, id, v);
    PushGoesThrough(s, id, v);
  }

  lemma PushGoesThrough<T>(s: Ring<T>, id: nat, v: T)
    requires WellShaped(s) && s.sequence[Slot(s.cap, s.head)] == s.head
    ensures TwoMore(TwoMore(SetOp(s, id, PushLoadSeq(v, s.head)), id), id) == Pushed(s, id, v)
  {
    PushClaims(s, id, v);
    PushStores(s.(head := s.head + 1, pushed := s.pushed + [v]), id, v, s.head);
  }

  lemma PopWins<T>(s: Ring<T>, id: nat)
    requires WellShaped(s) && id !in s.ops && s.sequence[Slot(s.cap, s.tail)] == s.tail + 1
    ensures Exec(s, Alone(BeginPop(id), id)) == Popped(s, id)
  {
    ExecAlone(s, BeginPop(id), id);
    PopLooks(s, id);
    PopGoesThrough(s, id);
  }

  lemma PopGoesThrough<T>(s: Ring<T>, id: nat)
    requires WellShaped(s) && s.sequence[Slot(s.cap, s.tail)] == s.tail + 1
    ensures TwoMore(TwoMore(SetOp(s, id, PopLoadSeq(s.tail)), id), id) == Popped(s, id)
  {
    PopClaims(s, id);
    PopReads(s.(tail := s.tail + 1), id, s.tail);
  }

  lemma PushLoses<T>(s: Ring<T>, id: nat, v: T)
    requires WellShaped(s) && id !in s.ops && s.sequence[Slot(s.cap, s.head)] < s.head
    ensures Exec(s, Alone(BeginPush(id, v), id)) == SetOp(s, id, PushFull(v))
  {
    ExecAlone(s, BeginPush(id, v), id);
    PushLooks(s, id, v);
    SetTwice(s, id, PushLoadSeq(v, s.head), PushFull(v));
    FinishedStays(SetOp(s, id, PushFull(v)), id);
  }

  lemma PopLoses<T>(s: Ring<T>, id: nat)
    requires WellShaped(s) && id !in s.ops && s.sequence[Slot(s.cap, s.tail)] < s.tail + 1
    ensures Exec(s, Alone(BeginPop(id), id)) == SetOp(s, id, PopEmpty)
  {
    ExecAlone(s, BeginPop(id), id);
    PopLooks(s, id);
    SetTwice(s, id, PopLoadSeq(s.tail), PopEmpty);
    FinishedStays(SetOp(s, id, PopEmpty), id);
  }

  /** In every reachable state without a call in flight, a push run alone returns true exactly when there is room. */
  lemma PushAlone<T>(data: seq<T>, ls: seq<Label<T>>, id: nat, v: T)
    requires |data| >= 2 && Quiescent(Exec(Init(data), ls)) && id !in Exec(Init(data), ls).ops
    ensures var s := Exec(Init(data), ls);
      var r := Exec(s, Alone(BeginPush(id, v), id));
      && s.tail <= |s.pushed| && r.tail <= |r.pushed|
      && if |Queue(s)| < s.cap then r.ops == s.ops[id := PushDone(v, s.head)] && Queue(r) == Queue(s) + [v]
         else r == SetOp(s, id, PushFull(v))
  {
    var s := Exec(Init(data), ls);
    ExecInv(data, ls);
    QuiescentRingIsSettled(data, ls);
    if |Queue(s)| < s.cap {
      PushWins(s, id, v);
    } else {
      assert s.head == s.tail + s.cap;
      SlotPeriod(s.cap, s.tail);
      PushLoses(s, id, v);
    }
  }

  /** And a pop exactly when there is an item, and then with the oldest. */
  lemma PopAlone<T>(data: seq<T>, ls: seq<Label<T>>, id: nat)
    requires |data| >= 2 && Quiescent(Exec(Init(data), ls)) && id !in Exec(Init(data), ls).ops
    ensures var s := Exec(Init(data), ls);
      var r := Exec(s, Alone(BeginPop(id), id));
      && s.tail <= |s.pushed| && r.tail <= |r.pushed|
      && if Queue(s) != [] then r.ops == s.ops[id := PopDone(Queue(s)[0], s.tail)] && Queue(r) == Queue(s)[1..]
         else r == SetOp(s, id, PopEmpty)
  {
    var s := Exec(Init(data), ls);
    ExecInv(data, ls);
    QuiescentRingIsSettled(data, ls);
    if Queue(s) != [] {
      PopWins(s, id);
    } else {
      PopLoses(s, id);
    }
  }

  /** With a single cell a published ticket looks free, so a push always succeeds. */
  lemma OneCellPushSucceeds<T>(s: Ring<T>, id: nat, v: T)
    requires WellShaped(s) && s.cap == 1 && s.sequence == [s.head] && id !in s.ops
    ensures var r := Exec(s, Alone(BeginPush(id, v), id));
      && r.cap == 1 && r.sequence == [r.head] && r.head == s.head + 1
      && r.tail == s.tail && r.ops.Keys == s.ops.Keys + {id}
  {
    assert Slot(1, s.head) == 0;
    PushWins(s, id, v);
  }

  /** So with a single cell any number of pushes succeed although nothing was ever popped. */
  lemma {:induction false} OneCellOverwrites<T>(data: seq<T>, v: T, n: nat) returns (ls: seq<Label<T>>)
    requires |data| == 1
    ensures var r := Exec(Init(data), ls);
      r.cap == 1 && r.head == n && r.tail == 0 && r.sequence == [r.head] && (forall i | i in r.ops :: i < n)
  {
    if n == 0 {
      ls := [];
    } else {
      var before := OneCellOverwrites(data, v, n - 1);
      OneCellPushSucceeds(Exec(Init(data), before), n - 1, v);
      var one: seq<Label<T>> := Alone(BeginPush(n - 1, v), n - 1);
      ExecConcat(Init(data), before, one);
      ls := before + one;
    }
  }

  ghost predicate NeverOverfull<T(!new)>(data: seq<T>)
    requires |data| > 0
  {
    forall ls: seq<Label<T>> :: Exec(Init(data), ls).head <= Exec(Init(data), ls).tail + |data|
  }

  lemma {:induction false} CapIsKept<T>(s: Ring<T>, ls: seq<Label<T>>)
    requires WellShaped(s)
    ensures Exec(s, ls).cap == s.cap
  {
    if ls != [] { CapIsKept(s, ls[..|ls| - 1]); }
  }

  /** The capacities the static_assert admits are safe exactly from 2 on. */
  lemma SafeIffTwoCells<T(!new)>(data: seq<T>)
    requires |data| > 0
    ensures NeverOverfull(data) <==> |data| >= 2
  {
    if |data| >= 2 {
      forall ls: seq<Label<T>> ensures Exec(Init(data), ls).head <= Exec(Init(data), ls).tail + |data| {
        EveryRunIsSafe(data, ls);
        CapIsKept(Init(data), ls);
      }
    } else {
      var ls := OneCellOverwrites(data, data[0], 2);
    }
  }
}
