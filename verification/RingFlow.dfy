/**
What travels through the two rings of a split virtqueue: heads that the driver submitted, that the
device took, that it returned and that the driver popped. The 16-bit indices of the rings are tied
to unbounded counts of these events.
*/
module RingFlow {
  import opened Arith
  import opened Distinctness

  /** A count as the uint16_t index the rings store. */
  function Index16(n: nat): nat { n % 0x1_0000 }

  /** Queue sizes are powers of two that fit uint16_t: the divisors of 65536 up to 32768. */
  predicate SizeOk(size: nat) { 0 < size <= 0x8000 && Slot(size, 0x1_0000) == 0 }

  lemma {:induction false} PowersMultiply(j: nat, k: nat)
    ensures Pow2(j + k) == Pow2(j) * Pow2(k)
    decreases k
  {
    if k > 0 { PowersMultiply(j, k - 1); }
  }

  lemma DivisorFits(a: nat, b: nat)
    requires a > 0 && b > 0 && a * b == 0x8000
    ensures SizeOk(a)
  {
    assert a * (2 * b) == 0x1_0000;
    SlotPeriods(a, 0, 2 * b);
  }

  /** The sizes the constructor accepts: every power of two that fits uint16_t. */
  lemma PowersFit(j: nat, k: nat)
    requires j + k == 15
    ensures SizeOk(Pow2(j))
  {
    Pow2Positive(j);
    Pow2Positive(k);
    PowersMultiply(j, k);
    assert Pow2(15) == 0x8000;
    DivisorFits(Pow2(j), Pow2(k));
  }

  lemma WrapsEvenly(size: nat, n: nat)
    requires SizeOk(size)
    ensures Slot(size, Index16(n)) == Slot(size, n)
  {
    SlotIsMod(size, 0x1_0000);
    SlotOfWrapped(size, 0x1_0000, n);
  }

  /** Section 2.7.8 of VIRTIO 1.2. */
  datatype UsedElem = UsedElem(id: nat, len: nat)

  /** Where a submitted head is: unread in the available ring, with the device, unread in the used ring. */
  datatype Stage = Queued | Held | Returned

  /**
  queue: the heads the device has not read yet, returned: the heads the driver has not popped yet,
  both oldest first; submitted and popped count the calls of Submit and PopUsed.
  */
  datatype Flow = Flow(queue: seq<nat>, returned: seq<nat>, stage: map<nat, Stage>, submitted: nat, popped: nat)

  ghost predicate FlowOk(f: Flow, size: nat) {
    && |f.queue| <= f.submitted && f.submitted == f.popped + |f.stage|
    && Distinct(f.queue) && Distinct(f.returned)
    && (forall i | 0 <= i < |f.queue| :: f.queue[i] in f.stage && f.stage[f.queue[i]] == Queued)
    && (forall i | 0 <= i < |f.returned| :: f.returned[i] in f.stage && f.stage[f.returned[i]] == Returned)
    && (forall h | h in f.stage :: h < size)
  }

  /** The available ring holds the heads that were submitted and not read yet. */
  ghost predicate AvailOk(size: nat, avail: seq<nat>, availIdx: nat, queue: seq<nat>, submitted: nat) {
    && SizeOk(size) && |avail| == size && |queue| <= submitted && availIdx == Index16(submitted)
    && (forall t: nat | submitted - |queue| <= t < submitted ::
        avail[Slot(size, t)] == queue[t - (submitted - |queue|)])
  }

  /** The used ring holds the heads that were returned and not popped yet. */
  ghost predicate UsedOk(size: nat, used: seq<UsedElem>, usedIdx: nat, lastUsed: nat, returned: seq<nat>, popped: nat) {
    && SizeOk(size) && |used| == size && usedIdx == Index16(popped + |returned|) && lastUsed == Index16(popped)
    && (forall t: nat | popped <= t < popped + |returned| :: used[Slot(size, t)].id == returned[t - popped])
  }

  ghost predicate RingsOk(size: nat, avail: seq<nat>, availIdx: nat, used: seq<UsedElem>, usedIdx: nat, lastUsed: nat,
                          f: Flow) {
    && AvailOk(size, avail, availIdx, f.queue, f.submitted)
    && UsedOk(size, used, usedIdx, lastUsed, f.returned, f.popped)
  }

  // ---------------------------------------------------------------------------------------------
  // Counting
  // ---------------------------------------------------------------------------------------------

  /** A set of table indices has at most `size` elements. */
  lemma {:induction false} BelowCount(s: set<nat>, size: nat)
    requires forall x | x in s :: x < size
    ensures |s| <= size
    decreases size
  {
    if size > 0 {
      BelowCount(s - {size - 1}, size - 1);
    } else {
      assert s == {};
    }
  }

  // ---------------------------------------------------------------------------------------------
  // Driver: Submit and PopUsed
  // ---------------------------------------------------------------------------------------------

  function Submitted(f: Flow, head: nat): Flow {
    f.(queue := f.queue + [head], stage := f.stage[head := Queued], submitted := f.submitted + 1)
  }

  /** Submitting a head that is not in flight overwrites no entry that the device has still to read. */
  lemma SubmitFlow(f: Flow, size: nat, head: nat)
    requires FlowOk(f, size) && head < size && head !in f.stage
    ensures FlowOk(Submitted(f, head), size) && |f.queue| < size
  {
    DistinctSnoc(f.queue, head);
    DistinctFit(f.queue + [head], size);
    assert |f.stage[head := Queued]| == |f.stage| + 1 by {
      assert f.stage[head := Queued].Keys == f.stage.Keys + {head};
    }
  }

  lemma IndexSteps(n: nat)
    ensures Index16(Index16(n) + 1) == Index16(n + 1)
  {
  }

  lemma SubmitRing(size: nat, avail: seq<nat>, availIdx: nat, queue: seq<nat>, submitted: nat, head: nat)
    requires AvailOk(size, avail, availIdx, queue, submitted) && |queue| < size
    ensures AvailOk(size, avail[Slot(size, availIdx) := head], Index16(availIdx + 1), queue + [head], submitted + 1)
  {
    WrapsEvenly(size, submitted);
    IndexSteps(submitted);
    OtherSlots(size, submitted - |queue|, submitted);
  }

  function Popped(f: Flow): Flow
    requires f.returned != []
  {
    f.(returned := f.returned[1..], stage := f.stage - {f.returned[0]}, popped := f.popped + 1)
  }

  lemma PopFlow(f: Flow, size: nat)
    requires FlowOk(f, size) && f.returned != []
    ensures f.returned[0] in f.stage && FlowOk(Popped(f), size)
  {
    var f' := Popped(f);
    DistinctTail(f.returned);
    assert f'.stage.Keys == f.stage.Keys - {f.returned[0]};
    assert forall i | 0 <= i < |f'.returned| :: f'.returned[i] == f.returned[i + 1];
  }

  /** The element popped is the head the device returned first. */
  lemma PopRing(size: nat, used: seq<UsedElem>, usedIdx: nat, lastUsed: nat, returned: seq<nat>, popped: nat)
    requires UsedOk(size, used, usedIdx, lastUsed, returned, popped) && returned != []
    ensures used[Slot(size, lastUsed)].id == returned[0]
    ensures UsedOk(size, used, usedIdx, Index16(lastUsed + 1), returned[1..], popped + 1)
  {
    WrapsEvenly(size, popped);
    IndexSteps(popped);
  }

  // ---------------------------------------------------------------------------------------------
  // A conforming device: it reads heads in order and returns each one it holds once, in any order
  // ---------------------------------------------------------------------------------------------

  function Taken(f: Flow): Flow
    requires f.queue != []
  {
    f.(queue := f.queue[1..], stage := f.stage[f.queue[0] := Held])
  }

  lemma TakeFlow(f: Flow, size: nat)
    requires FlowOk(f, size) && f.queue != []
    ensures f.queue[0] in f.stage && FlowOk(Taken(f), size) && Taken(f).stage.Keys == f.stage.Keys
  {
    var f' := Taken(f);
    DistinctTail(f.queue);
    assert f'.stage.Keys == f.stage.Keys;
    assert forall i | 0 <= i < |f'.queue| :: f'.queue[i] == f.queue[i + 1];
  }

  /** What the device reads is what the driver submitted first. */
  lemma TakeRing(size: nat, avail: seq<nat>, availIdx: nat, queue: seq<nat>, submitted: nat)
    requires AvailOk(size, avail, availIdx, queue, submitted) && queue != []
    ensures avail[Slot(size, Index16(submitted - |queue|))] == queue[0]
    ensures AvailOk(size, avail, availIdx, queue[1..], submitted)
    ensures Index16(Index16(submitted - |queue|) + 1) == Index16(submitted - |queue[1..]|)
  {
    WrapsEvenly(size, submitted - |queue|);
    IndexSteps(submitted - |queue|);
  }

  function Finished(f: Flow, head: nat): Flow {
    f.(returned := f.returned + [head], stage := f.stage[head := Returned])
  }

  lemma FinishFlow(f: Flow, size: nat, head: nat)
    requires FlowOk(f, size) && head in f.stage && f.stage[head] == Held
    ensures FlowOk(Finished(f, head), size) && Finished(f, head).stage.Keys == f.stage.Keys && |f.returned| < size
  {
    DistinctSnoc(f.returned, head);
    DistinctFit(f.returned + [head], size);
    assert f.stage[head := Returned].Keys == f.stage.Keys;
  }

  lemma FinishRing(size: nat, used: seq<UsedElem>, usedIdx: nat, lastUsed: nat, returned: seq<nat>, popped: nat,
                   head: nat, len: nat)
    requires UsedOk(size, used, usedIdx, lastUsed, returned, popped) && |returned| < size
    ensures UsedOk(size, used[Slot(size, usedIdx) := UsedElem(head, len)], Index16(usedIdx + 1), lastUsed,
                   returned + [head], popped)
  {
    WrapsEvenly(size, popped + |returned|);
    IndexSteps(popped + |returned|);
    OtherSlots(size, popped, popped + |returned|);
  }

  // ---------------------------------------------------------------------------------------------

  lemma WrappedDistance(a: nat, b: nat)
    requires b <= a < b + 0x1_0000
    ensures (Index16(a) - Index16(b)) % 0x1_0000 == a - b
  {
  }

  /**
  Across wrap-around, available index minus last used index counts the heads in flight, which are
  at most `size`.
  */
  lemma InFlightIsExact(f: Flow, size: nat)
    requires FlowOk(f, size) && SizeOk(size)
    ensures (Index16(f.submitted) - Index16(f.popped)) % 0x1_0000 == |f.stage| <= size
  {
    BelowCount(f.stage.Keys, size);
    WrappedDistance(f.submitted, f.popped);
  }

  /** Comparing the 16-bit indices tells exactly whether something can be popped. */
  lemma HasUsedIsExact(f: Flow, size: nat)
    requires FlowOk(f, size) && SizeOk(size)
    ensures Index16(f.popped) != Index16(f.popped + |f.returned|) <==> f.returned != []
  {
    DistinctFit(f.returned, size);
    WrappedDistance(f.popped + |f.returned|, f.popped);
  }
}
