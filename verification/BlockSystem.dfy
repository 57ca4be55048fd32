/** Whole runs of the block driver and a conforming device that returns requests in any order. */
module BlockSystem {
  import opened Distinctness
  import opened Descriptors
  import opened RingFlow
  import opened SplitVirtqueues
  import opened RequestSlots
  import opened VirtioBlock
  import opened BlockDesk
  import opened DeskMirror

  /** A driver and a device at work, and the desk they mirror. */
  class System {
    const blk: VirtioBlk
    /** The heads the device holds. */
    var held: seq<nat>
    /** The callbacks made so far. */
    var log: seq<Call>
    ghost var desk: Desk

    /** Bound, so that only proofs that name blk.Valid() look inside. */
    ghost predicate DriverValid()
      reads blk, blk.slots, blk.vq, blk.vq.desc, blk.vq.availRing, blk.vq.usedRing
    {
      forall b | b == blk :: b.Valid()
    }

    ghost predicate Mirrored()
      reads this, blk, blk.vq
    {
      Mirrors(desk, blk.vq.flow, held, blk.live, blk.ledger)
    }

    ghost predicate Valid()
      reads this, blk, blk.slots, blk.vq, blk.vq.desc, blk.vq.availRing, blk.vq.usedRing
    {
      DriverValid() && Mirrored() && desk.log == log && desk.capacity == blk.vq.size
    }

    constructor (queueSize: nat, base: nat, useEventIdx: bool)
      requires SizeOk(queueSize)
      ensures Valid() && desk == Exec(queueSize, []) && blk.vq.size == queueSize
      ensures fresh(blk) && fresh(blk.slots) && fresh(blk.vq) && fresh(blk.vq.desc) && fresh(blk.vq.availRing)
      ensures fresh(blk.vq.usedRing)
    {
      var q := new SplitVirtqueue(queueSize);
      var b := new VirtioBlk(q, base, useEventIdx);
      blk := b;
      held, log := [], [];
      desk := Exec(queueSize, []);
    }

    /** Slots and descriptors are as the desk counts them. */
    lemma Capacity()
      requires DriverValid() && Mirrored()
      ensures AllOccupied(blk.slotBitmap) <==> |InFlight(desk)| >= MAX_INFLIGHT
      ensures blk.vq.numFree + Used(desk) == blk.vq.size
    {
      assert blk.Valid();
      assert blk.vq.Valid() && LooseOnly(blk.vq.pool.owner, []);
      SlotsOfDesk(desk, blk.vq.flow, held, blk.live, blk.ledger, blk.slotBase, blk.vq.pool.chains, blk.slotBitmap,
                  blk.slots[..]);
      DescriptorsOfDesk(desk, blk.vq.flow, held, blk.live, blk.ledger, blk.slotBase, blk.vq.desc[..], blk.vq.pool,
                        blk.vq.freeHead, blk.vq.numFree);
    }

    lemma LiveIsInFlight()
      requires DriverValid()
      ensures blk.live.Keys == blk.vq.flow.stage.Keys
    {
      assert blk.Valid();
      TiedKeys(blk.slotBase, blk.live, blk.ledger.said, blk.vq.pool.chains, blk.vq.flow.stage);
    }

    /** The driver's own part of enqueueing; it succeeds exactly when the desk has room. */
    method Submit(t: ReqType, queueIndex: nat, sector: nat, buffers: seq<IoVec>, token: Token)
      returns (ok: bool, ghost head: nat, ghost slot: nat)
      requires DriverValid() && Mirrored() && desk.capacity == blk.vq.size
      modifies blk, blk.slots, blk.vq, blk.vq.desc, blk.vq.availRing
      ensures DriverValid() && (ok <==> Accepts(desk, queueIndex, |buffers|))
      ensures !ok ==> blk.vq.flow == old(blk.vq.flow) && blk.live == old(blk.live) && blk.ledger == old(blk.ledger)
      ensures ok ==>
        && head !in old(blk.vq.flow.stage) && head !in old(blk.live) && blk.vq.flow == Submitted(old(blk.vq.flow), head)
        && blk.live == old(blk.live)[head := Live(slot, |old(blk.ledger).tokens|, Job(t, sector, buffers))]
        && blk.ledger == Enqueued(old(blk.ledger), token, head)
    {
      Capacity();
      LiveIsInFlight();
      var r: Expected<nat>;
      r, head := blk.DoEnqueue(t, queueIndex, sector, buffers, token);
      ok, slot := r.Ok?, if r.Ok? then r.value else 0;
    }

    /** The driver enqueues a request, or fails. */
    method DoEnqueue(t: ReqType, queueIndex: nat, sector: nat, buffers: seq<IoVec>, token: Token)
      requires Valid()
      modifies this`desk, blk, blk.slots, blk.vq, blk.vq.desc, blk.vq.availRing
      ensures Valid() && desk == Apply(old(desk), Enqueue(t, queueIndex, sector, buffers, token))
    {
      ghost var f, v, l := blk.vq.flow, blk.live, blk.ledger;
      var ok, head, slot := Submit(t, queueIndex, sector, buffers, token);
      if ok {
          MirrorsEnqueue(desk, f, held, v, l, head, slot, token, Job(t, sector, buffers));
        desk := Apply(desk, Enqueue(t, queueIndex, sector, buffers, token));
      }
    }

    lemma FlowOfDriver()
      requires DriverValid()
      ensures FlowOk(blk.vq.flow, blk.vq.size)
    {
      assert blk.Valid();
      blk.QueueFlow();
    }

    method HasWork() returns (r: bool)
      requires DriverValid()
      ensures r <==> blk.vq.flow.queue != []
    {
      assert blk.Valid();
      r := blk.vq.DeviceHasWork();
    }

    /** The device reads the next head, if there is one. */
    method DoTake()
      requires Valid()
      modifies this`held, this`desk, blk.vq
      ensures Valid() && desk == Apply(old(desk), Take)
    {
      HeldHeads(desk, blk.vq.flow, held, blk.live, blk.ledger);
      var work := HasWork();
      if work {
        TakeOne();
      }
    }

    method TakeOne()
      requires Valid() && blk.vq.flow.queue != []
      modifies this`held, this`desk, blk.vq
      ensures Valid() && desk == Apply(old(desk), Take)
    {
      ghost var f := blk.vq.flow;
      FlowOfDriver();
      MirrorsTake(desk, f, held, blk.live, blk.ledger, blk.vq.size);
      var head := TakeHead();
      held := held + [head];
      desk := Apply(desk, Take);
    }

    method TakeHead() returns (head: nat)
      requires DriverValid() && blk.vq.flow.queue != []
      modifies blk.vq
      ensures DriverValid() && head == old(blk.vq.flow.queue[0]) && blk.vq.flow == Taken(old(blk.vq.flow))
    {
      head := blk.DeviceTake();
    }

    /** The device finishes one of the heads it holds, in any order; there may be no such head. */
    method DoFinish(k: nat, status: nat, len: nat)
      requires Valid()
      modifies this`held, this`desk, blk, blk.slots, blk.vq, blk.vq.usedRing
      ensures Valid() && desk == Apply(old(desk), Finish(k, status, len))
    {
      HeldHeads(desk, blk.vq.flow, held, blk.live, blk.ledger);
      if k < |held| {
        FinishOne(k, status, len);
      }
    }

    method FinishOne(k: nat, status: nat, len: nat)
      requires Valid() && k < |held|
      modifies this`held, this`desk, blk, blk.slots, blk.vq, blk.vq.usedRing
      ensures Valid() && desk == Apply(old(desk), Finish(k, status, len))
    {
      ghost var f, v, l := blk.vq.flow, blk.live, blk.ledger;
      HeldHead(desk, f, held, v, l, k);
      Complete(held[k], status, len);
      MirrorsFinish(desk, f, held, v, l, k, status, len);
      held := Without(held, k);
      desk := Apply(desk, Finish(k, status, len));
    }

    /** The device writes the status where the chain of the head says and returns the head. */
    method Complete(head: nat, status: nat, len: nat)
      requires DriverValid() && head in blk.vq.flow.stage && blk.vq.flow.stage[head] == Held
      modifies blk, blk.slots, blk.vq, blk.vq.usedRing
      ensures DriverValid() && blk.vq.flow == Finished(old(blk.vq.flow), head) && blk.live == old(blk.live)
      ensures head in blk.live && blk.live[head].request !in old(blk.ledger).said
      ensures blk.ledger == Said(old(blk.ledger), blk.live[head].request, status)
    {
      blk.DeviceAnswer(head, status, len);
    }

    /** The driver handles completions and makes the callbacks. */
    method DoProcess()
      requires Valid()
      modifies this`log, this`desk, blk, blk.vq, blk.vq.desc
      ensures Valid() && desk == Apply(old(desk), Process)
    {
      ghost var f, v, l := blk.vq.flow, blk.live, blk.ledger;
      FlowOfDriver();
      var calls := Handle();
      MirrorsProcess(desk, f, held, v, l, blk.ledger, calls, blk.vq.size);
      Record(calls);
    }

    /** The callbacks made are those of the desk. */
    method Record(calls: seq<Call>)
      requires DriverValid() && Mirrors(Apply(desk, Process), blk.vq.flow, held, blk.live, blk.ledger)
      requires desk.capacity == blk.vq.size && Apply(desk, Process).log == log + calls
      modifies this`log, this`desk
      ensures Valid() && desk == Apply(old(desk), Process)
    {
      log := log + calls;
      desk := Apply(desk, Process);
    }

    method Handle() returns (calls: seq<Call>)
      requires DriverValid()
      modifies blk, blk.vq, blk.vq.desc
      ensures DriverValid() && blk.vq.flow == PoppedFirst(old(blk.vq.flow), |old(blk.vq.flow).returned|)
      ensures CalledBack(old(blk.vq.flow.returned), old(blk.live), blk.ledger, calls)
      ensures blk.ledger.tokens == old(blk.ledger.tokens) && blk.ledger.said == old(blk.ledger.said)
      ensures blk.live == Others(old(blk.live), old(blk.vq.flow.returned))
    {
      calls := blk.ProcessCompletions();
    }

    method DoKick(queueIndex: nat, event: nat)
      requires Valid() && event < 0x1_0000
      modifies blk
      ensures Valid() && desk == Apply(old(desk), Kick(queueIndex, event)) && desk == old(desk)
    {
      var _ := blk.Kick(queueIndex, event);
    }

    /** Following the links of the k-th head it holds shows the device the job of the desk's k-th held request. */
    ghost predicate HoldsJob(k: nat)
      requires k < |held| == |desk.held|
      reads this, blk, blk.slots, blk.vq, blk.vq.desc
    {
      held[k] in blk.live && blk.DeviceSees(held[k], blk.live[held[k]].slot, desk.held[k].job)
    }

    lemma JobsAreRead()
      requires DriverValid() && Mirrored()
      ensures |held| == |desk.held| && forall k | 0 <= k < |held| :: HoldsJob(k)
    {
      assert blk.Valid();
      HeldHeads(desk, blk.vq.flow, held, blk.live, blk.ledger);
      forall k | 0 <= k < |held| ensures HoldsJob(k) {
        HeldStandsFor(desk, blk.vq.flow, held, blk.live, blk.ledger, k);
        blk.RequestReadsBack(held[k]);
      }
    }

    /** Driver and device do what the desk says. */
    method Do(op: Op)
      requires Valid() && (op.Kick? ==> op.event < 0x1_0000)
      modifies this, blk, blk.slots, blk.vq, blk.vq.desc, blk.vq.availRing, blk.vq.usedRing
      ensures Valid() && desk == Apply(old(desk), op)
    {
      match op
      case Enqueue(t, queueIndex, sector, buffers, token) => DoEnqueue(t, queueIndex, sector, buffers, token);
      case Take => DoTake();
      case Finish(k, status, len) => DoFinish(k, status, len);
      case Process => DoProcess();
      case Kick(queueIndex, event) => DoKick(queueIndex, event);
    }
  }

  /**
  Every run of driver, queue and device from a fresh queue makes exactly the callbacks of the desk, in the
  same order; the descriptors that are not free are those of the requests in flight; and whatever head
  the device holds, following its links shows it the job of its request.
  */
  method RunDriver(queueSize: nat, base: nat, useEventIdx: bool, ops: seq<Op>) returns (sys: System, log: seq<Call>)
    requires SizeOk(queueSize) && forall k | 0 <= k < |ops| && ops[k].Kick? :: ops[k].event < 0x1_0000
    ensures sys.Valid() && sys.desk == Exec(queueSize, ops) && log == Exec(queueSize, ops).log
    ensures sys.blk.vq.numFree + Used(Exec(queueSize, ops)) == queueSize
    ensures |sys.held| == |sys.desk.held| && forall k | 0 <= k < |sys.held| :: sys.HoldsJob(k)
  {
    sys := new System(queueSize, base, useEventIdx);
    for i := 0 to |ops|
      invariant sys.Valid() && fresh(sys) && fresh(sys.blk) && fresh(sys.blk.slots) && fresh(sys.blk.vq)
      invariant fresh(sys.blk.vq.desc) && fresh(sys.blk.vq.availRing) && fresh(sys.blk.vq.usedRing)
      invariant sys.desk == Exec(queueSize, ops[..i]) && sys.blk.vq.size == queueSize
    {
      sys.Do(ops[i]);
      assert ops[..i + 1][..i] == ops[..i];
    }
    assert ops[..|ops|] == ops;
    sys.Capacity();
    sys.JobsAreRead();
    log := sys.log;
  }
}
