/** The block driver on top of one split virtqueue: enqueueing, completion and notification. */
module VirtioBlock {
  import opened Descriptors
  import opened RingFlow
  import opened SplitVirtqueues
  import opened RequestSlots
  import opened Notification

  const MAX_SG_ELEMENTS: nat := 18

  /** The device gives a request its status before it returns the head. */
  ghost predicate ReturnedSaid(stage: map<nat, Stage>, live: map<nat, Live>, said: map<nat, nat>) {
    forall h | h in stage && stage[h] == Returned :: h in live && live[h].request in said
  }

  function Readable(base: nat, slot: nat, t: ReqType, buffers: seq<IoVec>): seq<IoVec> {
    [HeaderVec(base, slot)] + if t == Out then buffers else []
  }

  function Writable(base: nat, slot: nat, t: ReqType, buffers: seq<IoVec>): seq<IoVec> {
    (if t == In then buffers else []) + [StatusVec(base, slot)]
  }

  /** The device tells a status once: a request whose head is not returned has none, except while it is being told. */
  ghost predicate Untold(stage: map<nat, Stage>, live: map<nat, Live>, said: map<nat, nat>, telling: set<nat>) {
    forall h | h in stage && stage[h] != Returned && h !in telling :: h in live && live[h].request !in said
  }

  /** Heads in flight, chains and requests belong together; bound, so that only proofs that name Ties look inside. */
  ghost predicate TiedTo(base: nat, live: map<nat, Live>, said: map<nat, nat>, chains: map<nat, Chain>,
                         stage: map<nat, Stage>, telling: set<nat>) {
    forall x | x == live :: Ties(base, x, said, chains, stage, telling)
  }

  ghost predicate Ties(base: nat, live: map<nat, Live>, said: map<nat, nat>, chains: map<nat, Chain>,
                       stage: map<nat, Stage>, telling: set<nat>) {
    && ChainsMatch(base, live, chains) && live.Keys == stage.Keys
    && ReturnedSaid(stage, live, said) && Untold(stage, live, said, telling)
  }

  lemma EnqueueTies(base: nat, live: map<nat, Live>, said: map<nat, nat>, chains: map<nat, Chain>,
                    stage: map<nat, Stage>,
                    head: nat, c: Chain, i: nat, n: nat, job: Job)
    requires TiedTo(base, live, said, chains, stage, {}) && head !in stage && n !in said
    requires RequestChain(base, i, job, c)
    ensures head !in live
    ensures TiedTo(base, live[head := Live(i, n, job)], said, chains[head := c], stage[head := Queued], {})
  {
    assert Ties(base, live, said, chains, stage, {});
  }

  predicate EndsIn(c: Chain, v: IoVec) { |c.writable| > 0 && c.writable[|c.writable| - 1].phys == v.phys }

  /** Different slots have different status bytes. */
  lemma SameSlot(base: nat, live: map<nat, Live>, said: map<nat, nat>, chains: map<nat, Chain>, stage: map<nat, Stage>,
                 head: nat, i: nat)
    requires TiedTo(base, live, said, chains, stage, {}) && head in chains && EndsIn(chains[head], StatusVec(base, i))
    ensures head in live && live[head].slot == i
  {
    assert Ties(base, live, said, chains, stage, {});
    assert ChainFits(base, live[head].slot, live[head].job, chains[head]);
  }

  /** The slot that a status address lies in. */
  function SlotOfStatus(base: nat, addr: nat, ghost slot: nat): (i: nat)
    requires addr == StatusVec(base, slot).phys
    ensures i == slot
  {
    (addr - base - STATUS_OFFSET) / SLOT_BYTES
  }

  lemma StatusAt(base: nat, live: map<nat, Live>, said: map<nat, nat>, chains: map<nat, Chain>, stage: map<nat, Stage>,
                 bits: seq<bool>, slots: seq<RequestSlot>, head: nat)
    requires TiedTo(base, live, said, chains, stage, {}) && SlotsOk(bits, slots, live) && head in stage
    ensures head in live && head in chains && live[head].slot < MAX_INFLIGHT && |chains[head].writable| > 0
    ensures chains[head].writable[|chains[head].writable| - 1] == StatusVec(base, live[head].slot)
  {
    assert Ties(base, live, said, chains, stage, {});
    assert ChainFits(base, live[head].slot, live[head].job, chains[head]);
  }

  lemma SayTies(base: nat, live: map<nat, Live>, l: Ledger, chains: map<nat, Chain>, stage: map<nat, Stage>,
                head: nat, status: nat)
    requires TiedTo(base, live, l.said, chains, stage, {}) && LedgerOk(l, live)
    requires head in stage && stage[head] == Held && head in live
    ensures live[head].request !in l.said
    ensures TiedTo(base, live, l.said[live[head].request := status], chains, stage, {head})
  {
    assert Ties(base, live, l.said, chains, stage, {});
    assert forall h | h in live && h != head :: live[h].request != live[head].request;
  }

  lemma TakeTies(base: nat, live: map<nat, Live>, said: map<nat, nat>, chains: map<nat, Chain>, f: Flow, size: nat)
    requires TiedTo(base, live, said, chains, f.stage, {}) && FlowOk(f, size) && f.queue != []
    ensures TiedTo(base, live, said, chains, Taken(f).stage, {})
  {
    assert Ties(base, live, said, chains, f.stage, {});
    TakeFlow(f, size);
  }

  lemma FinishTies(base: nat, live: map<nat, Live>, said: map<nat, nat>, chains: map<nat, Chain>, f: Flow, size: nat,
                   head: nat)
    requires TiedTo(base, live, said, chains, f.stage, {head})
    requires head in f.stage && head in live && live[head].request in said
    ensures TiedTo(base, live, said, chains, Finished(f, head).stage, {})
  {
    assert Ties(base, live, said, chains, f.stage, {head});
    assert f.stage[head := Returned].Keys == f.stage.Keys;
  }

  lemma PopTies(base: nat, live: map<nat, Live>, said: map<nat, nat>, chains: map<nat, Chain>, f: Flow, size: nat)
    requires TiedTo(base, live, said, chains, f.stage, {}) && FlowOk(f, size) && f.returned != []
    ensures var head := f.returned[0];
      && head in f.stage && f.stage[head] == Returned
      && head in live && head in chains && live[head].request in said && head < size && head !in Popped(f).stage
      && TiedTo(base, live - {head}, said, chains - {head}, Popped(f).stage, {})
  {
    assert Ties(base, live, said, chains, f.stage, {});
    var head := f.returned[0];
    assert f.stage[head] == Returned;
    assert (live - {head}).Keys == live.Keys - {head};
    assert (chains - {head}).Keys == chains.Keys - {head};
    assert Popped(f).stage.Keys == f.stage.Keys - {head};
  }

  lemma RequestBuffers(base: nat, i: nat, t: ReqType, buffers: seq<IoVec>, nodes: seq<nat>)
    ensures |Readable(base, i, t, buffers)| + |Writable(base, i, t, buffers)| == |buffers| + 2
    ensures var c := Chain(nodes, Readable(base, i, t, buffers), Writable(base, i, t, buffers));
      forall sector :: RequestChain(base, i, Job(t, sector, buffers), c)
  {
  }

  predicate AllOccupied(bits: seq<bool>) { forall i | 0 <= i < |bits| :: bits[i] }

  /** The device has told about request n. */
  predicate Answers(l: Ledger, n: nat) { n < |l.tokens| && n in l.said }

  function CallFor(l: Ledger, n: nat): Call
    requires Answers(l, n)
  {
    Call(l.tokens[n], MapBlkStatus(l.said[n]))
  }

  /** The request of a head got this callback. */
  ghost predicate GotCall(head: nat, before: map<nat, Live>, l: Ledger, call: Call) {
    && head in before && Answers(l, before[head].request)
    && call == CallFor(l,
                       before[head].request) && before[head].request in l.calls && l.calls[before[head].request] == call
  }

  /** Heads, in the order in which the device returned them, got their callbacks. */
  ghost predicate CalledBack(heads: seq<nat>, before: map<nat, Live>, l: Ledger, calls: seq<Call>) {
    |calls| == |heads| && forall k | 0 <= k < |heads| :: GotCall(heads[k], before, l, calls[k])
  }

  lemma NewIsUntold(l: Ledger, live: map<nat, Live>)
    requires forall x | x == l :: LedgerOk(x, live)
    ensures |l.tokens| !in l.said
  {
    assert LedgerOk(l, live);
  }

  function Others(before: map<nat, Live>, heads: seq<nat>): map<nat, Live> { before - set h | h in heads }

  /** Whatever the log was, these calls continue it. */
  ghost predicate LogExtends(l: Ledger, l': Ledger, calls: seq<Call>) {
    forall log | LogShows(log, l) :: LogShows(log + calls, l')
  }

  /** The flow after the first n returned heads were popped. */
  function PoppedFirst(f: Flow, n: nat): Flow
    requires n <= |f.returned|
  {
    f.(returned := f.returned[n..], stage := f.stage - (set h | h in f.returned[..n]), popped := f.popped + n)
  }

  lemma PoppedNext(f: Flow, n: nat)
    requires n < |f.returned|
    ensures Popped(PoppedFirst(f, n)) == PoppedFirst(f, n + 1)
  {
    assert f.returned[..n + 1] == f.returned[..n] + [f.returned[n]];
    assert f.returned[n..][1..] == f.returned[n + 1..];
  }

  ghost predicate ProgressOk(f0: Flow, before: map<nat, Live>, l: Ledger, calls: seq<Call>,
                             f: Flow, live: map<nat, Live>, l': Ledger) {
    && |calls| <= |f0.returned| && f == PoppedFirst(f0, |calls|)
    && CalledBack(f0.returned[..|calls|], before, l', calls) && live == Others(before, f0.returned[..|calls|])
    && l'.tokens == l.tokens && l'.said == l.said && LogExtends(l, l', calls)
  }

  lemma ProgressStarts(live: map<nat, Live>, l: Ledger, f: Flow)
    ensures ProgressOk(f, live, l, [], f, live, l)
  {
    assert forall log: seq<Call> :: log + [] == log;
    assert Others(live, []) == live;
    assert f == PoppedFirst(f, 0);
  }

  lemma ProgressStep(f0: Flow, before: map<nat, Live>, l: Ledger, calls: seq<Call>,
                     f: Flow, live: map<nat, Live>, l': Ledger, one: seq<Call>, n: nat)
    requires forall c | c == calls :: ProgressOk(f0, before, l, c, f, live, l')
    requires f.returned != [] && f.returned[0] in live && n == live[f.returned[0]].request
    requires n !in l'.calls && Answers(l', n) && one == [CallFor(l', n)]
    ensures ProgressOk(f0, before, l, calls + one, Popped(f), live - {f.returned[0]}, Completed(l', n, one[0]))
  {
    assert ProgressOk(f0, before, l, calls, f, live, l');
    var l2 := Completed(l', n, one[0]);
    CallbackJoins(f0.returned, |calls|, before, l', l2, calls, one);
    PoppedNext(f0, |calls|);
    forall log | LogShows(log, l) ensures LogShows(log + (calls + one), l2) {
      LogGrows(log + calls, l', n, one[0]);
      assert log + calls + one == log + (calls + one);
    }
  }

  lemma ProgressBound(f0: Flow, before: map<nat, Live>, l: Ledger, calls: seq<Call>,
                      f: Flow, live: map<nat, Live>, l': Ledger)
    requires forall c | c == calls :: ProgressOk(f0, before, l, c, f, live, l')
    ensures |calls| <= |f0.returned|
  {
    assert ProgressOk(f0, before, l, calls, f, live, l');
  }

  lemma ProgressEnds(f0: Flow, before: map<nat, Live>, l: Ledger, calls: seq<Call>,
                     f: Flow, live: map<nat, Live>, l': Ledger)
    requires f.returned == [] && forall c | c == calls :: ProgressOk(f0, before, l, c, f, live, l')
    ensures CalledBack(f0.returned, before, l', calls) && live == Others(before, f0.returned)
    ensures l'.tokens == l.tokens && l'.said == l.said && LogExtends(l, l', calls)
    ensures f == PoppedFirst(f0, |f0.returned|)
  {
    assert ProgressOk(f0, before, l, calls, f, live, l');
    assert f0.returned[..|calls|] == f0.returned;
  }

  lemma CallbackJoins(heads: seq<nat>, k: nat, before: map<nat, Live>, l: Ledger, l': Ledger, calls: seq<Call>,
                      one: seq<Call>)
    requires k < |heads| && CalledBack(heads[..k], before, l, calls) && heads[k] in before
    requires var n := before[heads[k]].request;
      n !in l.calls && Answers(l', n) && one == [CallFor(l', n)] && l' == Completed(l, n, one[0])
    ensures CalledBack(heads[..k + 1], before, l', calls + one)
    ensures heads[k..][1..] == heads[k + 1..]
    ensures Others(before, heads[..k]) - {heads[k]} == Others(before, heads[..k + 1])
  {
    forall j | 0 <= j < k + 1 ensures GotCall(heads[..k + 1][j], before, l', (calls + one)[j]) {
      if j < k { assert GotCall(heads[..k][j], before, l, calls[j]); }
    }
    assert heads[..k + 1] == heads[..k] + [heads[k]];
  }

  class VirtioBlk {
    const vq: SplitVirtqueue
    const slots: array<RequestSlot>
    const slotBase: nat
    const eventIdx: bool
    /** Bit i says that slots[i] is occupied. */
    var slotBitmap: seq<bool>
    var oldAvailIdx: nat
    ghost var live: map<nat, Live>
    ghost var ledger: Ledger
    /** How many chains had been submitted at the last Kick. */
    ghost var kicked: nat

    ghost predicate Apart()
      reads this
    {
      slots as object != vq.desc && slots as object != vq.availRing && slots as object != vq.usedRing
    }

    ghost predicate SlotsValid()
      reads this, slots
    {
      SlotsOk(slotBitmap, slots[..], live) && SlotsTell(slots[..], live, ledger)
    }

    ghost predicate Tied()
      reads this, vq
    {
      TiedTo(slotBase, live, ledger.said, vq.pool.chains, vq.flow.stage, {})
    }

    ghost predicate KickOk()
      reads this, vq
    {
      kicked <= vq.flow.submitted && oldAvailIdx == Index16(kicked)
    }

    /**
    The queue's invariant, and every descriptor is free or in a chain; bound, so that only proofs that
    name vq.Valid() look inside.
    */
    ghost predicate QueueValid()
      reads vq, vq.desc, vq.availRing, vq.usedRing
    {
      forall q | q == vq :: q.Valid() && LooseOnly(q.pool.owner, [])
    }

    /** Likewise for the ledger. */
    ghost predicate LedgerValid()
      reads this
    {
      forall l | l == ledger :: LedgerOk(l, live)
    }

    ghost predicate Valid()
      reads this, slots, vq, vq.desc, vq.availRing, vq.usedRing
    {
      Apart() && QueueValid() && SlotsValid() && Tied() && LedgerValid() && KickOk()
    }

    /** A driver over a queue that has nothing in flight: no slot is occupied and no request is known. */
    constructor (q: SplitVirtqueue, base: nat, useEventIdx: bool)
      requires q.Valid() && q.pool.chains == map[] && LooseOnly(q.pool.owner, []) && q.flow == Flow([], [], map[], 0, 0)
      ensures Valid() && live == map[] && ledger == NoRequests
      ensures vq == q && slotBase == base && eventIdx == useEventIdx && fresh(slots)
    {
      vq := q;
      slots := new RequestSlot[MAX_INFLIGHT](i => RequestSlot(In, 0, 0, 0, 0));
      slotBase, eventIdx := base, useEventIdx;
      slotBitmap, oldAvailIdx := seq(MAX_INFLIGHT, i => false), 0;
      live, ledger, kicked := map[], NoRequests, 0;
    }

    /** The lowest free slot. */
    method AllocRequestSlot() returns (r: Expected<nat>)
      requires |slotBitmap| == MAX_INFLIGHT
      modifies this`slotBitmap
      ensures r.Err? ==> r.error == NoFreeDescriptors && slotBitmap == old(slotBitmap)
      ensures r.Err? <==> AllOccupied(old(slotBitmap))
      ensures r.Ok? ==>
        && r.value < MAX_INFLIGHT && !old(slotBitmap)[r.value] && slotBitmap == old(slotBitmap)[r.value := true]
        && forall i | 0 <= i < r.value :: old(slotBitmap)[i]
    {
      for idx := 0 to MAX_INFLIGHT
        invariant slotBitmap == old(slotBitmap) && forall i | 0 <= i < idx :: slotBitmap[i]
      {
        if !slotBitmap[idx] {
          slotBitmap := slotBitmap[idx := true];
          return Ok(idx);
        }
      }
      return Err(NoFreeDescriptors);
    }

    method FreeRequestSlot(idx: nat)
      requires |slotBitmap| == MAX_INFLIGHT
      modifies this`slotBitmap
      ensures slotBitmap == if idx < MAX_INFLIGHT then old(slotBitmap)[idx := false] else old(slotBitmap)
    {
      if idx < MAX_INFLIGHT {
        slotBitmap := slotBitmap[idx := false];
      }
    }

    /** The occupied slot of a head, or MAX_INFLIGHT if there is none. */
    method FindSlotByDescHead(head: nat) returns (i: nat)
      requires |slotBitmap| == slots.Length == MAX_INFLIGHT
      ensures i <= MAX_INFLIGHT
      ensures i < MAX_INFLIGHT ==> slotBitmap[i] && slots[i].descHead == head
      ensures i == MAX_INFLIGHT ==> forall j | 0 <= j < MAX_INFLIGHT && slotBitmap[j] :: slots[j].descHead != head
    {
      for k := 0 to MAX_INFLIGHT
        invariant forall j | 0 <= j < k && slotBitmap[j] :: slots[j].descHead != head
      {
        if slotBitmap[k] && slots[k].descHead == head {
          return k;
        }
      }
      return MAX_INFLIGHT;
    }

    /** The slots without slot idx, which is taken but not yet in use. */
    ghost predicate SlotsBut(idx: nat, bits: seq<bool>)
      reads this, slots
    {
      && SlotsOk(bits, slots[..], live) && SlotsTell(slots[..], live, ledger)
      && idx < MAX_INFLIGHT && !bits[idx] && slotBitmap == bits[idx := true]
    }

    /** Writes a slot that is not in use by any request. */
    method FillSlot(idx: nat, t: ReqType, sector: nat, token: Token, ghost bits: seq<bool>)
      requires SlotsBut(idx, bits)
      modifies slots
      ensures SlotsBut(idx, bits)
      ensures slots[..] == old(slots[..])[idx := RequestSlot(t, sector, 0xFF, token, old(slots[idx]).descHead)]
    {
      slots[idx] := slots[idx].(reqType := t, sector := sector, status := 0xFF, token := token);
      assert slots[..] == old(slots[..])[idx := slots[idx]];
    }

    /** Books a submitted chain: the slot gets its head, the request its number. */
    method Record(idx: nat, head: nat, ghost token: Token, ghost job: Job, ghost bits: seq<bool>)
      requires SlotsBut(idx, bits) && LedgerValid() && head !in live && slots[idx].token == token
      requires slots[idx].reqType == job.reqType && slots[idx].sector == job.sector
      modifies this`live, this`ledger, slots
      ensures SlotsValid() && LedgerValid() && ledger == Enqueued(old(ledger), token, head)
      ensures live == old(live)[head := Live(idx, |old(ledger).tokens|, job)]
      ensures slots[..] == old(slots[..])[idx := old(slots[idx]).(descHead := head)]
    {
      EnqueueSlots(bits, slots[..], live, idx, slots[idx].(descHead := head), |ledger.tokens|, job);
      EnqueueTells(bits, slots[..], live, ledger, idx, slots[idx].(descHead := head), job);
      EnqueueLedger(ledger, live, head, idx, job, token);
      slots[idx] := slots[idx].(descHead := head);
      assert slots[..] == old(slots[..])[idx := slots[idx]];
      live := live[head := Live(idx, |ledger.tokens|, job)];
      ledger := Enqueued(ledger, token, head);
    }

    /** The queue is as it was, down to every descriptor and ring entry. */
    twostate predicate QueueUntouched()
      reads vq, vq.desc, vq.availRing, vq.usedRing
    {
      unchanged(vq) && unchanged(vq.desc) && unchanged(vq.availRing) && unchanged(vq.usedRing)
    }

    /** Writing slots leaves the queue valid. */
    twostate lemma QueueKept()
      requires old(QueueValid()) && QueueUntouched()
      ensures QueueValid()
    {
    }

    /** The queue has a chain at head made of these buffers. */
    ghost predicate Holds(head: nat, readable: seq<IoVec>, writable: seq<IoVec>)
      reads vq
    {
      head in vq.pool.chains && vq.pool.chains[head].readable == readable && vq.pool.chains[head].writable == writable
    }

    /** The queue's part of submitting a request; the caller books it. */
    method SubmitBuffers(idx: nat, t: ReqType, buffers: seq<IoVec>, ghost sector: nat,
                         ghost n: nat) returns (r: Expected<nat>)
      requires QueueValid() && Tied() && |buffers| + 2 <= MAX_SG_ELEMENTS && n !in ledger.said
      modifies vq`freeHead, vq`numFree, vq`pool, vq`availIdx, vq`flow, vq.desc, vq.availRing
      ensures QueueValid()
      ensures r.Err? <==> old(vq.numFree) < |buffers| + 2
      ensures r.Err? ==> r.error == NoFreeDescriptors && QueueUntouched()
      ensures r.Ok? ==>
        && old(vq.pool.free) != [] && r.value == old(vq.pool.free[0])
        && r.value !in live && r.value !in old(vq.flow.stage)
        && vq.flow == Submitted(old(vq.flow), r.value)
        && Holds(r.value, Readable(slotBase, idx, t, buffers), Writable(slotBase, idx, t, buffers))
        && TiedTo(slotBase, live[r.value := Live(idx, n, Job(t, sector, buffers))], ledger.said, vq.pool.chains,
                  vq.flow.stage, {})
    {
      r := vq.SubmitChain(Readable(slotBase, idx, t, buffers), Writable(slotBase, idx, t, buffers));
      if r.Ok? {
        ghost var c := vq.pool.chains[r.value];
        RequestBuffers(slotBase, idx, t, buffers, c.nodes);
        EnqueueTies(slotBase, live, ledger.said, old(vq.pool.chains), old(vq.flow.stage), r.value, c, idx, n,
                    Job(t, sector, buffers));
      }
    }

    /** A device that follows the links from a head finds the job: header, buffers and status byte. */
    ghost predicate DeviceSees(head: nat, slot: nat, job: Job)
      reads this, slots, vq, vq.desc
    {
      && slot < slots.Length && slots[slot].reqType == job.reqType && slots[slot].sector == job.sector
      && Carries(ReadChain(vq.desc[..], head, vq.size), slotBase, slot, job)
    }

    lemma QueueReadsBack(head: nat)
      requires QueueValid() && head in vq.pool.chains
      ensures ReadsAs(ReadChain(vq.desc[..], head, vq.size), vq.pool.chains[head].readable,
                      vq.pool.chains[head].writable)
    {
      assert vq.Valid();
      ChainReadsBack(vq.desc[..], vq.pool, vq.freeHead, vq.numFree, head, vq.size);
    }

    /** Every request in flight can be read by the device as it was asked for. */
    lemma RequestReadsBack(head: nat)
      requires Valid() && head in live
      ensures DeviceSees(head, live[head].slot, live[head].job)
    {
      assert Ties(slotBase, live, ledger.said, vq.pool.chains, vq.flow.stage, {});
      QueueReadsBack(head);
      ChainCarries(ReadChain(vq.desc[..], head, vq.size), slotBase, live[head].slot, live[head].job,
                   vq.pool.chains[head]);
    }

    /**
    Enqueues a request, or fails and changes no slot bit, no descriptor and no index. It fails
    exactly when the arguments are wrong, all slots are occupied or descriptors are short.
    */
    method DoEnqueue(t: ReqType, queueIndex: nat, sector: nat, buffers: seq<IoVec>, token: Token)
      returns (r: Expected<nat>, ghost head: nat)
      requires Valid()
      modifies this`slotBitmap, this`live, this`ledger, slots
      modifies vq`freeHead, vq`numFree, vq`pool, vq`availIdx, vq`flow, vq.desc, vq.availRing
      ensures Valid()
      ensures r == Err(InvalidArgument) <==> queueIndex != 0 || |buffers| + 2 > MAX_SG_ELEMENTS
      ensures r == Err(NoFreeDescriptors) <==>
        && queueIndex == 0 && |buffers| + 2 <= MAX_SG_ELEMENTS
        && (AllOccupied(old(slotBitmap)) || old(vq.numFree) < |buffers| + 2)
      ensures r.Err? ==> r.error in {InvalidArgument, NoFreeDescriptors}
      ensures r.Err? ==> slotBitmap == old(slotBitmap) && live == old(live) && ledger == old(ledger) && QueueUntouched()
      ensures r.Ok? ==> InUse(r.value, head, RequestSlot(t, sector, 0xFF, token, head), buffers)
      ensures r.Ok? ==> DeviceSees(head, r.value, Job(t, sector, buffers))
      ensures r.Ok? ==> head !in old(vq.flow.stage) && vq.flow == Submitted(old(vq.flow), head)
      ensures r.Ok? ==> ledger == Enqueued(old(ledger), token, head)
      ensures r.Ok? ==>
        && TookSlot(old(slotBitmap), r.value)
        && live == old(live)[head := Live(r.value, |old(ledger).tokens|, Job(t, sector, buffers))]
    {
      if queueIndex != 0 {
        return Err(InvalidArgument), 0;
      }
      if |buffers| + 2 > MAX_SG_ELEMENTS {
        return Err(InvalidArgument), 0;
      }
      var slot := AllocRequestSlot();
      if slot.Err? {
        return Err(slot.error), 0;
      }
      r := UseSlot(slot.value, t, sector, buffers, token, old(slotBitmap));
      head := if r.Ok? then old(vq.pool.free)[0] else 0;
      if r.Ok? { RequestReadsBack(head); }
    }

    /** Slot i has this content and the queue holds its chain at head. */
    ghost predicate InUse(i: nat, head: nat, v: RequestSlot, buffers: seq<IoVec>)
      reads this, slots, vq
    {
      && i < slots.Length && slots[i] == v
      && Holds(head, Readable(slotBase, i, v.reqType, buffers), Writable(slotBase, i, v.reqType, buffers))
    }

    ghost predicate TookSlot(bits: seq<bool>, i: nat)
      reads this
    {
      i < MAX_INFLIGHT && |bits| == MAX_INFLIGHT && !bits[i] && slotBitmap == bits[i := true]
    }

    /** Fills an allocated slot and submits its chain, or gives the slot back. */
    method UseSlot(idx: nat, t: ReqType, sector: nat, buffers: seq<IoVec>, token: Token,
                   ghost bits: seq<bool>) returns (r: Expected<nat>)
      requires Apart() && QueueValid() && Tied() && LedgerValid() && KickOk()
      requires SlotsBut(idx, bits) && |buffers| + 2 <= MAX_SG_ELEMENTS
      modifies this`slotBitmap, this`live, this`ledger, slots
      modifies vq`freeHead, vq`numFree, vq`pool, vq`availIdx, vq`flow, vq.desc, vq.availRing
      ensures Valid()
      ensures r.Err? <==> old(vq.numFree) < |buffers| + 2
      ensures r.Err? ==>
        r.error == NoFreeDescriptors && slotBitmap == bits && live == old(live) && ledger == old(ledger)
      ensures r.Err? ==> QueueUntouched()
      ensures r.Ok? ==> old(vq.pool.free) != [] && r.value == idx && slotBitmap == old(slotBitmap)
      ensures r.Ok? ==> old(vq.pool.free)[0] !in old(vq.flow.stage)
      ensures r.Ok? ==>
        InUse(idx, old(vq.pool.free)[0], RequestSlot(t, sector, 0xFF, token, old(vq.pool.free)[0]), buffers)
      ensures r.Ok? ==> vq.flow == Submitted(old(vq.flow), old(vq.pool.free)[0])
      ensures r.Ok? ==> ledger == Enqueued(old(ledger), token, old(vq.pool.free)[0])
      ensures r.Ok? ==>
        live == old(live)[old(vq.pool.free)[0] := Live(idx, |old(ledger).tokens|, Job(t, sector, buffers))]
    {
      WriteSlot(idx, t, sector, token, bits);
      r := SubmitRequest(idx, t, buffers, token, bits);
    }

    method WriteSlot(idx: nat, t: ReqType, sector: nat, token: Token, ghost bits: seq<bool>)
      requires Apart() && QueueValid() && SlotsBut(idx, bits)
      modifies slots
      ensures QueueValid() && SlotsBut(idx, bits)
      ensures slots[idx] == RequestSlot(t, sector, 0xFF, token, old(slots[idx]).descHead)
    {
      FillSlot(idx, t, sector, token, bits);
      QueueKept();
    }

    twostate lemma BookedValid()
      requires Apart() && old(QueueValid()) && QueueUntouched() && SlotsValid() && LedgerValid()
      requires old(KickOk()) && kicked == old(kicked) && oldAvailIdx == old(oldAvailIdx)
      requires TiedTo(slotBase, live, ledger.said, old(vq.pool.chains), old(vq.flow.stage), {})
      ensures Valid()
    {
      QueueKept();
    }

    method BookRequest(idx: nat, head: nat, ghost token: Token, ghost job: Job, ghost bits: seq<bool>)
      requires Apart() && QueueValid() && SlotsBut(idx, bits) && LedgerValid() && KickOk()
      requires head !in live && slots[idx].token == token
      requires slots[idx].reqType == job.reqType && slots[idx].sector == job.sector
      requires TiedTo(slotBase, live[head := Live(idx, |ledger.tokens|, job)], ledger.said, vq.pool.chains,
                      vq.flow.stage, {})
      modifies this`live, this`ledger, slots
      ensures Valid() && ledger == Enqueued(old(ledger), token, head)
      ensures live == old(live)[head := Live(idx, |old(ledger).tokens|, job)]
      ensures slots[idx] == old(slots[idx]).(descHead := head)
    {
      Record(idx, head, token, job, bits);
      BookedValid();
    }

    method GiveBack(idx: nat, ghost bits: seq<bool>)
      requires Apart() && QueueValid() && Tied() && LedgerValid() && KickOk() && SlotsBut(idx, bits)
      modifies this`slotBitmap
      ensures Valid() && slotBitmap == bits
    {
      FreeRequestSlot(idx);
      assert slotBitmap == bits;
    }

    /** Submits the chain of a filled slot, or gives the slot back. */
    method SubmitRequest(idx: nat, t: ReqType, buffers: seq<IoVec>, ghost token: Token,
                         ghost bits: seq<bool>) returns (r: Expected<nat>)
      requires Apart() && QueueValid() && Tied() && LedgerValid() && KickOk()
      requires SlotsBut(idx, bits) && |buffers| + 2 <= MAX_SG_ELEMENTS && slots[idx].token == token
      requires slots[idx].reqType == t
      modifies this`slotBitmap, this`live, this`ledger, slots
      modifies vq`freeHead, vq`numFree, vq`pool, vq`availIdx, vq`flow, vq.desc, vq.availRing
      ensures Valid()
      ensures r.Err? <==> old(vq.numFree) < |buffers| + 2
      ensures r.Err? ==>
        r.error == NoFreeDescriptors && slotBitmap == bits && live == old(live) && ledger == old(ledger)
      ensures r.Err? ==> QueueUntouched()
      ensures r.Ok? ==> old(vq.pool.free) != [] && r.value == idx && slotBitmap == old(slotBitmap)
      ensures r.Ok? ==> old(vq.pool.free)[0] !in old(vq.flow.stage)
      ensures r.Ok? ==> InUse(idx, old(vq.pool.free)[0], old(slots[idx]).(descHead := old(vq.pool.free)[0]), buffers)
      ensures r.Ok? ==> vq.flow == Submitted(old(vq.flow), old(vq.pool.free)[0])
      ensures r.Ok? ==> ledger == Enqueued(old(ledger), token, old(vq.pool.free)[0])
      ensures r.Ok? ==>
        live ==
        old(live)[old(vq.pool.free)[0] := Live(idx, |old(ledger).tokens|, Job(t, old(slots[idx]).sector, buffers))]
    {
      NewIsUntold(ledger, live);
      var chain := SubmitBuffers(idx, t, buffers, slots[idx].sector, |ledger.tokens|);
      if chain.Err? {
        GiveBack(idx, bits);
        return Err(chain.error);
      }
      BookRequest(idx, chain.value, token, Job(t, slots[idx].sector, buffers), bits);
      return Ok(idx);
    }

    /** What taking, finishing and popping a head needs to know of the queue. */
    lemma QueueFlow()
      requires QueueValid()
      ensures FlowOk(vq.flow, vq.size)
    {
      assert vq.Valid();
    }

    /** The device reads the oldest unread head. */
    method DeviceTake() returns (head: nat)
      requires Valid() && vq.flow.queue != []
      modifies vq`deviceIdx, vq`flow
      ensures Valid() && head == old(vq.flow.queue[0]) && vq.flow == Taken(old(vq.flow))
    {
      head := QueueTake();
    }

    method QueueTake() returns (head: nat)
      requires QueueValid() && Tied() && vq.flow.queue != []
      modifies vq`deviceIdx, vq`flow
      ensures QueueValid() && Tied() && head == old(vq.flow.queue[0]) && vq.flow == Taken(old(vq.flow))
    {
      QueueFlow();
      TakeTies(slotBase, live, ledger.said, vq.pool.chains, vq.flow, vq.size);
      head := vq.DeviceTake();
    }

    method QueueFinish(head: nat, len: nat)
      requires QueueValid() && TiedTo(slotBase, live, ledger.said, vq.pool.chains, vq.flow.stage, {head})
      requires head in vq.flow.stage && vq.flow.stage[head] == Held && head in live && live[head].request in ledger.said
      modifies vq`usedIdx, vq`flow, vq.usedRing
      ensures QueueValid() && Tied() && vq.flow == Finished(old(vq.flow), head)
    {
      QueueFlow();
      FinishTies(slotBase, live, ledger.said, vq.pool.chains, vq.flow, vq.size, head);
      vq.DeviceFinish(head, len);
    }

    /**
    The device finishes a head it holds: it writes the status byte at the end of the chain, which
    lies in slot i, and returns the head.
    */
    method DeviceComplete(head: nat, i: nat, status: nat, len: nat)
      requires Valid() && head in vq.flow.stage && vq.flow.stage[head] == Held && i < MAX_INFLIGHT
      requires head in vq.pool.chains && EndsIn(vq.pool.chains[head], StatusVec(slotBase, i))
      modifies this`ledger, slots, vq`usedIdx, vq`flow, vq.usedRing
      ensures Valid() && vq.flow == Finished(old(vq.flow), head) && head in live && live[head].slot == i
      ensures live[head].request !in old(ledger.said) && ledger == Said(old(ledger), live[head].request, status)
      ensures slots[..] == old(slots[..])[i := old(slots[i]).(status := status)]
    {
      WriteStatus(head, i, status);
      QueueFinish(head, len);
    }

    /** The status of a head is written and the head not yet returned. */
    ghost predicate Telling(head: nat)
      reads this, slots, vq, vq.desc, vq.availRing, vq.usedRing
    {
      && Apart() && QueueValid() && SlotsValid() && LedgerValid() && KickOk()
      && TiedTo(slotBase, live, ledger.said, vq.pool.chains, vq.flow.stage, {head})
      && head in live && live[head].request in ledger.said
    }

    method WriteStatus(ghost head: nat, i: nat, status: nat)
      requires Valid() && head in vq.flow.stage && vq.flow.stage[head] == Held && i < MAX_INFLIGHT
      requires head in vq.pool.chains && EndsIn(vq.pool.chains[head], StatusVec(slotBase, i))
      modifies this`ledger, slots
      ensures Telling(head) && live[head].slot == i
      ensures live[head].request !in old(ledger.said) && ledger == Said(old(ledger), live[head].request, status)
      ensures slots[..] == old(slots[..])[i := old(slots[i]).(status := status)]
    {
      assert LedgerOk(ledger, live);
      SameSlot(slotBase, live, ledger.said, vq.pool.chains, vq.flow.stage, head, i);
      SayTies(slotBase, live, ledger, vq.pool.chains, vq.flow.stage, head, status);
      TellBeside(head, i, status);
    }

    method TellBeside(ghost head: nat, i: nat, status: nat)
      requires Apart() && QueueValid() && SlotsValid() && LedgerValid() && head in live && live[head].slot == i
      modifies this`ledger, slots
      ensures QueueValid() && SlotsValid() && LedgerValid() && ledger == Said(old(ledger), live[head].request, status)
      ensures i < slots.Length && slots[..] == old(slots[..])[i := old(slots[i]).(status := status)]
    {
      TellStatus(head, i, status);
      QueueKept();
    }

    /** The driver's side of the status byte: slot and ledger. */
    method TellStatus(ghost head: nat, i: nat, status: nat)
      requires SlotsValid() && LedgerValid() && head in live && live[head].slot == i
      modifies this`ledger, slots
      ensures SlotsValid() && LedgerValid() && ledger == Said(old(ledger), live[head].request, status)
      ensures i < slots.Length && slots[..] == old(slots[..])[i := old(slots[i]).(status := status)]
    {
      assert LedgerOk(ledger, live);
      SayTells(slotBitmap, slots[..], live, ledger, head, status);
      SayLedger(ledger, live, head, status);
      slots[i] := slots[i].(status := status);
      assert slots[..] == old(slots[..])[i := slots[i]];
      ledger := Said(ledger, live[head].request, status);
    }

    /** The device follows the chain of a head it holds to its status byte, writes it, and returns the head. */
    method DeviceAnswer(head: nat, status: nat, len: nat)
      requires Valid() && head in vq.flow.stage && vq.flow.stage[head] == Held
      modifies this`ledger, slots, vq`usedIdx, vq`flow, vq.usedRing
      ensures Valid() && vq.flow == Finished(old(vq.flow), head) && head in live
      ensures live[head].request !in old(ledger.said) && ledger == Said(old(ledger), live[head].request, status)
    {
      var i := StatusSlot(head);
      DeviceComplete(head, i, status, len);
    }

    /** The slot whose status byte the device finds at the end of a chain. */
    method StatusSlot(head: nat) returns (i: nat)
      requires Valid() && head in vq.flow.stage
      ensures i < MAX_INFLIGHT && head in vq.pool.chains && EndsIn(vq.pool.chains[head], StatusVec(slotBase, i))
    {
      StatusAt(slotBase, live, ledger.said, vq.pool.chains, vq.flow.stage, slotBitmap, slots[..], head);
      ghost var slot := live[head].slot;
      var addr := QueueLast(head, StatusVec(slotBase, slot));
      i := SlotOfStatus(slotBase, addr, slot);
    }

    method QueueLast(head: nat, ghost v: IoVec) returns (addr: nat)
      requires QueueValid() && head in vq.pool.chains && |vq.pool.chains[head].writable| > 0
      requires vq.pool.chains[head].writable[|vq.pool.chains[head].writable| - 1] == v
      ensures addr == v.phys
    {
      addr := vq.LastBuffer(head);
    }

    /** One turn of the completion loop: the callback for the head returned first. */
    method CompleteOne() returns (calls: seq<Call>, ghost n: nat)
      requires Valid() && vq.flow.returned != []
      modifies this`slotBitmap, this`live, this`ledger
      modifies vq`lastUsedIdx, vq`flow, vq`freeHead, vq`numFree, vq`pool, vq.desc
      ensures Valid() && vq.flow == Popped(old(vq.flow))
      ensures var head := old(vq.flow.returned[0]);
        && head in old(live) && n == old(live)[head].request && live == old(live) - {head}
        && head in old(vq.flow.stage) && old(vq.flow.stage)[head] == Returned
      ensures n !in old(ledger).calls && Answers(ledger, n) && calls == [CallFor(ledger, n)]
      ensures ledger == Completed(old(ledger), n, calls[0])
    {
      var head := PopHead();
      n := live[head].request;
      calls := Callback(head);
      FreeHead(head);
    }

    /** The head has left the rings; its slot, its chain and its request are still there. */
    ghost predicate Popping(head: nat)
      reads this, slots, vq, vq.desc, vq.availRing, vq.usedRing
    {
      && Apart() && QueueValid() && SlotsValid() && LedgerValid() && KickOk()
      && head in live && live[head].request in ledger.said && Leaving(head, live - {head})
    }

    /** The chain of head is the only one that is not in flight; `rest` are the other requests. */
    ghost predicate Leaving(head: nat, rest: map<nat, Live>)
      reads this, vq
    {
      && head < vq.size && head !in vq.flow.stage && head in vq.pool.chains
      && TiedTo(slotBase, rest, ledger.said, vq.pool.chains - {head}, vq.flow.stage, {})
    }

    method PopHead() returns (head: nat)
      requires Valid() && vq.flow.returned != []
      modifies vq`lastUsedIdx, vq`flow
      ensures Popping(head) && head == old(vq.flow.returned[0]) && vq.flow == Popped(old(vq.flow))
      ensures head in old(vq.flow.stage) && old(vq.flow.stage)[head] == Returned
    {
      head := QueuePop();
    }

    method QueuePop() returns (head: nat)
      requires QueueValid() && Tied() && vq.flow.returned != []
      modifies vq`lastUsedIdx, vq`flow
      ensures QueueValid() && head == old(vq.flow.returned[0]) && vq.flow == Popped(old(vq.flow))
      ensures head in old(vq.flow.stage) && old(vq.flow.stage)[head] == Returned
      ensures head in live && live[head].request in ledger.said && Leaving(head, live - {head})
    {
      QueueFlow();
      PopTies(slotBase, live, ledger.said, vq.pool.chains, vq.flow, vq.size);
      var elem := vq.PopUsed();
      head := Uint16(elem.value.id);
    }

    /** Finds the slot of the head, calls back with its token and status, and frees it. */
    method Callback(head: nat) returns (calls: seq<Call>)
      requires Popping(head)
      modifies this`slotBitmap, this`live, this`ledger
      ensures Apart() && QueueValid() && SlotsValid() && LedgerValid() && KickOk() && Leaving(head, live)
      ensures head in old(live) && live == old(live) - {head}
      ensures var n := old(live)[head].request;
        && n !in old(ledger).calls && Answers(ledger, n)
        && calls == [CallFor(ledger, n)] && ledger == Completed(old(ledger), n, calls[0])
    {
      calls := Settle(head);
    }

    method Settle(head: nat) returns (calls: seq<Call>)
      requires SlotsValid() && LedgerValid() && head in live && live[head].request in ledger.said
      modifies this`slotBitmap, this`live, this`ledger
      ensures SlotsValid() && LedgerValid() && live == old(live) - {head}
      ensures var n := old(live)[head].request;
        && n !in old(ledger).calls && Answers(ledger, n)
        && calls == [CallFor(ledger, n)] && ledger == Completed(old(ledger), n, calls[0])
    {
      assert LedgerOk(ledger, live);
      ghost var n := live[head].request;
      CompleteSlots(slotBitmap, slots[..], live, head);
      CompleteLedger(ledger, live, head);
      calls := [];
      var i := FindSlotByDescHead(head);
      FoundSlot(slotBitmap, slots[..], live, ledger, head, i);
      if i < MAX_INFLIGHT {
        calls := [Call(slots[i].token, MapBlkStatus(slots[i].status))];
        FreeRequestSlot(i);
      }
      ledger := Completed(ledger, n, CallFor(ledger, n));
      live := live - {head};
    }

    /** Gives the chain of a popped head back. */
    method FreeHead(head: nat)
      requires Apart() && QueueValid() && SlotsValid() && LedgerValid() && KickOk() && Leaving(head, live)
      modifies vq`freeHead, vq`numFree, vq`pool, vq.desc
      ensures Valid()
    {
      QueueFree(head);
    }

    method QueueFree(head: nat)
      requires QueueValid() && Leaving(head, live)
      modifies vq`freeHead, vq`numFree, vq`pool, vq.desc
      ensures QueueValid() && Tied()
    {
      var _ := vq.FreeChain(head);
    }

    method HasUsed() returns (r: bool)
      requires QueueValid()
      ensures r <==> vq.flow.returned != []
    {
      r := vq.HasUsed();
    }

    /** The state after some of the returned heads have been dealt with. */
    ghost predicate Progress(f0: Flow, before: map<nat, Live>, l: Ledger, calls: seq<Call>)
      reads this, vq
    {
      forall c | c == calls :: ProgressOk(f0, before, l, c, vq.flow, live, ledger)
    }

    method Turn(calls: seq<Call>, ghost f0: Flow, ghost before: map<nat, Live>, ghost l: Ledger)
      returns (calls': seq<Call>)
      requires Valid() && vq.flow.returned != [] && Progress(f0, before, l, calls)
      modifies this`slotBitmap, this`live, this`ledger
      modifies vq`lastUsedIdx, vq`flow, vq`freeHead, vq`numFree, vq`pool, vq.desc
      ensures Valid() && Progress(f0, before, l, calls') && |calls'| == |calls| + 1
    {
      ghost var f, v, led := vq.flow, live, ledger;
      var one, n := CompleteOne();
      ProgressStep(f0, before, l, calls, f, v, led, one, n);
      calls' := calls + one;
    }

    /** Every returned head gets its callback, in order, and leaves; nothing else in flight moves. */
    method ProcessCompletions() returns (calls: seq<Call>)
      requires Valid()
      modifies this`slotBitmap, this`live, this`ledger
      modifies vq`lastUsedIdx, vq`flow, vq`freeHead, vq`numFree, vq`pool, vq.desc
      ensures Valid() && vq.flow == PoppedFirst(old(vq.flow), |old(vq.flow).returned|)
      ensures CalledBack(old(vq.flow.returned), old(live), ledger, calls)
      ensures ledger.tokens == old(ledger.tokens) && ledger.said == old(ledger.said)
      ensures live == Others(old(live), old(vq.flow.returned)) && LogExtends(old(ledger), ledger, calls)
    {
      calls := [];
      ghost var f0 := vq.flow;
      ProgressStarts(live, ledger, vq.flow);
      var has := HasUsed();
      while has
        invariant Valid() && Progress(f0, old(live), old(ledger), calls) && has == (vq.flow.returned != [])
        decreases |f0.returned| - |calls|
      {
        calls := Turn(calls, f0, old(live), old(ledger));
        ProgressBound(f0, old(live), old(ledger), calls, vq.flow, live, ledger);
        has := HasUsed();
      }
      ProgressEnds(f0, old(live), old(ledger), calls, vq.flow, live, ledger);
    }

    lemma QueueIndex()
      requires QueueValid()
      ensures vq.availIdx == Index16(vq.flow.submitted)
    {
      assert vq.Valid();
    }

    /**
    Notifies the device when it asked for it. With event indices the windows between kicks tile the
    submissions, and a kick notifies exactly when the last (number mod 65536) of them hold the event:
    below 65536 submissions, when the whole window does.
    */
    method Kick(queueIndex: nat, availEvent: nat) returns (notify: bool)
      requires Valid() && availEvent < 0x1_0000
      modifies this`oldAvailIdx, this`kicked
      ensures Valid()
      ensures queueIndex != 0 ==> !notify && unchanged(this)
      ensures queueIndex == 0 && !eventIdx ==> notify && unchanged(this)
      ensures queueIndex == 0 && eventIdx ==>
        kicked == vq.flow.submitted && AnswersWindow(availEvent, old(kicked), vq.flow.submitted, notify)
    {
      if queueIndex != 0 {
        return false;
      }
      if !eventIdx {
        return true;
      }
      NeedEventAnswers(availEvent, kicked, vq.flow.submitted);
      QueueIndex();
      notify := VringNeedEvent(availEvent, vq.availIdx, oldAvailIdx);
      oldAvailIdx := vq.availIdx;
      kicked := vq.flow.submitted;
    }
  }
}
