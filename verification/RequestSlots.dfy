/**
The request slots of the block driver and the ledger of its requests, as values: which slot and
which request belong to a head in flight, which requests have been answered and how.
*/
module RequestSlots {
  import opened Descriptors
  import opened Distinctness

  const MAX_INFLIGHT: nat := 64
  /** sizeof(RequestSlot), sizeof(BlkReqHeader) and the offset of the status byte. */
  const SLOT_BYTES: nat := 48
  const HEADER_BYTES: nat := 16
  const STATUS_OFFSET: nat := 16

  datatype ReqType = In | Out

  datatype ErrorCode = Success | IoError | NotSupported | DeviceError

  /** Section 5.2.6 of VIRTIO 1.2: VIRTIO_BLK_S_OK, _IOERR and _UNSUPP. */
  function MapBlkStatus(status: nat): ErrorCode {
    match status
    case 0 => Success
    case 1 => IoError
    case 2 => NotSupported
    case _ => DeviceError
  }

  type Token = nat

  datatype RequestSlot = RequestSlot(reqType: ReqType, sector: nat, status: nat, token: Token, descHead: nat)

  function HeaderVec(base: nat, i: nat): IoVec { IoVec(base + i * SLOT_BYTES, HEADER_BYTES) }

  function StatusVec(base: nat, i: nat): IoVec { IoVec(base + i * SLOT_BYTES + STATUS_OFFSET, 1) }

  /** What the caller asked for. */
  datatype Job = Job(reqType: ReqType, sector: nat, buffers: seq<IoVec>)
  {
    /** Header and status come on top of the data. */
    function Size(): nat { |buffers| + 2 }
  }

  /** A request in flight: its slot, its number in the order of enqueueing and what it is about. */
  datatype Live = Live(slot: nat, request: nat, job: Job)

  /** A call of the completion callback. */
  datatype Call = Call(token: Token, code: ErrorCode)

  /** Occupied slots and heads in flight correspond one to one. */
  ghost predicate SlotsOk(bitmap: seq<bool>, slots: seq<RequestSlot>, live: map<nat, Live>) {
    && |bitmap| == |slots| == MAX_INFLIGHT
    && (forall h | h in live ::
        live[h].slot < MAX_INFLIGHT && bitmap[live[h].slot] && slots[live[h].slot].descHead == h)
    && (forall i | 0 <= i < MAX_INFLIGHT && bitmap[i] :: slots[i].descHead in live && live[slots[i].descHead].slot == i)
  }

  /**
  The chain of a request starts with its slot's header and ends with its slot's status byte; between them
  the device may write the buffers of a disk read and only read those of a disk write.
  */
  ghost predicate ChainFits(base: nat, slot: nat, job: Job, c: Chain) {
    && |c.readable| > 0 && c.readable[0] == HeaderVec(base, slot)
    && |c.writable| > 0 && c.writable[|c.writable| - 1] == StatusVec(base, slot)
    && c.readable[1..] == (if job.reqType == Out then job.buffers else [])
    && c.writable[..|c.writable| - 1] == (if job.reqType == In then job.buffers else [])
  }

  /** Bound, so that only proofs that name ChainFits look inside. */
  ghost predicate RequestChain(base: nat, slot: nat, job: Job, c: Chain) {
    forall x | x == c :: ChainFits(base, slot, job, x)
  }

  /**
  Descriptors as a device reads them: the header, each buffer in order and the status byte, with who may
  write what.
  */
  ghost predicate Carries(ds: seq<Desc>, base: nat, slot: nat, job: Job) {
    var n := |job.buffers|;
    && |ds| == n + 2 && Shows(ds[0], HeaderVec(base, slot), false) && Shows(ds[n + 1], StatusVec(base, slot), true)
    && forall k | 0 <= k < n :: Shows(ds[k + 1], job.buffers[k], job.reqType == In)
  }

  lemma ChainCarries(ds: seq<Desc>, base: nat, slot: nat, job: Job, c: Chain)
    requires ReadsAs(ds, c.readable, c.writable) && RequestChain(base, slot, job, c)
    ensures Carries(ds, base, slot, job)
  {
    assert ChainFits(base, slot, job, c);
    forall k | 0 <= k < |job.buffers| ensures Shows(ds[k + 1], job.buffers[k], job.reqType == In) {
      if job.reqType == Out {
        assert c.readable[1..][k] == c.readable[k + 1];
      } else {
        assert |c.readable[1..]| == 0 && c.writable[..|c.writable| - 1][k] == c.writable[k];
        assert Shows(ds[|c.readable| + k], c.writable[k], true);
      }
    }
    assert Shows(ds[|c.readable| + (|c.writable| - 1)], c.writable[|c.writable| - 1], true);
  }

  ghost predicate ChainsMatch(base: nat, live: map<nat, Live>, chains: map<nat, Chain>) {
    chains.Keys == live.Keys && forall h | h in live :: RequestChain(base, live[h].slot, live[h].job, chains[h])
  }

  /**
  tokens: what was enqueued, by request number; open: the head of each request without a callback;
  calls: the callback of each answered request; said: the status the device gave a request; log: the
  answered requests in the order of their callbacks.
  */
  datatype Ledger = Ledger(tokens: seq<Token>, open: map<nat, nat>, calls: map<nat, Call>, said: map<nat, nat>,
                           log: seq<nat>)

  const NoRequests: Ledger := Ledger([], map[], map[], map[], [])

  /** Every request ever enqueued is either open, with its own head in flight, or answered. */
  ghost predicate LedgerOk(l: Ledger, live: map<nat, Live>) {
    match l case Ledger(tokens, open, calls, said, log) =>
      && (forall n: nat :: n < |tokens| <==> n in open || n in calls)
      && (forall n | n in open :: n !in calls && open[n] in live && live[open[n]].request == n)
      && (forall h | h in live :: live[h].request in open && open[live[h].request] == h)
      && (forall n | n in calls :: CallOk(l, n))
      && (forall n | n in said :: n < |tokens|)
      && Distinct(log) && (forall n: nat :: n in calls <==> n in log)
  }

  /** The callback got the request's own token and the status the device gave that request. */
  ghost predicate CallOk(l: Ledger, n: nat) {
    && n in l.calls && n < |l.tokens| && n in l.said
    && l.calls[n] == Call(l.tokens[n], MapBlkStatus(l.said[n]))
  }

  /** What the slots hold of the requests in flight: header, token, and the status once given. */
  ghost predicate SlotsTell(slots: seq<RequestSlot>, live: map<nat, Live>, l: Ledger) {
    forall h | h in live ::
      && live[h].slot < |slots| && live[h].request < |l.tokens|
      && slots[live[h].slot].reqType == live[h].job.reqType && slots[live[h].slot].sector == live[h].job.sector
      && slots[live[h].slot].token == l.tokens[live[h].request]
      && (live[h].request in l.said ==> slots[live[h].slot].status == l.said[live[h].request])
  }

  // ---------------------------------------------------------------------------------------------
  // Enqueue
  // ---------------------------------------------------------------------------------------------

  function Enqueued(l: Ledger, token: Token, head: nat): Ledger {
    l.(tokens := l.tokens + [token], open := l.open[|l.tokens| := head])
  }

  lemma EnqueueSlots(bitmap: seq<bool>, slots: seq<RequestSlot>, live: map<nat, Live>, i: nat, v: RequestSlot,
                     n: nat, job: Job)
    requires SlotsOk(bitmap, slots, live) && i < MAX_INFLIGHT && !bitmap[i] && v.descHead !in live
    ensures SlotsOk(bitmap[i := true], slots[i := v], live[v.descHead := Live(i, n, job)])
  {
  }

  lemma EnqueueLedger(l: Ledger, live: map<nat, Live>, h: nat, i: nat, job: Job, token: Token)
    requires LedgerOk(l, live) && h !in live
    ensures LedgerOk(Enqueued(l, token, h), live[h := Live(i, |l.tokens|, job)])
  {
    var l' := Enqueued(l, token, h);
    forall n | n in l'.calls ensures CallOk(l', n) {
      assert CallOk(l, n);
    }
    assert |l.tokens| !in l.open && |l.tokens| !in l.calls;
  }

  /** What the slots tell survives writing a free slot and giving it to a new request. */
  lemma EnqueueTells(bits: seq<bool>, slots: seq<RequestSlot>, live: map<nat, Live>, l: Ledger, i: nat, v: RequestSlot,
                     job: Job)
    requires v.reqType == job.reqType && v.sector == job.sector
    requires SlotsOk(bits, slots, live) && SlotsTell(slots, live, l) && LedgerOk(l, live)
    requires i < MAX_INFLIGHT && !bits[i] && v.descHead !in live
    ensures SlotsTell(slots[i := v], live[v.descHead := Live(i, |l.tokens|, job)], Enqueued(l, v.token, v.descHead))
  {
  }

  // ---------------------------------------------------------------------------------------------
  // The device's verdict and the callback
  // ---------------------------------------------------------------------------------------------

  function Said(l: Ledger, n: nat, status: nat): Ledger { l.(said := l.said[n := status]) }

  lemma SayLedger(l: Ledger, live: map<nat, Live>, h: nat, status: nat)
    requires LedgerOk(l, live) && h in live
    ensures LedgerOk(Said(l, live[h].request, status), live)
  {
    var n := live[h].request;
    var l' := Said(l, n, status);
    assert n in l.open;
    forall m | m in l'.calls ensures CallOk(l', m) {
      assert CallOk(l, m);
    }
  }

  /** The device wrote its status into the slot of the head. */
  lemma SayTells(bits: seq<bool>, slots: seq<RequestSlot>, live: map<nat, Live>, l: Ledger, h: nat, status: nat)
    requires SlotsOk(bits, slots, live) && SlotsTell(slots, live, l) && LedgerOk(l, live) && h in live
    ensures var i := live[h].slot;
      && SlotsOk(bits, slots[i := slots[i].(status := status)], live)
      && SlotsTell(slots[i := slots[i].(status := status)], live, Said(l, live[h].request, status))
  {
  }

  function Completed(l: Ledger, n: nat, c: Call): Ledger {
    l.(open := l.open - {n}, calls := l.calls[n := c], log := l.log + [n])
  }

  lemma CompleteSlots(bitmap: seq<bool>, slots: seq<RequestSlot>, live: map<nat, Live>, h: nat)
    requires SlotsOk(bitmap, slots, live) && h in live
    ensures SlotsOk(bitmap[live[h].slot := false], slots, live - {h})
  {
  }

  /** The occupied slot with this head is the request's own, with its token and its status. */
  lemma FoundSlot(bitmap: seq<bool>, slots: seq<RequestSlot>, live: map<nat, Live>, l: Ledger, h: nat, i: nat)
    requires SlotsOk(bitmap, slots, live) && SlotsTell(slots, live, l) && h in live && live[h].request in l.said
    requires i < MAX_INFLIGHT ==> bitmap[i] && slots[i].descHead == h
    requires i >= MAX_INFLIGHT ==> forall j | 0 <= j < MAX_INFLIGHT && bitmap[j] :: slots[j].descHead != h
    ensures i == live[h].slot < MAX_INFLIGHT && live[h].request < |l.tokens|
    ensures slots[i].token == l.tokens[live[h].request] && slots[i].status == l.said[live[h].request]
  {
  }

  lemma CompleteLedger(l: Ledger, live: map<nat, Live>, h: nat)
    requires LedgerOk(l, live) && h in live && live[h].request < |l.tokens| && live[h].request in l.said
    ensures var n := live[h].request;
      && n in l.open && n !in l.calls
      && LedgerOk(Completed(l, n, Call(l.tokens[n], MapBlkStatus(l.said[n]))), live - {h})
  {
    var n := live[h].request;
    var l' := Completed(l, n, Call(l.tokens[n], MapBlkStatus(l.said[n])));
    forall m | m in l'.calls ensures CallOk(l', m) {
      if m != n { assert CallOk(l, m); }
    }
    assert n in l.open && n !in l.calls && n !in l.log;
    DistinctSnoc(l.log, n);
    assert forall m: nat :: m in l'.log <==> m in l.log || m == n;
  }

  /** These callbacks are the ones of the ledger, in order. */
  ghost predicate LogShows(calls: seq<Call>, l: Ledger) {
    |calls| == |l.log| && forall k | 0 <= k < |calls| :: l.log[k] in l.calls && calls[k] == l.calls[l.log[k]]
  }

  lemma LogGrows(calls: seq<Call>, l: Ledger, n: nat, c: Call)
    requires LogShows(calls, l) && n !in l.calls
    ensures LogShows(calls + [c], Completed(l, n, c))
  {
  }
}
