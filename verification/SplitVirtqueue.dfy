/**
The driver side of a VIRTIO 1.2 split virtqueue (section 2.7): descriptor allocation, descriptor
chains and the two rings, with a conforming device that returns heads in any order.
*/
module SplitVirtqueues {
  import opened Arith
  import opened Distinctness
  import opened Descriptors
  import opened RingFlow

  datatype Error = NoFreeDescriptors | InvalidDescriptor | NoUsedBuffers | InvalidArgument

  datatype Expected<T> = Ok(value: T) | Err(error: Error)

  /** A size_t cast to uint16_t. */
  function Uint16(n: nat): (r: nat)
    ensures n < 0x1_0000 ==> r == n
  {
    n % 0x1_0000
  }

  /** More buffers than 16 bits can count, of which only the low bits are compared with the free descriptors. */
  predicate SlipsThrough(total: nat, numFree: nat) { total >= 0x1_0000 && Uint16(total) <= numFree }

  /** The guard of SubmitChain tells a shortage of descriptors if and only if the number does not slip through. */
  lemma GuardIsRightIff(total: nat, numFree: nat)
    requires numFree <= 0x8000
    ensures (numFree < Uint16(total) <==> numFree < total) <==> !SlipsThrough(total, numFree)
  {
  }

  /** 65536 buffers pass for none at all, even when no descriptor is free. */
  lemma FullTurnOfBuffers()
    ensures SlipsThrough(0x1_0000, 0) && !(0 < Uint16(0x1_0000)) && 0 < 0x1_0000
  {
  }

  /** Heads in flight are allocated: single descriptors or heads of live chains. */
  ghost predicate FlightOwned(stage: map<nat, Stage>, owner: seq<Owner>) {
    forall h | h in stage :: h < |owner| && (owner[h] == Loose || owner[h] == InChain(h))
  }

  predicate NotInFlight(stage: map<nat, Stage>, nodes: seq<nat>) {
    forall k | 0 <= k < |nodes| :: nodes[k] !in stage
  }

  /** Only descriptors of this list are allocated on their own. */
  ghost predicate LooseOnly(owner: seq<Owner>, nodes: seq<nat>) {
    forall d | 0 <= d < |owner| && owner[d] == Loose :: d in nodes
  }

  lemma LooseMore(owner: seq<Owner>, nodes: seq<nat>, d: nat)
    requires LooseOnly(owner, nodes) && d < |owner|
    ensures LooseOnly(owner[d := Loose], nodes + [d])
  {
    var owner' := owner[d := Loose];
    forall e | 0 <= e < |owner'| && owner'[e] == Loose ensures e in nodes + [d] {
      if e != d { assert e in nodes; }
    }
  }

  lemma LooseLess(owner: seq<Owner>, nodes: seq<nat>, k: nat)
    requires k < |nodes| && nodes[k] < |owner| && LooseOnly(owner, nodes[k..])
    ensures LooseOnly(owner[nodes[k] := Free], nodes[k + 1..])
  {
    var owner' := owner[nodes[k] := Free];
    forall e | 0 <= e < |owner'| && owner'[e] == Loose ensures e in nodes[k + 1..] {
      assert e in nodes[k..];
      assert nodes[k..] == [nodes[k]] + nodes[k + 1..];
    }
  }

  /** The descriptors of the chains of some heads, one chain after the other. */
  ghost function AllNodes(chains: map<nat, Chain>, heads: seq<nat>): seq<nat>
    requires forall i | 0 <= i < |heads| :: heads[i] in chains
  {
    if heads == [] then [] else AllNodes(chains, heads[..|heads| - 1]) + chains[heads[|heads| - 1]].nodes
  }

  lemma {:induction false} NodesAreApart(t: seq<Desc>, p: Pool, heads: seq<nat>)
    requires ChainsOk(t, p) && Distinct(heads) && forall i | 0 <= i < |heads| :: heads[i] in p.chains
    ensures var all := AllNodes(p.chains, heads);
      && Distinct(all)
      && forall i | 0 <= i < |all| :: all[i] < |t| && p.owner[all[i]].InChain? && p.owner[all[i]].head in heads
    decreases |heads|
  {
    if heads != [] {
      var n := |heads| - 1;
      var h := heads[n];
      LastDiffers(heads);
      assert heads == heads[..n] + [h] && ChainOk(t, p.owner, h, p.chains[h]);
      forall i: nat, j: nat | i < j < n ensures Differ(heads[..n], i, j) { assert Differ(heads, i, j); }
      NodesAreApart(t, p, heads[..n]);
      DistinctConcat(AllNodes(p.chains, heads[..n]), p.chains[h].nodes);
    }
  }

  lemma {:induction false} NodesCover(t: seq<Desc>, p: Pool, heads: seq<nat>, k: nat, d: nat)
    requires forall i | 0 <= i < |heads| :: heads[i] in p.chains
    requires k < |heads| && d in p.chains[heads[k]].nodes
    ensures d in AllNodes(p.chains, heads)
    decreases |heads|
  {
    if k < |heads| - 1 {
      NodesCover(t, p, heads[..|heads| - 1], k, d);
    }
  }

  /** No descriptor leaks: those on the free list and those of the live chains together are the whole table. */
  lemma EveryDescriptorCounted(t: seq<Desc>, p: Pool, freeHead: nat, numFree: nat, heads: seq<nat>)
    requires PoolOk(t, p, freeHead, numFree) && LooseOnly(p.owner, [])
    requires Distinct(heads) && forall h :: h in heads <==> h in p.chains
    ensures numFree + |AllNodes(p.chains, heads)| == |t|
  {
    NodesAreApart(t, p, heads);
    var all := AllNodes(p.chains, heads);
    DistinctConcat(all, p.free);
    DistinctFit(all + p.free, |t|);
    forall d | 0 <= d < |t| ensures d in all + p.free {
      if p.owner[d].InChain? {
        var h := p.owner[d].head;
        var k :| 0 <= k < |heads| && heads[k] == h;
        NodesCover(t, p, heads, k, d);
      } else {
        assert p.owner[d] == Free;
      }
    }
    Covers(all + p.free, |t|);
  }

  /** Heads in flight keep their owners while other descriptors change hands. */
  lemma FlightKept(stage: map<nat, Stage>, owner: seq<Owner>, nodes: seq<nat>, from: Owner, to: Owner)
    requires FlightOwned(stage, owner) && NotInFlight(stage, nodes)
    ensures FlightOwned(stage, Relabel(owner, from, nodes, to))
  {
  }

  /** A chain whose head is not in flight has no descriptor in flight. */
  lemma ChainNotInFlight(stage: map<nat, Stage>, t: seq<Desc>, owner: seq<Owner>, h: nat, c: Chain)
    requires FlightOwned(stage, owner) && ChainOk(t, owner, h, c) && h !in stage
    ensures NotInFlight(stage, c.nodes)
  {
  }

  predicate AllFlags(from: nat, to: nat, readable: nat, flags: Flags) {
    forall k | from <= k < to :: ChainFlags(k, readable) == flags
  }

  function Reversed(s: seq<nat>): (r: seq<nat>) { if s == [] then [] else Reversed(s[1..]) + [s[0]] }

  lemma {:induction false} ReversedSnoc(s: seq<nat>, x: nat)
    ensures Reversed(s + [x]) == [x] + Reversed(s)
  {
    if s != [] {
      ReversedSnoc(s[1..], x);
      assert (s + [x])[1..] == s[1..] + [x];
    }
  }

  lemma NothingUnderWay(t: seq<Desc>, owner: seq<Owner>, bufs: seq<IoVec>, readable: nat)
    requires |owner| == |t|
    ensures Building(t, owner, [], bufs, readable)
  {
  }

  lemma ReversedStep(s: seq<nat>, k: nat, rest: seq<nat>)
    requires k < |s|
    ensures [s[k]] + (Reversed(s[..k]) + rest) == Reversed(s[..k + 1]) + rest
  {
    ReversedSnoc(s[..k], s[k]);
    assert s[..k] + [s[k]] == s[..k + 1];
  }

  lemma AppendMoves(nodes: seq<nat>, free: seq<nat>)
    requires free != []
    ensures nodes + [free[0]] + free[1..] == nodes + free
  {
  }

  class SplitVirtqueue {
    const size: nat
    const desc: array<Desc>
    const availRing: array<nat>
    const usedRing: array<UsedElem>
    var freeHead: nat
    var numFree: nat
    var availIdx: nat
    var usedIdx: nat
    var lastUsedIdx: nat
    /** The device's own position in the available ring. */
    var deviceIdx: nat
    ghost var pool: Pool
    ghost var flow: Flow

    ghost predicate Shape()
      reads this
    {
      && SizeOk(size) && desc.Length == size && availRing.Length == size && usedRing.Length == size
      && desc as object != availRing && desc as object != usedRing && availRing as object != usedRing
    }

    ghost predicate DescsOk()
      reads this, desc
    {
      desc.Length == size && PoolOk(desc[..], pool, freeHead, numFree)
    }

    ghost predicate FlowValid()
      reads this, availRing, usedRing
    {
      && FlowOk(flow, size) && RingsOk(size, availRing[..], availIdx, usedRing[..], usedIdx, lastUsedIdx, flow)
      && deviceIdx == Index16(flow.submitted - |flow.queue|)
    }

    ghost predicate Valid()
      reads this, desc, availRing, usedRing
    {
      Shape() && DescsOk() && FlowValid() && FlightOwned(flow.stage, pool.owner)
    }

    /** A zeroed table whose descriptors are all free, in order; size is a power of two. */
    constructor (queueSize: nat)
      requires SizeOk(queueSize)
      ensures Valid() && size == queueSize && fresh(desc) && fresh(availRing) && fresh(usedRing)
      ensures pool == FreshPool(queueSize)
      ensures flow == Flow([], [], map[], 0, 0)
    {
      size := queueSize;
      var d := new Desc[queueSize](i => Desc(0, 0, Flags(false, false), 0));
      desc := d;
      availRing := new nat[queueSize](i => 0);
      usedRing := new UsedElem[queueSize](i => UsedElem(0, 0));
      for i := 0 to queueSize
        invariant forall k | 0 <= k < i :: d[k].next == k + 1
      {
        d[i] := d[i].(next := i + 1);
      }
      d[queueSize - 1] := d[queueSize - 1].(next := SENTINEL);
      freeHead, numFree, availIdx, usedIdx, lastUsedIdx, deviceIdx := 0, queueSize, 0, 0, 0, 0;
      pool := FreshPool(queueSize);
      flow := Flow([], [], map[], 0, 0);
      new;
      FreshTable(desc[..], queueSize);
    }

    method AllocDesc() returns (r: Expected<nat>)
      requires Valid()
      modifies this`freeHead, this`numFree, this`pool
      ensures Valid()
      ensures old(numFree) == 0 ==> r == Err(NoFreeDescriptors) && pool == old(pool)
      ensures old(numFree) > 0 ==>
        && old(pool.free) != [] && r == Ok(old(pool.free[0]))
        && r.value < |old(pool.owner)| && old(pool.owner)[r.value] == Free
        && pool == Pool(old(pool.owner)[r.value := Loose], old(pool.free)[1..], old(pool.chains))
    {
      if numFree == 0 {
        return Err(NoFreeDescriptors);
      }
      AllocStep(desc[..], pool, freeHead, numFree);
      var idx := freeHead;
      pool := Pool(pool.owner[idx := Loose], pool.free[1..], pool.chains);
      freeHead := desc[freeHead].next;
      numFree := numFree - 1;
      return Ok(idx);
    }

    /** The caller gives back a descriptor that it allocated and that the device does not have. */
    method FreeDesc(idx: nat) returns (r: Expected<()>)
      requires Valid()
      requires idx < size ==> pool.owner[idx] == Loose && idx !in flow.stage
      modifies this`freeHead, this`numFree, this`pool, desc
      ensures Valid()
      ensures idx >= size ==> r == Err(InvalidDescriptor) && unchanged(this) && unchanged(desc)
      ensures idx < size ==>
        r == Ok(()) && idx < |old(pool.owner)| && pool == Pool(old(pool.owner)[idx := Free], [idx] + old(pool.free),
                                                               old(pool.chains))
    {
      if idx >= size {
        return Err(InvalidDescriptor);
      }
      FreeStep(desc[..], pool, freeHead, numFree, idx);
      pool := Pool(pool.owner[idx := Free], [idx] + pool.free, pool.chains);
      ghost var t := desc[..];
      desc[idx] := desc[idx].(next := freeHead);
      assert desc[..] == t[idx := t[idx].(next := freeHead)];
      freeHead := idx;
      numFree := numFree + 1;
      return Ok(());
    }

    /** The head joins the end of the device's queue; no unread entry is overwritten. */
    method Submit(head: nat)
      requires Valid() && head < size && head !in flow.stage
      requires pool.owner[head] == Loose || pool.owner[head] == InChain(head)
      modifies this`availIdx, this`flow, availRing
      ensures Valid() && flow == Submitted(old(flow), head)
    {
      SubmitFlow(flow, size, head);
      SubmitRing(size, availRing[..], availIdx, flow.queue, flow.submitted, head);
      var idx := availIdx;
      ghost var a := availRing[..];
      availRing[Place(size, idx)] := head;
      assert availRing[..] == a[Slot(size, idx) := head];
      availIdx := Index16(idx + 1);
      flow := Submitted(flow, head);
    }

    /** Exact across wrap-around. */
    method HasUsed() returns (r: bool)
      requires Valid()
      ensures r <==> flow.returned != []
    {
      HasUsedIsExact(flow, size);
      return lastUsedIdx != usedIdx;
    }

    /** Heads come back in the order in which the device returned them. */
    method PopUsed() returns (r: Expected<UsedElem>)
      requires Valid()
      modifies this`lastUsedIdx, this`flow
      ensures Valid()
      ensures old(flow.returned) == [] ==> r == Err(NoUsedBuffers) && flow == old(flow)
      ensures old(flow.returned) != [] ==>
        r.Ok? && r.value.id == old(flow.returned[0]) && flow == Popped(old(flow)) && r.value.id < size < 0x1_0000
    {
      var has := HasUsed();
      if !has {
        return Err(NoUsedBuffers);
      }
      PopFlow(flow, size);
      PopRing(size, usedRing[..], usedIdx, lastUsedIdx, flow.returned, flow.popped);
      var elem := usedRing[Place(size, lastUsedIdx)];
      lastUsedIdx := Index16(lastUsedIdx + 1);
      flow := Popped(flow);
      return Ok(elem);
    }

    /** Whether the device finds something to read, by its own index. */
    method DeviceHasWork() returns (r: bool)
      requires Valid()
      ensures r <==> flow.queue != []
    {
      DistinctFit(flow.queue, size);
      WrappedDistance(flow.submitted, flow.submitted - |flow.queue|);
      return deviceIdx != availIdx;
    }

    /** The address of the last buffer of a chain, as a device finds it by following the links. */
    method LastBuffer(head: nat) returns (addr: nat)
      requires Valid() && head in pool.chains
      ensures var bufs := pool.chains[head].readable + pool.chains[head].writable;
        bufs != [] && addr == bufs[|bufs| - 1].phys
    {
      assert ChainOk(desc[..], pool.owner, head, pool.chains[head]);
      addr := FollowLinks(head, pool.chains[head]);
    }

    method FollowLinks(head: nat, ghost c: Chain) returns (addr: nat)
      requires ChainOk(desc[..], pool.owner, head, c)
      ensures c.readable + c.writable != [] && addr == (c.readable + c.writable)[|c.readable + c.writable| - 1].phys
    {
      ghost var k := 0;
      var idx := head;
      ChainNode(desc[..], pool.owner, head, c, 0);
      while desc[idx].flags.next
        invariant 0 <= k < |c.nodes| && idx == c.nodes[k] && idx < desc.Length
        invariant desc[idx].flags.next == (k + 1 < |c.nodes|)
        decreases |c.nodes| - k
      {
        ChainNode(desc[..], pool.owner, head, c, k);
        ChainNode(desc[..], pool.owner, head, c, k + 1);
        idx := desc[idx].next;
        k := k + 1;
      }
      ChainNode(desc[..], pool.owner, head, c, k);
      return desc[idx].addr;
    }

    /** The device reads the next head: always the one submitted first. */
    method DeviceTake() returns (head: nat)
      requires Valid() && flow.queue != []
      modifies this`deviceIdx, this`flow
      ensures Valid() && head == old(flow.queue[0]) && flow == Taken(old(flow))
    {
      TakeFlow(flow, size);
      TakeRing(size, availRing[..], availIdx, flow.queue, flow.submitted);
      head := availRing[Place(size, deviceIdx)];
      deviceIdx := Index16(deviceIdx + 1);
      flow := Taken(flow);
    }

    /** The device returns a head it holds; no unpopped entry is overwritten. */
    method DeviceFinish(head: nat, len: nat)
      requires Valid() && head in flow.stage && flow.stage[head] == Held
      modifies this`usedIdx, this`flow, usedRing
      ensures Valid() && flow == Finished(old(flow), head)
    {
      FinishFlow(flow, size, head);
      FinishRing(size, usedRing[..], usedIdx, lastUsedIdx, flow.returned, flow.popped, head, len);
      ghost var u := usedRing[..];
      usedRing[Place(size, usedIdx)] := UsedElem(head, len);
      assert usedRing[..] == u[Slot(size, usedIdx) := UsedElem(head, len)];
      usedIdx := Index16(usedIdx + 1);
      flow := Finished(flow, head);
    }

    method FillDesc(idx: nat, prev: nat, v: IoVec, flags: Flags, ghost nodes: seq<nat>)
      requires idx < desc.Length <= SENTINEL && forall k | 0 <= k < |nodes| :: nodes[k] < desc.Length
      requires prev == if nodes == [] then SENTINEL else nodes[|nodes| - 1]
      modifies desc
      ensures desc[..] == LinkedTo(Filled(old(desc[..]), idx, v, flags), nodes, idx)
    {
      desc[idx] := Desc(v.phys, Len32(v.len), flags, desc[idx].next);
      assert desc[..] == Filled(old(desc[..]), idx, v, flags);
      if prev != SENTINEL {
        desc[prev] := desc[prev].(next := idx);
      }
    }

    /** The body of both loops of SubmitChain: one more descriptor for the chain under construction. */
    method AppendDesc(prev: nat, v: IoVec, flags: Flags, ghost nodes: seq<nat>, ghost bufs: seq<IoVec>,
                      ghost readable: nat)
      returns (idx: nat, ghost nodes': seq<nat>)
      requires Valid() && numFree > 0 && UnderWay(prev, nodes, bufs, readable)
      requires |nodes| < |bufs| && v == bufs[|nodes|] && flags == ChainFlags(|nodes|, readable)
      modifies this`freeHead, this`numFree, this`pool, desc
      ensures Valid() && numFree == old(numFree) - 1 && UnderWay(idx, nodes', bufs, readable)
      ensures idx < |old(pool.owner)| && pool.owner == old(pool.owner)[idx := Loose]
      ensures nodes' == nodes + [idx] && nodes' + pool.free == nodes + old(pool.free) && pool.chains == old(pool.chains)
    {
      BuildStep(desc[..], pool, freeHead, numFree, nodes, bufs, readable, flags);
      AppendMoves(nodes, pool.free);
      idx, nodes' := freeHead, nodes + [freeHead];
      pool := Pool(pool.owner[idx := Loose], pool.free[1..], pool.chains);
      freeHead := desc[freeHead].next;
      numFree := numFree - 1;
      FillDesc(idx, prev, v, flags, nodes);
    }

    /** One chain under construction: its descriptors so far, the last of which is prev. */
    ghost predicate UnderWay(prev: nat, nodes: seq<nat>, bufs: seq<IoVec>, readable: nat)
      reads this, desc
    {
      && Building(desc[..], pool.owner, nodes, bufs, readable) && NotInFlight(flow.stage, nodes)
      && prev == if nodes == [] then SENTINEL else nodes[|nodes| - 1]
    }

    /** One of the two loops of SubmitChain. */
    method AppendAll(prev0: nat, vs: seq<IoVec>, flags: Flags, ghost nodes0: seq<nat>, ghost bufs: seq<IoVec>,
                     ghost readable: nat)
      returns (prev: nat, ghost nodes: seq<nat>)
      requires Valid() && |vs| <= numFree && UnderWay(prev0, nodes0, bufs, readable)
      requires |nodes0| + |vs| <= |bufs| && vs == bufs[|nodes0|..|nodes0| + |vs|]
      requires AllFlags(|nodes0|, |nodes0| + |vs|, readable, flags)
      modifies this`freeHead, this`numFree, this`pool, desc
      ensures Valid() && numFree == old(numFree) - |vs| && UnderWay(prev, nodes, bufs, readable)
      ensures old(LooseOnly(pool.owner, nodes0)) ==> LooseOnly(pool.owner, nodes)
      ensures |nodes| == |nodes0| + |vs| && nodes + pool.free == nodes0 + old(pool.free)
      ensures pool.chains == old(pool.chains)
    {
      prev, nodes := prev0, nodes0;
      for i := 0 to |vs|
        invariant Valid() && numFree == old(numFree) - i && UnderWay(prev, nodes, bufs, readable)
        invariant old(LooseOnly(pool.owner, nodes0)) ==> LooseOnly(pool.owner, nodes)
        invariant |nodes| == |nodes0| + i && nodes + pool.free == nodes0 + old(pool.free)
        invariant pool.chains == old(pool.chains)
      {
        ghost var owner, before := pool.owner, nodes;
        prev, nodes := AppendDesc(prev, vs[i], flags, nodes, bufs, readable);
        if LooseOnly(owner, before) { LooseMore(owner, before, prev); }
      }
    }

    /** Both loops of SubmitChain; returns the last descriptor. */
    method BuildChain(readable: seq<IoVec>, writable: seq<IoVec>) returns (prev: nat, ghost nodes: seq<nat>)
      requires Valid() && 0 < |readable| + |writable| <= numFree
      modifies this`freeHead, this`numFree, this`pool, desc
      ensures Valid() && UnderWay(prev, nodes, readable + writable, |readable|)
      ensures |nodes| == |readable| + |writable| && nodes + pool.free == old(pool.free)
      ensures pool.chains == old(pool.chains)
      ensures old(LooseOnly(pool.owner, [])) ==> LooseOnly(pool.owner, nodes)
    {
      ghost var bufs := readable + writable;
      NothingUnderWay(desc[..], pool.owner, bufs, |readable|);
      prev, nodes := AppendAll(SENTINEL, readable, Flags(true, false), [], bufs, |readable|);
      prev, nodes := AppendAll(prev, writable, Flags(true, true), nodes, bufs, |readable|);
    }

    /** The end of SubmitChain: clears NEXT on the last descriptor and submits the head. */
    method FinishChain(head: nat, last: nat, ghost nodes: seq<nat>, ghost readable: seq<IoVec>,
                       ghost writable: seq<IoVec>)
      requires Valid() && |nodes| > 0 && |nodes| == |readable| + |writable|
      requires Building(desc[..], pool.owner, nodes, readable + writable, |readable|)
      requires head == nodes[0] && last == nodes[|nodes| - 1] && NotInFlight(flow.stage, nodes)
      modifies this`pool, this`availIdx, this`flow, desc, availRing
      ensures Valid() && head !in old(pool.chains) && pool.free == old(pool.free)
      ensures pool.chains == old(pool.chains)[head := Chain(nodes, readable, writable)]
      ensures flow == Submitted(old(flow), head)
      ensures old(LooseOnly(pool.owner, nodes)) ==> LooseOnly(pool.owner, [])
    {
      EndChain(head, last, Chain(nodes, readable, writable));
      Submit(head);
    }

    method EndChain(ghost head: nat, last: nat, ghost c: Chain)
      requires Valid() && |c.nodes| > 0 && |c.nodes| == |c.readable| + |c.writable|
      requires Building(desc[..], pool.owner, c.nodes, c.readable + c.writable, |c.readable|)
      requires head == c.nodes[0] && last == c.nodes[|c.nodes| - 1] && NotInFlight(flow.stage, c.nodes)
      modifies this`pool, desc
      ensures Valid() && head !in old(pool.chains) && pool.free == old(pool.free)
      ensures pool.chains == old(pool.chains)[head := c]
      ensures head < size && pool.owner[head] == InChain(head) && head !in flow.stage
      ensures old(LooseOnly(pool.owner, c.nodes)) ==> LooseOnly(pool.owner, [])
    {
      AssembleStep(desc[..], pool, freeHead, numFree, c);
      FlightKept(flow.stage, pool.owner, c.nodes, Loose, InChain(head));
      ghost var t := desc[..];
      desc[last] := desc[last].(flags := desc[last].flags.(next := false));
      assert desc[..] == t[last := t[last].(flags := t[last].flags.(next := false))];
      pool := Pool(Relabel(pool.owner, Loose, c.nodes, InChain(head)), pool.free, pool.chains[head := c]);
      assert head in c.nodes;
    }

    /**
    Builds the chain of the readable, then the writable buffers from the front of the free list and
    submits it; on failure nothing changes.
    */
    method SubmitChain(readable: seq<IoVec>, writable: seq<IoVec>) returns (r: Expected<nat>)
      requires Valid() && !SlipsThrough(|readable| + |writable|, numFree)
      modifies this`freeHead, this`numFree, this`pool, this`availIdx, this`flow, desc, availRing
      ensures Valid()
      ensures |readable| + |writable| == 0 ==> r == Err(InvalidArgument)
      ensures |readable| + |writable| > 0 ==> (r == Err(NoFreeDescriptors) <==> old(numFree) < |readable| + |writable|)
      ensures |readable| + |writable| > 0 && r.Err? ==> r == Err(NoFreeDescriptors)
      ensures r.Err? ==> unchanged(this) && unchanged(desc) && unchanged(availRing)
      ensures r.Ok? ==>
        var n := |readable| + |writable|;
        && n <= |old(pool.free)| && r.value == old(pool.free)[0] && r.value !in old(pool.chains)
        && pool.free == old(pool.free)[n..]
        && pool.chains == old(pool.chains)[r.value := Chain(old(pool.free)[..n], readable, writable)]
        && r.value !in old(flow.stage) && flow == Submitted(old(flow), r.value)
      ensures old(LooseOnly(pool.owner, [])) ==> LooseOnly(pool.owner, [])
    {
      var total := |readable| + |writable|;
      if total == 0 {
        return Err(InvalidArgument);
      }
      if numFree < Uint16(total) {
        return Err(NoFreeDescriptors);
      }
      var head := freeHead;
      ghost var nodes;
      var last;
      last, nodes := BuildChain(readable, writable);
      FinishChain(head, last, nodes, readable, writable);
      return Ok(head);
    }

    ghost method TakeApart(head: nat)
      requires Valid() && head in pool.chains && head !in flow.stage
      modifies this`pool
      ensures Valid() && pool.free == old(pool.free) && pool.chains == old(pool.chains) - {head}
      ensures |old(pool.chains)[head].nodes| > 0 && old(pool.chains)[head].nodes[0] == head < size
      ensures Rest(desc[..], pool.owner, old(pool.chains)[head].nodes, 0)
      ensures NotInFlight(flow.stage, old(pool.chains)[head].nodes)
      ensures old(LooseOnly(pool.owner, [])) ==> LooseOnly(pool.owner, old(pool.chains)[head].nodes)
    {
      var c := pool.chains[head];
      DissolveStep(desc[..], pool, freeHead, numFree, head);
      assert ChainOk(desc[..], pool.owner, head, c);
      ChainNotInFlight(flow.stage, desc[..], pool.owner, head, c);
      FlightKept(flow.stage, pool.owner, c.nodes, InChain(head), Loose);
      DissolvedRest(desc[..], pool.owner, Relabel(pool.owner, InChain(head), c.nodes, Loose), head, c);
      pool := Pool(Relabel(pool.owner, InChain(head), c.nodes, Loose), pool.free, pool.chains - {head});
    }

    /** One turn of the walk. */
    method FreeNode(idx: nat, ghost nodes: seq<nat>, ghost k: nat) returns (hasNext: bool, next: nat)
      requires Valid() && k < |nodes| && idx == nodes[k] && Rest(desc[..], pool.owner, nodes, k) && idx !in flow.stage
      modifies this`freeHead, this`numFree, this`pool, desc
      ensures Valid() && Rest(desc[..], pool.owner, nodes, k + 1)
      ensures hasNext == (k + 1 < |nodes|) && (hasNext ==> next == nodes[k + 1] < size)
      ensures pool.free == [idx] + old(pool.free) && pool.chains == old(pool.chains) && numFree == old(numFree) + 1
      ensures idx < |old(pool.owner)| && pool.owner == old(pool.owner)[idx := Free]
    {
      next := desc[idx].next;
      hasNext := desc[idx].flags.next;
      RestStep(desc[..], pool.owner, nodes, k, idx, freeHead);
      FreeStep(desc[..], pool, freeHead, numFree, idx);
      pool := Pool(pool.owner[idx := Free], [idx] + pool.free, pool.chains);
      ghost var t := desc[..];
      desc[idx] := desc[idx].(next := freeHead);
      assert desc[..] == t[idx := t[idx].(next := freeHead)];
      freeHead := idx;
      numFree := numFree + 1;
    }

    /** Gives back exactly the descriptors of the chain; the walk along the links ends with it. */
    method FreeChain(head: nat) returns (r: Expected<()>)
      requires Valid()
      requires head < size ==> head in pool.chains && head !in flow.stage
      modifies this`freeHead, this`numFree, this`pool, desc
      ensures Valid()
      ensures head >= size ==> r == Err(InvalidDescriptor) && unchanged(this) && unchanged(desc)
      ensures head < size ==>
        && r == Ok(()) && head in old(pool.chains) && pool.chains == old(pool.chains) - {head}
        && pool.free == Reversed(old(pool.chains)[head].nodes) + old(pool.free)
        && numFree == old(numFree) + |old(pool.chains)[head].nodes|
      ensures old(LooseOnly(pool.owner, [])) ==> LooseOnly(pool.owner, [])
    {
      if head >= size {
        return Err(InvalidDescriptor);
      }
      ghost var nodes := pool.chains[head].nodes;
      TakeApart(head);
      r := FreeWalk(head, nodes);
    }

    /** The loop of FreeChain; the bounds check inside it never fires. */
    method FreeWalk(head: nat, ghost nodes: seq<nat>) returns (r: Expected<()>)
      requires Valid() && |nodes| > 0 && head == nodes[0] && Rest(desc[..], pool.owner, nodes, 0)
      requires NotInFlight(flow.stage, nodes)
      modifies this`freeHead, this`numFree, this`pool, desc
      ensures Valid() && r == Ok(())
      ensures pool.free == Reversed(nodes) + old(pool.free) && pool.chains == old(pool.chains)
      ensures numFree == old(numFree) + |nodes|
      ensures old(LooseOnly(pool.owner, nodes)) ==> LooseOnly(pool.owner, [])
    {
      assert nodes[0..] == nodes;
      ghost var k := 0;
      var idx := head;
      while true
        invariant Valid() && 0 <= k < |nodes| && idx == nodes[k] && Rest(desc[..], pool.owner, nodes, k)
        invariant pool.free == Reversed(nodes[..k]) + old(pool.free) && pool.chains == old(pool.chains)
        invariant numFree == old(numFree) + k
        invariant old(LooseOnly(pool.owner, nodes)) ==> LooseOnly(pool.owner, nodes[k..])
        decreases |nodes| - k
      {
        if idx >= size {
          return Err(InvalidDescriptor);
        }
        ReversedStep(nodes, k, old(pool.free));
        ghost var owner := pool.owner;
        var hasNext, next := FreeNode(idx, nodes, k);
        if LooseOnly(owner, nodes[k..]) { LooseLess(owner, nodes, k); }
        if !hasNext {
          break;
        }
        idx := next;
        k := k + 1;
      }
      assert nodes[..k + 1] == nodes;
      return Ok(());
    }
  }

  /** All descriptors free, in order. */
  function FreshPool(size: nat): Pool { Pool(seq(size, i => Free), seq(size, i => i), map[]) }

  lemma FreshTable(t: seq<Desc>, size: nat)
    requires |t| == size > 0 && forall k | 0 <= k < size - 1 :: t[k].next == k + 1
    ensures PoolOk(t, FreshPool(size), 0, size)
  {
    var p := FreshPool(size);
    forall d | 0 <= d < size ensures d in p.free {
      assert p.free[d] == d;
    }
    assert FreeListOk(t, p, 0, size);
  }
}
