/**
The descriptor table of a split virtqueue as a value: which descriptor belongs to the free list, to
a live chain or to a caller that allocated it on its own, and what the links between them say.
*/
module Descriptors {
  import opened Distinctness

  /** The descriptor flag bits in use, section 2.7.5 of VIRTIO 1.2: kDescFNext and kDescFWrite. */
  datatype Flags = Flags(next: bool, write: bool)

  const SENTINEL: nat := 0xFFFF

  datatype IoVec = IoVec(phys: nat, len: nat)

  datatype Desc = Desc(addr: nat, len: nat, flags: Flags, next: nat)

  /** The cast of a buffer length to 32 bits. */
  function Len32(n: nat): nat { n % 0x1_0000_0000 }

  datatype Owner = Free | Loose | InChain(head: nat)

  /** A live chain: its descriptors in order and the buffers it was built from. */
  datatype Chain = Chain(nodes: seq<nat>, readable: seq<IoVec>, writable: seq<IoVec>)

  datatype Pool = Pool(owner: seq<Owner>, free: seq<nat>, chains: map<nat, Chain>)

  predicate LinkAt(t: seq<Desc>, s: seq<nat>, i: nat)
    requires i + 1 < |s| && s[i] < |t|
  {
    t[s[i]].next == s[i + 1]
  }

  ghost predicate Linked(t: seq<Desc>, s: seq<nat>) {
    && (forall i | 0 <= i < |s| :: s[i] < |t|)
    && (forall i: nat | i + 1 < |s| :: LinkAt(t, s, i))
  }

  /** The free descriptors are exactly those of the list that starts at freeHead. */
  ghost predicate FreeListOk(t: seq<Desc>, p: Pool, freeHead: nat, numFree: nat) {
    && |p.owner| == |t| && numFree == |p.free|
    && Linked(t, p.free) && Distinct(p.free)
    && (p.free != [] ==> p.free[0] == freeHead)
    && (forall i | 0 <= i < |p.free| :: p.free[i] < |t| && p.owner[p.free[i]] == Free)
    && (forall d | 0 <= d < |t| && p.owner[d] == Free :: d in p.free)
  }

  /** Reading the chain back gives the readable, then the writable buffers. */
  ghost predicate ChainOk(t: seq<Desc>, owner: seq<Owner>, h: nat, c: Chain) {
    var n := |c.nodes|;
    var bufs := c.readable + c.writable;
    && |owner| == |t| && n > 0 && n == |bufs| && c.nodes[0] == h
    && Linked(t, c.nodes) && Distinct(c.nodes)
    && (forall k | 0 <= k < n :: c.nodes[k] < |t| && owner[c.nodes[k]] == InChain(h))
    && (forall k | 0 <= k < n :: t[c.nodes[k]].addr == bufs[k].phys && t[c.nodes[k]].len == Len32(bufs[k].len))
    && (forall k | 0 <= k < n :: t[c.nodes[k]].flags == Flags(k + 1 < n, k >= |c.readable|))
  }

  ghost predicate ChainsOk(t: seq<Desc>, p: Pool) {
    && |p.owner| == |t|
    && (forall h | h in p.chains :: ChainOk(t, p.owner, h, p.chains[h]))
    && (forall d | 0 <= d < |t| && p.owner[d].InChain? ::
          p.owner[d].head in p.chains && d in p.chains[p.owner[d].head].nodes)
  }

  /** Every descriptor has one owner, so the three kinds partition the table. */
  ghost predicate PoolOk(t: seq<Desc>, p: Pool, freeHead: nat, numFree: nat) {
    FreeListOk(t, p, freeHead, numFree) && ChainsOk(t, p)
  }

  // ---------------------------------------------------------------------------------------------
  // Lists of descriptors
  // ---------------------------------------------------------------------------------------------

  lemma LinkedKept(t: seq<Desc>, t': seq<Desc>, s: seq<nat>)
    requires Linked(t, s) && |t'| == |t| && forall i | 0 <= i < |s| :: t'[s[i]].next == t[s[i]].next
    ensures Linked(t', s)
  {
    forall i: nat | i + 1 < |s| ensures LinkAt(t', s, i) {
      assert LinkAt(t, s, i);
    }
  }

  lemma LinkedTail(t: seq<Desc>, s: seq<nat>)
    requires Linked(t, s) && Distinct(s) && s != []
    ensures Linked(t, s[1..]) && Distinct(s[1..])
    ensures |s| > 1 ==> t[s[0]].next == s[1]
    ensures forall i | 0 < i < |s| :: s[i] != s[0]
  {
    forall i: nat | i + 1 < |s[1..]| ensures LinkAt(t, s[1..], i) {
      assert LinkAt(t, s, i + 1);
    }
    DistinctTail(s);
    assert |s| > 1 ==> LinkAt(t, s, 0);
  }

  lemma LinkedCons(t: seq<Desc>, d: nat, s: seq<nat>)
    requires Linked(t, s) && Distinct(s) && d < |t| && (s != [] ==> t[d].next == s[0])
    requires forall i | 0 <= i < |s| :: s[i] != d
    ensures Linked(t, [d] + s) && Distinct([d] + s)
  {
    var r := [d] + s;
    forall i: nat | i + 1 < |r| ensures LinkAt(t, r, i) {
      if i > 0 { assert LinkAt(t, s, i - 1); }
    }
    DistinctCons(d, s);
  }

  // ---------------------------------------------------------------------------------------------
  // Chains stay as they are while other descriptors are written
  // ---------------------------------------------------------------------------------------------

  lemma ChainKept(t: seq<Desc>, t': seq<Desc>, owner: seq<Owner>, owner': seq<Owner>, h: nat, c: Chain)
    requires ChainOk(t, owner, h, c) && |t'| == |t| == |owner'|
    requires forall d | 0 <= d < |t| && owner[d] == InChain(h) :: t'[d] == t[d] && owner'[d] == InChain(h)
    ensures ChainOk(t', owner', h, c)
  {
    LinkedKept(t, t', c.nodes);
  }

  /** Changing only descriptors outside all chains keeps the chains. */
  lemma ChainsKept(t: seq<Desc>, t': seq<Desc>, p: Pool, owner': seq<Owner>, free': seq<nat>)
    requires ChainsOk(t, p) && |t'| == |t| == |owner'|
    requires forall d | 0 <= d < |t| && p.owner[d].InChain? :: t'[d] == t[d] && owner'[d] == p.owner[d]
    requires forall d | 0 <= d < |t| && owner'[d].InChain? :: owner'[d] == p.owner[d]
    ensures ChainsOk(t', Pool(owner', free', p.chains))
  {
    forall h | h in p.chains ensures ChainOk(t', owner', h, p.chains[h]) {
      ChainKept(t, t', p.owner, owner', h, p.chains[h]);
    }
  }

  // ---------------------------------------------------------------------------------------------
  // AllocDesc and FreeDesc
  // ---------------------------------------------------------------------------------------------

  lemma AllocStep(t: seq<Desc>, p: Pool, freeHead: nat, numFree: nat)
    requires PoolOk(t, p, freeHead, numFree) && numFree > 0
    ensures freeHead < |t| && p.owner[freeHead] == Free && p.free[0] == freeHead
    ensures PoolOk(t, Pool(p.owner[freeHead := Loose], p.free[1..], p.chains), t[freeHead].next, numFree - 1)
  {
    var owner' := p.owner[freeHead := Loose];
    var f := p.free[1..];
    ChainsKept(t, t, p, owner', f);
    LinkedTail(t, p.free);
    assert forall i | 0 <= i < |f| :: f[i] == p.free[i + 1];
    forall d | 0 <= d < |t| && owner'[d] == Free ensures d in f {
      var i :| 0 <= i < |p.free| && p.free[i] == d;
      assert f[i - 1] == d;
    }
  }

  lemma FreeStep(t: seq<Desc>, p: Pool, freeHead: nat, numFree: nat, d: nat)
    requires PoolOk(t, p, freeHead, numFree) && d < |t| && p.owner[d] == Loose
    ensures PoolOk(t[d := t[d].(next := freeHead)], Pool(p.owner[d := Free], [d] + p.free, p.chains), d, numFree + 1)
  {
    FreeListPush(t, p, freeHead, numFree, d);
    ChainsKept(t, t[d := t[d].(next := freeHead)], p, p.owner[d := Free], [d] + p.free);
  }

  lemma FreeListPush(t: seq<Desc>, p: Pool, freeHead: nat, numFree: nat, d: nat)
    requires FreeListOk(t, p, freeHead, numFree) && d < |t| && p.owner[d] != Free
    ensures FreeListOk(t[d := t[d].(next := freeHead)], Pool(p.owner[d := Free], [d] + p.free, p.chains), d,
                       numFree + 1)
  {
    var f := [d] + p.free;
    var t' := t[d := t[d].(next := freeHead)];
    assert forall i | 0 <= i < |p.free| :: p.free[i] != d;
    LinkedKept(t, t', p.free);
    LinkedCons(t', d, p.free);
    assert forall i | 0 < i < |f| :: f[i] == p.free[i - 1];
    forall e | 0 <= e < |t| && p.owner[d := Free][e] == Free ensures e in f {
      if e != d { assert e in p.free; }
    }
  }

  /** The free list stays as it is while other descriptors are written. */
  lemma FreeListKept(t: seq<Desc>, t': seq<Desc>, p: Pool, p': Pool, freeHead: nat, numFree: nat)
    requires FreeListOk(t, p, freeHead, numFree) && |t'| == |t| == |p'.owner| && p'.free == p.free
    requires forall d | 0 <= d < |t| :: p'.owner[d] == Free <==> p.owner[d] == Free
    requires forall d | 0 <= d < |t| && p.owner[d] == Free :: t'[d] == t[d]
    ensures FreeListOk(t', p', freeHead, numFree)
  {
    LinkedKept(t, t', p.free);
  }

  /** A descriptor in the hands of a caller may be written freely. */
  lemma LooseWrite(t: seq<Desc>, p: Pool, freeHead: nat, numFree: nat, d: nat, v: Desc)
    requires PoolOk(t, p, freeHead, numFree) && d < |t| && p.owner[d] == Loose
    ensures PoolOk(t[d := v], p, freeHead, numFree)
  {
    ChainsKept(t, t[d := v], p, p.owner, p.free);
    FreeListKept(t, t[d := v], p, p, freeHead, numFree);
  }

  // ---------------------------------------------------------------------------------------------
  // SubmitChain and FreeChain
  // ---------------------------------------------------------------------------------------------

  /** The flags of descriptor k while more descriptors may follow. */
  function ChainFlags(k: nat, readable: nat): Flags { Flags(true, k >= readable) }

  /** The first k descriptors of a chain under construction: all still say NEXT. */
  ghost predicate Building(t: seq<Desc>, owner: seq<Owner>, nodes: seq<nat>, bufs: seq<IoVec>, readable: nat) {
    && |owner| == |t| && |nodes| <= |bufs| && Linked(t, nodes) && Distinct(nodes)
    && (forall k | 0 <= k < |nodes| :: nodes[k] < |t| && owner[nodes[k]] == Loose)
    && (forall k | 0 <= k < |nodes| :: t[nodes[k]].addr == bufs[k].phys && t[nodes[k]].len == Len32(bufs[k].len))
    && (forall k | 0 <= k < |nodes| :: t[nodes[k]].flags == ChainFlags(k, readable))
  }

  function Filled(t: seq<Desc>, d: nat, v: IoVec, flags: Flags): (r: seq<Desc>)
    requires d < |t|
    ensures |r| == |t|
  {
    t[d := Desc(v.phys, Len32(v.len), flags, t[d].next)]
  }

  /** Appends descriptor d to the descriptor before it, if there is one. */
  function LinkedTo(t: seq<Desc>, nodes: seq<nat>, d: nat): (r: seq<Desc>)
    requires forall k | 0 <= k < |nodes| :: nodes[k] < |t|
    ensures |r| == |t|
  {
    if nodes == [] then t else var last := nodes[|nodes| - 1]; t[last := t[last].(next := d)]
  }

  /** A descriptor taken off the free list is filled and linked behind the ones before it. */
  lemma BuildStep(t: seq<Desc>, p: Pool, freeHead: nat, numFree: nat, nodes: seq<nat>, bufs: seq<IoVec>, readable: nat,
                  flags: Flags)
    requires PoolOk(t, p, freeHead, numFree) && numFree > 0
    requires Building(t, p.owner, nodes, bufs, readable) && |nodes| < |bufs|
    requires flags == ChainFlags(|nodes|, readable)
    ensures freeHead < |t| && p.owner[freeHead] == Free && p.free[0] == freeHead
    ensures var p' := Pool(p.owner[freeHead := Loose], p.free[1..], p.chains);
            var t' := LinkedTo(Filled(t, freeHead, bufs[|nodes|], flags), nodes, freeHead);
            PoolOk(t', p', t[freeHead].next, numFree - 1) && Building(t', p'.owner, nodes + [freeHead], bufs, readable)
  {
    AllocStep(t, p, freeHead, numFree);
    var p' := Pool(p.owner[freeHead := Loose], p.free[1..], p.chains);
    var t1 := Filled(t, freeHead, bufs[|nodes|], flags);
    LooseWrite(t, p', t[freeHead].next, numFree - 1, freeHead, t1[freeHead]);
    if nodes != [] {
      var last := nodes[|nodes| - 1];
      LooseWrite(t1, p', t[freeHead].next, numFree - 1, last, t1[last].(next := freeHead));
    }
    BuildingGrows(t, p.owner, freeHead, nodes, bufs, readable, flags);
  }

  lemma BuildingGrows(t: seq<Desc>, owner: seq<Owner>, d: nat, nodes: seq<nat>, bufs: seq<IoVec>, readable: nat,
                      flags: Flags)
    requires Building(t, owner, nodes, bufs, readable) && |nodes| < |bufs| && d < |t| && owner[d] == Free
    requires flags == ChainFlags(|nodes|, readable)
    ensures Building(LinkedTo(Filled(t, d, bufs[|nodes|], flags), nodes, d), owner[d := Loose], nodes + [d], bufs,
                     readable)
  {
    LinkedGrows(t, d, nodes, bufs[|nodes|], flags);
    if nodes != [] { LastDiffers(nodes); }
  }

  lemma LinkedGrows(t: seq<Desc>, d: nat, nodes: seq<nat>, v: IoVec, flags: Flags)
    requires Linked(t, nodes) && Distinct(nodes) && d < |t| && forall k | 0 <= k < |nodes| :: nodes[k] != d
    ensures Linked(LinkedTo(Filled(t, d, v, flags), nodes, d), nodes + [d]) && Distinct(nodes + [d])
  {
    var r, t' := nodes + [d], LinkedTo(Filled(t, d, v, flags), nodes, d);
    if nodes != [] { LastDiffers(nodes); }
    forall i: nat | i + 1 < |r| ensures LinkAt(t', r, i) {
      if i + 1 < |nodes| { assert LinkAt(t, nodes, i); }
    }
    DistinctSnoc(nodes, d);
  }

  function Relabel(owner: seq<Owner>, from: Owner, nodes: seq<nat>, to: Owner): (r: seq<Owner>)
    ensures |r| == |owner|
    ensures forall d | 0 <= d < |owner| :: r[d] == if owner[d] == from && d in nodes then to else owner[d]
  {
    seq(|owner|, d requires 0 <= d < |owner| => if owner[d] == from && d in nodes then to else owner[d])
  }

  /** Clearing NEXT on the last descriptor turns the construction into a chain. */
  lemma AssembleStep(t: seq<Desc>, p: Pool, freeHead: nat, numFree: nat, c: Chain)
    requires PoolOk(t, p, freeHead, numFree) && |c.nodes| > 0 && |c.nodes| == |c.readable| + |c.writable|
    requires Building(t, p.owner, c.nodes, c.readable + c.writable, |c.readable|)
    ensures var h, last := c.nodes[0], c.nodes[|c.nodes| - 1];
      && h !in p.chains
      && PoolOk(t[last := t[last].(flags := t[last].flags.(next := false))],
                Pool(Relabel(p.owner, Loose, c.nodes, InChain(h)), p.free, p.chains[h := c]), freeHead, numFree)
  {
    var h, last := c.nodes[0], c.nodes[|c.nodes| - 1];
    var owner' := Relabel(p.owner, Loose, c.nodes, InChain(h));
    var t' := t[last := t[last].(flags := t[last].flags.(next := false))];
    assert h !in p.chains by { assert h in p.chains ==> ChainOk(t, p.owner, h, p.chains[h]); }
    assert forall k | 0 <= k < |c.nodes| :: c.nodes[k] in c.nodes;
    FreeListKept(t, t', p, Pool(owner', p.free, p.chains[h := c]), freeHead, numFree);
    AssembledChain(t, t', p.owner, owner', c, h, last);
    AssembledChains(t, t', p, owner', c, h);
  }

  lemma AssembledChains(t: seq<Desc>, t': seq<Desc>, p: Pool, owner': seq<Owner>, c: Chain, h: nat)
    requires ChainsOk(t, p) && |t'| == |t| == |owner'| && h !in p.chains && ChainOk(t', owner', h, c)
    requires forall d | 0 <= d < |t| && p.owner[d].InChain? :: owner'[d] == p.owner[d] && t'[d] == t[d]
    requires forall d | 0 <= d < |t| && owner'[d].InChain? && owner'[d] != p.owner[d] ::
      owner'[d] == InChain(h) && d in c.nodes
    ensures ChainsOk(t', Pool(owner', p.free, p.chains[h := c]))
  {
    forall g | g in p.chains ensures ChainOk(t', owner', g, p.chains[g]) {
      assert ChainOk(t, p.owner, g, p.chains[g]);
      ChainKept(t, t', p.owner, owner', g, p.chains[g]);
    }
  }

  lemma AssembledChain(t: seq<Desc>, t': seq<Desc>, owner: seq<Owner>, owner': seq<Owner>, c: Chain, h: nat, last: nat)
    requires |c.nodes| > 0 && |c.nodes| == |c.readable| + |c.writable| && h == c.nodes[0]
    requires last == c.nodes[|c.nodes| - 1]
    requires Building(t, owner, c.nodes, c.readable + c.writable, |c.readable|)
    requires |owner'| == |t| && forall k | 0 <= k < |c.nodes| :: owner'[c.nodes[k]] == InChain(h)
    requires t' == t[last := t[last].(flags := t[last].flags.(next := false))]
    ensures ChainOk(t', owner', h, c)
  {
    LastDiffers(c.nodes);
    LinkedKept(t, t', c.nodes);
  }

  /** Taking a chain apart leaves its descriptors in the hands of the caller. */
  lemma DissolveStep(t: seq<Desc>, p: Pool, freeHead: nat, numFree: nat, h: nat)
    requires PoolOk(t, p, freeHead, numFree) && h in p.chains
    ensures var owner' := Relabel(p.owner, InChain(h), p.chains[h].nodes, Loose);
      && PoolOk(t, Pool(owner', p.free, p.chains - {h}), freeHead, numFree)
      && (forall k | 0 <= k < |p.chains[h].nodes| ::
          p.chains[h].nodes[k] < |t| && owner'[p.chains[h].nodes[k]] == Loose)
  {
    var owner' := Relabel(p.owner, InChain(h), p.chains[h].nodes, Loose);
    assert ChainOk(t, p.owner, h, p.chains[h]);
    forall g | g in p.chains - {h} ensures ChainOk(t, owner', g, p.chains[g]) {
      assert ChainOk(t, p.owner, g, p.chains[g]);
      ChainKept(t, t, p.owner, owner', g, p.chains[g]);
    }
  }

  /** The descriptors from the k-th on of a chain that is being given back: still linked, no longer a chain. */
  ghost predicate Rest(t: seq<Desc>, owner: seq<Owner>, nodes: seq<nat>, k: nat) {
    && |owner| == |t| && Distinct(nodes)
    && (forall j | k <= j < |nodes| ::
        nodes[j] < |t| && owner[nodes[j]] == Loose && t[nodes[j]].flags.next == (j + 1 < |nodes|))
    && (forall j: nat | k <= j && j + 1 < |nodes| :: LinkAt(t, nodes, j))
  }

  lemma DissolvedRest(t: seq<Desc>, owner: seq<Owner>, owner': seq<Owner>, h: nat, c: Chain)
    requires ChainOk(t, owner, h, c) && |owner'| == |t| && forall k | 0 <= k < |c.nodes| :: owner'[c.nodes[k]] == Loose
    ensures Rest(t, owner', c.nodes, 0) && |c.nodes| > 0 && c.nodes[0] == h < |t|
  {
  }

  lemma RestStep(t: seq<Desc>, owner: seq<Owner>, nodes: seq<nat>, k: nat, d: nat, next: nat)
    requires Rest(t, owner, nodes, k) && k < |nodes| && d == nodes[k] && d < |t|
    ensures Rest(t[d := t[d].(next := next)], owner[d := Free], nodes, k + 1)
    ensures t[d].flags.next == (k + 1 < |nodes|) && (k + 1 < |nodes| ==> t[d].next == nodes[k + 1] < |t|)
  {
    var t' := t[d := t[d].(next := next)];
    forall j | k < j < |nodes| ensures nodes[j] != d {
      assert Differ(nodes, k, j);
    }
    forall j: nat | k + 1 <= j && j + 1 < |nodes| ensures LinkAt(t', nodes, j) {
      assert LinkAt(t, nodes, j);
    }
    assert k + 1 < |nodes| ==> LinkAt(t, nodes, k);
  }

  // ---------------------------------------------------------------------------------------------
  // What the device sees
  // ---------------------------------------------------------------------------------------------

  /** The descriptors a device reads from d on, following the links for at most n steps. */
  function ReadChain(t: seq<Desc>, d: nat, n: nat): seq<Desc>
    decreases n
  {
    if n == 0 || d >= |t| then []
    else [t[d]] + if t[d].flags.next then ReadChain(t, t[d].next, n - 1) else []
  }

  /** A buffer as a descriptor shows it to the device. */
  predicate Shows(d: Desc, v: IoVec, write: bool) {
    d.addr == v.phys && d.len == Len32(v.len) && d.flags.write == write
  }

  /** The descriptors of a chain from the k-th on. */
  function NodesFrom(t: seq<Desc>, nodes: seq<nat>, k: nat): seq<Desc>
    requires k <= |nodes| && forall j | 0 <= j < |nodes| :: nodes[j] < |t|
  {
    seq(|nodes| - k, j requires 0 <= j < |nodes| - k => t[nodes[k + j]])
  }

  lemma {:induction false} ReadsNodes(t: seq<Desc>, nodes: seq<nat>, k: nat, n: nat)
    requires Linked(t, nodes) && k < |nodes| && |nodes| - k <= n
    requires forall j | 0 <= j < |nodes| :: t[nodes[j]].flags.next == (j + 1 < |nodes|)
    ensures ReadChain(t, nodes[k], n) == NodesFrom(t, nodes, k)
    decreases |nodes| - k
  {
    if k + 1 < |nodes| {
      assert LinkAt(t, nodes, k);
      ReadsNodes(t, nodes, k + 1, n - 1);
    }
    assert NodesFrom(t, nodes, k) == [t[nodes[k]]] + NodesFrom(t, nodes, k + 1);
  }

  /** The walk of a live chain ends by itself and shows the readable, then the writable buffers. */
  lemma ChainReadsBack(t: seq<Desc>, p: Pool, freeHead: nat, numFree: nat, h: nat, n: nat)
    requires PoolOk(t, p, freeHead, numFree) && h in p.chains && n >= |t|
    ensures ReadsAs(ReadChain(t, h, n), p.chains[h].readable, p.chains[h].writable)
  {
    assert ChainOk(t, p.owner, h, p.chains[h]);
    ChainReads(t, p.owner, h, p.chains[h], n);
  }

  /** A list of descriptors shows exactly these buffers, the readable ones first. */
  ghost predicate ReadsAs(ds: seq<Desc>, readable: seq<IoVec>, writable: seq<IoVec>) {
    && |ds| == |readable| + |writable|
    && (forall j | 0 <= j < |readable| :: Shows(ds[j], readable[j], false))
    && (forall j | 0 <= j < |writable| :: Shows(ds[|readable| + j], writable[j], true))
  }

  lemma ChainReads(t: seq<Desc>, owner: seq<Owner>, h: nat, c: Chain, n: nat)
    requires ChainOk(t, owner, h, c) && n >= |t|
    ensures ReadsAs(ReadChain(t, h, n), c.readable, c.writable)
  {
    DistinctFit(c.nodes, |t|);
    ReadsNodes(t, c.nodes, 0, n);
    var ds, bufs := NodesFrom(t, c.nodes, 0), c.readable + c.writable;
    forall j | 0 <= j < |bufs| ensures Shows(ds[j], bufs[j], j >= |c.readable|) {
      assert t[c.nodes[j]].addr == bufs[j].phys;
    }
    assert forall j | 0 <= j < |c.writable| :: bufs[|c.readable| + j] == c.writable[j];
  }

  /** What a device finds at the k-th descriptor of a chain. */
  lemma ChainNode(t: seq<Desc>, owner: seq<Owner>, h: nat, c: Chain, k: nat)
    requires ChainOk(t, owner, h, c) && k < |c.nodes|
    ensures c.nodes[k] < |t| && |c.readable + c.writable| == |c.nodes|
    ensures var d := t[c.nodes[k]];
      && d.flags.next == (k + 1 < |c.nodes|) && (k + 1 < |c.nodes| ==> d.next == c.nodes[k + 1])
      && d.addr == (c.readable + c.writable)[k].phys
  {
    assert k + 1 < |c.nodes| ==> LinkAt(t, c.nodes, k);
  }
}
