/**
How the state of driver, queue and device mirrors the desk: which heads belong to which requests, and
how many slots and descriptors the requests in flight take.
*/
module DeskMirror {
  import opened Distinctness
  import opened Descriptors
  import opened RingFlow
  import opened SplitVirtqueues
  import opened RequestSlots
  import opened VirtioBlock
  import opened BlockDesk

  /** The request that a head in flight stands for. */
  ghost predicate StandsFor(h: nat, r: Request, live: map<nat, Live>, tokens: seq<Token>) {
    && h in live && live[h].request < |tokens|
    && r == Request(live[h].request, tokens[live[h].request], live[h].job)
  }

  ghost predicate Shown(heads: seq<nat>, rs: seq<Request>, live: map<nat, Live>, tokens: seq<Token>) {
    |heads| == |rs| && forall i | 0 <= i < |rs| :: StandsFor(heads[i], rs[i], live, tokens)
  }

  /** The status the device gave the request of a head. */
  ghost predicate SaidOf(h: nat, status: nat, live: map<nat, Live>, said: map<nat, nat>) {
    h in live && live[h].request in said && said[live[h].request] == status
  }

  ghost predicate Told(heads: seq<nat>, vs: seq<Verdict>, live: map<nat, Live>, said: map<nat, nat>) {
    |heads| == |vs| && forall i | 0 <= i < |vs| :: SaidOf(heads[i], vs[i].status, live, said)
  }

  /** Every head in flight is unread, held or returned, and listed there once. */
  ghost predicate Everywhere(f: Flow, held: seq<nat>) {
    multiset(f.queue) + multiset(held) + multiset(f.returned) == multiset(f.stage.Keys)
  }

  /** The heads a device has read and not returned yet. */
  ghost predicate HeldBy(held: seq<nat>, stage: map<nat, Stage>) {
    Distinct(held) && forall i | 0 <= i < |held| :: held[i] in stage && stage[held[i]] == Held
  }

  lemma HeldAfterSubmit(held: seq<nat>, f: Flow, head: nat)
    requires HeldBy(held, f.stage) && head !in f.stage
    ensures HeldBy(held, Submitted(f, head).stage)
  {
  }

  lemma HeldAfterTake(held: seq<nat>, f: Flow, size: nat)
    requires HeldBy(held, f.stage) && FlowOk(f, size) && f.queue != []
    ensures HeldBy(held + [f.queue[0]], Taken(f).stage)
  {
    assert f.stage[f.queue[0]] == Queued;
    DistinctSnoc(held, f.queue[0]);
  }

  lemma HeldAfterFinish(held: seq<nat>, f: Flow, k: nat)
    requires HeldBy(held, f.stage) && k < |held|
    ensures HeldBy(Without(held, k), Finished(f, held[k]).stage)
  {
    DropOne(held, k);
    var r := Without(held, k);
    assert forall i | 0 <= i < |r| :: r[i] == held[if i < k then i else i + 1];
  }

  lemma HeldAfterProcess(held: seq<nat>, f: Flow, size: nat)
    requires HeldBy(held, f.stage) && FlowOk(f, size)
    ensures HeldBy(held, PoppedFirst(f, |f.returned|).stage)
  {
    assert f.returned[..|f.returned|] == f.returned;
  }

  /** The desk as driver, queue and device show it; bound, so that only proofs that name Reflects look inside. */
  ghost predicate Mirrors(d: Desk, f: Flow, held: seq<nat>, live: map<nat, Live>, l: Ledger) {
    forall x | x == d :: Reflects(x, f, held, live, l)
  }

  ghost predicate Reflects(d: Desk, f: Flow, held: seq<nat>, live: map<nat, Live>, l: Ledger) {
    && HeldBy(held, f.stage) && Everywhere(f, held) && d.count == |l.tokens|
    && Shown(f.queue, d.waiting, live, l.tokens) && Shown(held, d.held, live, l.tokens)
    && Shown(f.returned, Requests(d.done), live, l.tokens) && Told(f.returned, d.done, live, l.said)
  }

  // ---------------------------------------------------------------------------------------------
  // Enqueue
  // ---------------------------------------------------------------------------------------------

  lemma ShownKept(heads: seq<nat>, rs: seq<Request>, live: map<nat, Live>, tokens: seq<Token>, live': map<nat, Live>,
                  tokens': seq<Token>)
    requires Shown(heads, rs, live, tokens) && tokens <= tokens'
    requires forall i | 0 <= i < |heads| && heads[i] in live :: heads[i] in live' && live'[heads[i]] == live[heads[i]]
    ensures Shown(heads, rs, live', tokens')
  {
    forall i | 0 <= i < |rs| ensures StandsFor(heads[i], rs[i], live', tokens') {
      assert StandsFor(heads[i], rs[i], live, tokens);
    }
  }

  lemma ToldKept(heads: seq<nat>, vs: seq<Verdict>, live: map<nat, Live>, said: map<nat, nat>, live': map<nat, Live>,
                 said': map<nat, nat>)
    requires Told(heads, vs, live, said)
    requires forall i | 0 <= i < |heads| && heads[i] in live :: heads[i] in live' && live'[heads[i]] == live[heads[i]]
    requires forall n | n in said :: n in said' && said'[n] == said[n]
    ensures Told(heads, vs, live', said')
  {
    forall i | 0 <= i < |vs| ensures SaidOf(heads[i], vs[i].status, live', said') {
      assert SaidOf(heads[i], vs[i].status, live, said);
    }
  }

  lemma EverywhereAfterSubmit(f: Flow, held: seq<nat>, head: nat)
    requires Everywhere(f, held) && head !in f.stage
    ensures Everywhere(Submitted(f, head), held)
  {
    assert Submitted(f, head).stage.Keys == f.stage.Keys + {head};
    assert multiset(f.stage.Keys + {head}) == multiset(f.stage.Keys) + multiset{head};
  }

  lemma MirrorsEnqueue(d: Desk, f: Flow, held: seq<nat>, live: map<nat, Live>, l: Ledger, head: nat, slot: nat,
                       token: Token, job: Job)
    requires Mirrors(d, f, held, live, l) && head !in f.stage && head !in live
    ensures Mirrors(d.(count := d.count + 1, waiting := d.waiting + [Request(d.count, token, job)]),
                    Submitted(f, head), held, live[head := Live(slot, |l.tokens|, job)], Enqueued(l, token, head))
  {
    assert Reflects(d, f, held, live, l);
    var live', l' := live[head := Live(slot, |l.tokens|, job)], Enqueued(l, token, head);
    EverywhereAfterSubmit(f, held, head);
    HeldAfterSubmit(held, f, head);
    ShownKept(f.queue, d.waiting, live, l.tokens, live', l'.tokens);
    ShownKept(held, d.held, live, l.tokens, live', l'.tokens);
    ShownKept(f.returned, Requests(d.done), live, l.tokens, live', l'.tokens);
    ToldKept(f.returned, d.done, live, l.said, live', l'.said);
    assert StandsFor(head, Request(d.count, token, job), live', l'.tokens);
  }

  // ---------------------------------------------------------------------------------------------
  // Take and Finish
  // ---------------------------------------------------------------------------------------------

  lemma MirrorsTake(d: Desk, f: Flow, held: seq<nat>, live: map<nat, Live>, l: Ledger, size: nat)
    requires Mirrors(d, f, held, live, l) && FlowOk(f, size) && f.queue != []
    ensures Mirrors(Apply(d, Take), Taken(f), held + [f.queue[0]], live, l)
  {
    assert Reflects(d, f, held, live, l);
    HeldAfterTake(held, f, size);
    assert f.queue == [f.queue[0]] + f.queue[1..];
    assert Taken(f).stage.Keys == f.stage.Keys;
    assert StandsFor(f.queue[0], d.waiting[0], live, l.tokens);
    forall i | 0 <= i < |f.queue| - 1 ensures StandsFor(f.queue[1..][i], d.waiting[1..][i], live, l.tokens) {
      assert StandsFor(f.queue[i + 1], d.waiting[i + 1], live, l.tokens);
    }
  }

  /** The device holds as many heads as the desk has requests with the device. */
  lemma HeldHeads(d: Desk, f: Flow, held: seq<nat>, live: map<nat, Live>, l: Ledger)
    requires Mirrors(d, f, held, live, l)
    ensures |held| == |d.held| && |f.queue| == |d.waiting|
  {
    assert Reflects(d, f, held, live, l);
  }

  lemma HeldHead(d: Desk, f: Flow, held: seq<nat>, live: map<nat, Live>, l: Ledger, k: nat)
    requires Mirrors(d, f, held, live, l) && k < |held|
    ensures k < |d.held| && held[k] in f.stage && f.stage[held[k]] == Held
  {
    assert Reflects(d, f, held, live, l);
  }

  lemma HeldStandsFor(d: Desk, f: Flow, held: seq<nat>, live: map<nat, Live>, l: Ledger, k: nat)
    requires Mirrors(d, f, held, live, l) && k < |held| == |d.held|
    ensures StandsFor(held[k], d.held[k], live, l.tokens)
  {
    assert Reflects(d, f, held, live, l);
  }

  lemma EverywhereAfterFinish(f: Flow, held: seq<nat>, k: nat)
    requires Everywhere(f, held) && k < |held| && held[k] in f.stage
    ensures Everywhere(Finished(f, held[k]), Without(held, k))
  {
    assert held == held[..k] + [held[k]] + held[k + 1..];
    assert Finished(f, held[k]).stage.Keys == f.stage.Keys;
  }

  lemma MirrorsFinish(d: Desk, f: Flow, held: seq<nat>, live: map<nat, Live>, l: Ledger, k: nat, status: nat, len: nat)
    requires Mirrors(d, f, held, live, l) && k < |held| && held[k] in live
    requires live[held[k]].request !in l.said
    ensures Mirrors(Apply(d, Finish(k, status, len)), Finished(f, held[k]), Without(held, k), live,
                    Said(l, live[held[k]].request, status))
  {
    assert Reflects(d, f, held, live, l);
    var said' := l.said[live[held[k]].request := status];
    var v := Verdict(d.held[k], status);
    HeldAfterFinish(held, f, k);
    EverywhereAfterFinish(f, held, k);
    assert StandsFor(held[k], d.held[k], live, l.tokens);
    assert Requests(d.done + [v]) == Requests(d.done) + [v.request];
    ToldKept(f.returned, d.done, live, l.said, live, said');
    assert SaidOf(held[k], status, live, said');
    forall i | 0 <= i < |held| - 1 ensures StandsFor(Without(held, k)[i], Without(d.held, k)[i], live, l.tokens) {
      assert StandsFor(held[if i < k then i else i + 1], d.held[if i < k then i else i + 1], live, l.tokens);
    }
  }

  // ---------------------------------------------------------------------------------------------
  // Process
  // ---------------------------------------------------------------------------------------------

  lemma EverywhereAfterProcess(f: Flow, held: seq<nat>)
    requires Everywhere(f, held)
    ensures Everywhere(PoppedFirst(f, |f.returned|), held)
    ensures forall h | h in f.queue || h in held :: h !in f.returned
  {
    var f', gone := PoppedFirst(f, |f.returned|), set h | h in f.returned;
    assert f.returned[..|f.returned|] == f.returned && f'.stage.Keys == f.stage.Keys - gone;
    forall h ensures (multiset(f'.queue) + multiset(held) + multiset(f'.returned))[h] == multiset(f'.stage.Keys)[h] {
      assert (multiset(f.queue) + multiset(held) + multiset(f.returned))[h] == multiset(f.stage.Keys)[h];
      assert h in f.returned <==> multiset(f.returned)[h] > 0;
    }
    forall h | h in f.queue || h in held ensures h !in f.returned {
      assert (multiset(f.queue) + multiset(held) + multiset(f.returned))[h] == multiset(f.stage.Keys)[h];
      assert h in f.returned <==> multiset(f.returned)[h] > 0;
      assert h in f.queue <==> multiset(f.queue)[h] > 0;
      assert h in held <==> multiset(held)[h] > 0;
    }
  }

  lemma ShownOthers(heads: seq<nat>, rs: seq<Request>, live: map<nat, Live>, tokens: seq<Token>, gone: seq<nat>)
    requires Shown(heads, rs, live, tokens) && forall h | h in heads :: h !in gone
    ensures Shown(heads, rs, Others(live, gone), tokens)
  {
    forall i | 0 <= i < |rs| ensures StandsFor(heads[i], rs[i], Others(live, gone), tokens) {
      assert StandsFor(heads[i], rs[i], live, tokens) && heads[i] in heads;
    }
  }

  /** The callbacks are those of the verdicts, in order. */
  lemma CallsAreVerdicts(d: Desk, f: Flow, live: map<nat, Live>, l: Ledger, l': Ledger, calls: seq<Call>)
    requires Shown(f.returned, Requests(d.done), live, l.tokens) && Told(f.returned, d.done, live, l.said)
    requires CalledBack(f.returned, live, l', calls) && l'.tokens == l.tokens && l'.said == l.said
    ensures calls == Calls(d.done)
  {
    forall k | 0 <= k < |calls| ensures calls[k] == CallOf(d.done[k]) {
      assert GotCall(f.returned[k], live, l', calls[k]);
      assert StandsFor(f.returned[k], Requests(d.done)[k], live, l.tokens);
      assert SaidOf(f.returned[k], d.done[k].status, live, l.said);
    }
  }

  lemma MirrorsProcess(d: Desk, f: Flow, held: seq<nat>, live: map<nat, Live>, l: Ledger, l': Ledger, calls: seq<Call>,
                       size: nat)
    requires Mirrors(d, f, held, live, l) && FlowOk(f, size) && l'.tokens == l.tokens && l'.said == l.said
    requires CalledBack(f.returned, live, l', calls)
    ensures Mirrors(Apply(d, Process), PoppedFirst(f, |f.returned|), held, Others(live, f.returned), l')
    ensures Apply(d, Process).log == d.log + calls
  {
    assert Reflects(d, f, held, live, l);
    EverywhereAfterProcess(f, held);
    HeldAfterProcess(held, f, size);
    CallsAreVerdicts(d, f, live, l, l', calls);
    ShownOthers(f.queue, d.waiting, live, l.tokens, f.returned);
    ShownOthers(held, d.held, live, l.tokens, f.returned);
  }

  // ---------------------------------------------------------------------------------------------
  // Slots and descriptors
  // ---------------------------------------------------------------------------------------------

  /** The heads in flight, each once. */
  lemma HeadsInFlight(d: Desk, f: Flow, held: seq<nat>, live: map<nat, Live>, l: Ledger)
    requires Mirrors(d, f, held, live, l)
    ensures var heads := f.queue + held + f.returned;
      && Distinct(heads) && (forall h :: h in heads <==> h in f.stage)
      && |heads| == |InFlight(d)| && Shown(heads, InFlight(d), live, l.tokens)
  {
    assert Reflects(d, f, held, live, l);
    var heads := f.queue + held + f.returned;
    assert multiset(heads) == multiset(f.stage.Keys);
    OncePerElement(heads, f.stage.Keys);
    forall i | 0 <= i < |heads| ensures StandsFor(heads[i], InFlight(d)[i], live, l.tokens) {
      if i < |f.queue| {
        assert StandsFor(f.queue[i], d.waiting[i], live, l.tokens);
      } else if i < |f.queue| + |held| {
        assert StandsFor(held[i - |f.queue|], d.held[i - |f.queue|], live, l.tokens);
      } else {
        var j := i - |f.queue| - |held|;
        assert StandsFor(f.returned[j], Requests(d.done)[j], live, l.tokens);
      }
    }
  }

  /** Every slot is occupied exactly when there are as many heads in flight as slots. */
  lemma SlotsFullIff(bits: seq<bool>, slots: seq<RequestSlot>, live: map<nat, Live>, heads: seq<nat>)
    requires SlotsOk(bits, slots, live) && Distinct(heads) && forall h :: h in heads <==> h in live
    ensures AllOccupied(bits) <==> |heads| >= MAX_INFLIGHT
  {
    var at := seq(|heads|, i requires 0 <= i < |heads| => assert heads[i] in heads; live[heads[i]].slot);
    forall i: nat, j: nat | i < j < |at| ensures Differ(at, i, j) {
      assert Differ(heads, i, j) && heads[i] in heads && heads[j] in heads;
    }
    forall i | 0 <= i < |at| ensures at[i] < MAX_INFLIGHT && bits[at[i]] {
      assert heads[i] in heads;
    }
    DistinctFit(at, MAX_INFLIGHT);
    if AllOccupied(bits) {
      forall s | 0 <= s < MAX_INFLIGHT ensures s in at {
        var k :| 0 <= k < |heads| && heads[k] == slots[s].descHead;
        assert at[k] == s;
      }
      Covers(at, MAX_INFLIGHT);
    } else {
      var s :| 0 <= s < |bits| && !bits[s];
      DistinctSnoc(at, s);
      DistinctFit(at + [s], MAX_INFLIGHT);
    }
  }

  lemma {:induction false} SizesConcat(a: seq<Request>, b: seq<Request>)
    ensures Sizes(a + b) == Sizes(a) + Sizes(b)
    decreases |b|
  {
    if b == [] {
      assert a + b == a;
    } else {
      assert (a + b)[..|a + b| - 1] == a + b[..|b| - 1];
      SizesConcat(a, b[..|b| - 1]);
    }
  }

  /** The chains of the requests have as many descriptors as the requests have buffers. */
  lemma {:induction false} NodesAreSizes(base: nat, t: seq<Desc>, p: Pool, live: map<nat, Live>, tokens: seq<Token>,
                                         heads: seq<nat>, rs: seq<Request>)
    requires ChainsOk(t, p) && ChainsMatch(base, live, p.chains) && Shown(heads, rs, live, tokens)
    requires forall i | 0 <= i < |heads| :: heads[i] in p.chains
    ensures |AllNodes(p.chains, heads)| == Sizes(rs)
    decreases |heads|
  {
    if heads != [] {
      var n := |heads| - 1;
      forall i | 0 <= i < n ensures StandsFor(heads[..n][i], rs[..n][i], live, tokens) {
        assert StandsFor(heads[i], rs[i], live, tokens);
      }
      NodesAreSizes(base, t, p, live, tokens, heads[..n], rs[..n]);
      assert StandsFor(heads[n], rs[n], live, tokens);
      assert ChainOk(t, p.owner, heads[n], p.chains[heads[n]]);
      assert ChainFits(base, live[heads[n]].slot, live[heads[n]].job, p.chains[heads[n]]);
    }
  }

  lemma UsedIsSizes(d: Desk)
    ensures Used(d) == Sizes(InFlight(d))
  {
    SizesConcat(d.waiting + d.held, Requests(d.done));
    SizesConcat(d.waiting, d.held);
  }

  lemma FreeAndUsed(base: nat, t: seq<Desc>, p: Pool, freeHead: nat, numFree: nat, live: map<nat, Live>,
                    tokens: seq<Token>, heads: seq<nat>, rs: seq<Request>)
    requires PoolOk(t, p, freeHead, numFree) && LooseOnly(p.owner, []) && ChainsMatch(base, live, p.chains)
    requires Distinct(heads) && Shown(heads, rs, live, tokens) && forall h :: h in heads <==> h in p.chains
    ensures numFree + Sizes(rs) == |t|
  {
    EveryDescriptorCounted(t, p, freeHead, numFree, heads);
    NodesAreSizes(base, t, p, live, tokens, heads, rs);
  }

  lemma TiedKeys(base: nat, live: map<nat, Live>, said: map<nat, nat>, chains: map<nat, Chain>, stage: map<nat, Stage>)
    requires TiedTo(base, live, said, chains, stage, {})
    ensures ChainsMatch(base, live, chains) && live.Keys == stage.Keys == chains.Keys
  {
    assert Ties(base, live, said, chains, stage, {});
  }

  /** Descriptors are on the free list or used by the requests in flight. */
  lemma DescriptorsOfDesk(d: Desk, f: Flow, held: seq<nat>, live: map<nat, Live>, l: Ledger, base: nat, t: seq<Desc>,
                          p: Pool, freeHead: nat, numFree: nat)
    requires Mirrors(d, f, held, live, l) && PoolOk(t, p, freeHead, numFree) && LooseOnly(p.owner, [])
    requires TiedTo(base, live, l.said, p.chains, f.stage, {})
    ensures numFree + Used(d) == |t|
  {
    TiedKeys(base, live, l.said, p.chains, f.stage);
    HeadsInFlight(d, f, held, live, l);
    var heads := f.queue + held + f.returned;
    assert forall h :: h in heads <==> h in p.chains.Keys;
    FreeAndUsed(base, t, p, freeHead, numFree, live, l.tokens, heads, InFlight(d));
    UsedIsSizes(d);
  }

  /** All slots are taken exactly when that many requests are in flight. */
  lemma SlotsOfDesk(d: Desk, f: Flow, held: seq<nat>, live: map<nat, Live>, l: Ledger, base: nat,
                    chains: map<nat, Chain>, bits: seq<bool>, slots: seq<RequestSlot>)
    requires Mirrors(d, f, held, live, l) && SlotsOk(bits, slots, live)
    requires TiedTo(base, live, l.said, chains, f.stage, {})
    ensures AllOccupied(bits) <==> |InFlight(d)| >= MAX_INFLIGHT
  {
    TiedKeys(base, live, l.said, chains, f.stage);
    HeadsInFlight(d, f, held, live, l);
    var heads := f.queue + held + f.returned;
    assert forall h :: h in heads <==> h in live.Keys;
    SlotsFullIff(bits, slots, live, heads);
  }
}
