/**
Runs of the completely fair scheduler on one core with a closed population, as values: how far
virtual runtimes can drift apart, and what that says about service and weights.
*/
module CfsRuns {
  import opened Distinctness

  const DEFAULT_WEIGHT: nat := 1024
  const MIN_GRANULARITY: nat := 10

  datatype Share = Share(vruntime: nat, weight: nat)

  type Shares = map<nat, Share>

  /** What one tick costs: the larger the weight, the less, in whole units. */
  function Delta(weight: nat): nat
    requires weight > 0
  {
    DEFAULT_WEIGHT * 1000 / weight
  }

  /**
  The default weight pays 1000, and whoever weighs more pays no more; charge times weight is 1024000,
  rounded down.
  */
  lemma ChargesFall(w: nat, v: nat)
    requires 0 < w <= v
    ensures Delta(1024) == 1000 && Delta(v) <= Delta(w)
    ensures Delta(w) * w <= 1024000 < (Delta(w) + 1) * w
  {
    var d, e := Delta(w), Delta(v);
    assert d * w <= 1024000 < (d + 1) * w by { QuotientBounds(1024000, w, d); }
    assert e * v <= 1024000 by { QuotientBounds(1024000, v, e); }
    if e > d {
      assert (d + 1) * w <= e * w by { TimesGrows(d + 1, e, w); }
      assert w * e <= v * e by { TimesGrows(w, v, e); }
    }
  }

  lemma QuotientBounds(n: nat, w: nat, q: nat)
    requires w > 0 && q == n / w
    ensures q * w <= n < (q + 1) * w
  {
    assert n == q * w + n % w;
  }

  lemma TimesGrows(a: nat, b: nat, c: nat)
    requires a <= b
    ensures a * c <= b * c
  {
  }

  /** The order of the ready queue; tasks are told apart by their address. */
  predicate Before(s: Shares, a: nat, b: nat)
    requires a in s && b in s
  {
    s[a].vruntime < s[b].vruntime || (s[a].vruntime == s[b].vruntime && a < b)
  }

  /** The first of some tasks in the order of the queue. */
  function First(s: Shares, q: seq<nat>): (r: nat)
    requires q != [] && forall i | 0 <= i < |q| :: q[i] in s
    ensures r in q && r in s
  {
    var n := |q| - 1;
    if n == 0 then q[0]
    else var r := First(s, q[..n]); if Before(s, q[n], r) then q[n] else r
  }

  lemma {:induction false} FirstIsLeast(s: Shares, q: seq<nat>, t: nat)
    requires q != [] && (forall i | 0 <= i < |q| :: q[i] in s) && t in q
    ensures First(s, q) == t || Before(s, First(s, q), t)
    decreases |q|
  {
    var n := |q| - 1;
    if n > 0 && t in q[..n] {
      FirstIsLeast(s, q[..n], t);
    }
  }

  /** Some task is behind the current one by more than the granularity. */
  predicate Lags(s: Shares, q: seq<nat>, current: nat) {
    exists i :: 0 <= i < |q| && q[i] in s && current in s && s[q[i]].vruntime + MIN_GRANULARITY < s[current].vruntime
  }

  function Ticked(s: Share): Share
    requires s.weight > 0
  {
    s.(vruntime := s.vruntime + Delta(s.weight))
  }

  // ---------------------------------------------------------------------------------------------
  // Runs
  // ---------------------------------------------------------------------------------------------

  /** ticks: how many ticks each task has run. */
  datatype Fair = Fair(shares: Shares, current: nat, ticks: map<nat, nat>)

  /** A tick, after which the time slice may be over as well, or a voluntary reschedule. */
  datatype Step = Tick(sliceOver: bool) | Yield

  /** `order` lists the population. */
  ghost predicate FairOk(f: Fair, order: seq<nat>) {
    && order != [] && Distinct(order) && (forall t :: t in f.shares <==> t in order)
    && f.current in f.shares && f.ticks.Keys == f.shares.Keys
    && (forall t | t in f.shares :: f.shares[t].weight > 0)
  }

  /** The tick is charged to the running task; it is preempted when a task lags or its slice is over. */
  ghost function FairStep(f: Fair, order: seq<nat>, step: Step): (r: Fair)
    requires FairOk(f, order)
    ensures FairOk(r, order) && r.shares.Keys == f.shares.Keys
    ensures forall t | t in f.shares :: r.shares[t].weight == f.shares[t].weight
  {
    match step
    case Yield => f.(current := First(f.shares, order))
    case Tick(sliceOver) =>
      var s := f.shares[f.current := Ticked(f.shares[f.current])];
      var ticks := f.ticks[f.current := f.ticks[f.current] + 1];
      Fair(s, if Lags(s, order, f.current) || sliceOver then First(s, order) else f.current, ticks)
  }

  ghost function FairExec(f: Fair, order: seq<nat>, steps: seq<Step>): (r: Fair)
    requires FairOk(f, order)
    ensures FairOk(r, order) && r.shares.Keys == f.shares.Keys
    ensures forall t | t in f.shares :: r.shares[t].weight == f.shares[t].weight
  {
    if steps == [] then f else FairStep(FairExec(f, order, steps[..|steps| - 1]), order, steps[|steps| - 1])
  }

  // ---------------------------------------------------------------------------------------------
  // The spread of virtual runtimes
  // ---------------------------------------------------------------------------------------------

  /** All virtual runtimes are within `bound` of each other. */
  ghost predicate Spread(s: Shares, bound: nat) {
    forall a, b | a in s && b in s :: s[a].vruntime <= s[b].vruntime + bound
  }

  /** Every task pays at most d per tick. */
  ghost predicate AtMost(s: Shares, d: nat) {
    forall t | t in s :: s[t].weight > 0 && Delta(s[t].weight) <= d
  }

  /** Virtual runtime is what a task started with plus what its ticks cost. */
  ghost predicate Charged(s: Shares, start: map<nat, nat>, ticks: map<nat, nat>) {
    s.Keys == start.Keys == ticks.Keys
    && forall t | t in s :: s[t].weight > 0 && s[t].vruntime == start[t] + ticks[t] * Delta(s[t].weight)
  }

  /** The running task is ahead of none of the others by more than the granularity. */
  ghost predicate NotFarAhead(s: Shares, current: nat) {
    current in s && forall t | t in s :: s[current].vruntime <= s[t].vruntime + MIN_GRANULARITY
  }

  /** What every step keeps, bound so that only proofs that name FairParts look inside. */
  ghost predicate FairInv(f: Fair, start: map<nat, nat>, d: nat) {
    forall g | g == f :: FairParts(g, start, d)
  }

  ghost predicate FairParts(f: Fair, start: map<nat, nat>, d: nat) {
    && AtMost(f.shares, d) && Spread(f.shares, MIN_GRANULARITY + d)
    && Charged(f.shares, start, f.ticks) && NotFarAhead(f.shares, f.current)
  }

  /** A tick of a task that was not far ahead keeps all runtimes within granularity and largest charge. */
  lemma TickKeepsSpread(s: Shares, current: nat, d: nat)
    requires NotFarAhead(s, current) && AtMost(s, d) && Spread(s, MIN_GRANULARITY + d)
    ensures Spread(s[current := Ticked(s[current])], MIN_GRANULARITY + d) && AtMost(s[current := Ticked(s[current])], d)
  {
  }

  lemma TickIsCharged(s: Shares, start: map<nat, nat>, ticks: map<nat, nat>, t: nat)
    requires Charged(s, start, ticks) && t in s
    ensures Charged(s[t := Ticked(s[t])], start, ticks[t := ticks[t] + 1])
  {
    var n, d := ticks[t], Delta(s[t].weight);
    assert (n + 1) * d == n * d + d;
  }

  lemma FirstNotAhead(s: Shares, order: seq<nat>)
    requires order != [] && forall t :: t in s <==> t in order
    ensures NotFarAhead(s, First(s, order))
  {
    forall t | t in s ensures s[First(s, order)].vruntime <= s[t].vruntime + MIN_GRANULARITY {
      FirstIsLeast(s, order, t);
    }
  }

  lemma NobodyLags(s: Shares, order: seq<nat>, current: nat)
    requires current in s && !Lags(s, order, current) && forall t | t in s :: t in order
    ensures NotFarAhead(s, current)
  {
    forall t | t in s ensures s[current].vruntime <= s[t].vruntime + MIN_GRANULARITY {
      var i :| 0 <= i < |order| && order[i] == t;
    }
  }

  lemma TickKeepsFair(f: Fair, order: seq<nat>, sliceOver: bool, start: map<nat, nat>, d: nat)
    requires FairOk(f, order) && FairInv(f, start, d)
    ensures FairInv(FairStep(f, order, Tick(sliceOver)), start, d)
  {
    assert FairParts(f, start, d);
    var s := f.shares[f.current := Ticked(f.shares[f.current])];
    TickKeepsSpread(f.shares, f.current, d);
    TickIsCharged(f.shares, start, f.ticks, f.current);
    PreemptedNotAhead(s, order, f.current, sliceOver);
  }

  lemma PreemptedNotAhead(s: Shares, order: seq<nat>, current: nat, sliceOver: bool)
    requires order != [] && (forall t :: t in s <==> t in order) && current in s
    ensures NotFarAhead(s, if Lags(s, order, current) || sliceOver then First(s, order) else current)
  {
    if Lags(s, order, current) || sliceOver { FirstNotAhead(s, order); } else { NobodyLags(s, order, current); }
  }

  lemma StepKeepsFair(f: Fair, order: seq<nat>, step: Step, start: map<nat, nat>, d: nat)
    requires FairOk(f, order) && FairInv(f, start, d)
    ensures FairInv(FairStep(f, order, step), start, d)
  {
    assert FairParts(f, start, d);
    match step
    case Yield => FirstNotAhead(f.shares, order);
    case Tick(sliceOver) => TickKeepsFair(f, order, sliceOver, start, d);
  }

  /** After any number of ticks and reschedules all runtimes are within granularity plus largest charge. */
  lemma {:induction false} EveryRunIsFair(f: Fair, order: seq<nat>, steps: seq<Step>, start: map<nat, nat>, d: nat)
    requires FairOk(f, order) && FairInv(f, start, d)
    ensures FairInv(FairExec(f, order, steps), start, d)
    decreases |steps|
  {
    if steps != [] {
      var before := steps[..|steps| - 1];
      EveryRunIsFair(f, order, before, start, d);
      StepKeepsFair(FairExec(f, order, before), order, steps[|steps| - 1], start, d);
    }
  }

  // ---------------------------------------------------------------------------------------------
  // Every tick serves exactly one task
  // ---------------------------------------------------------------------------------------------

  function SumOver(m: map<nat, nat>, order: seq<nat>): nat
    requires forall i | 0 <= i < |order| :: order[i] in m
  {
    if order == [] then 0 else SumOver(m, order[..|order| - 1]) + m[order[|order| - 1]]
  }

  function TickCount(steps: seq<Step>): nat {
    if steps == [] then 0 else TickCount(steps[..|steps| - 1]) + if steps[|steps| - 1].Tick? then 1 else 0
  }

  lemma {:induction false} SumWithout(m: map<nat, nat>, order: seq<nat>, t: nat, v: nat)
    requires (forall i | 0 <= i < |order| :: order[i] in m) && t !in order
    ensures SumOver(m[t := v], order) == SumOver(m, order)
    decreases |order|
  {
    if order != [] { SumWithout(m, order[..|order| - 1], t, v); }
  }

  lemma {:induction false} SumStep(m: map<nat, nat>, order: seq<nat>, t: nat)
    requires Distinct(order) && (forall i | 0 <= i < |order| :: order[i] in m) && t in order
    ensures SumOver(m[t := m[t] + 1], order) == SumOver(m, order) + 1
    decreases |order|
  {
    var n := |order| - 1;
    LastDiffers(order);
    if order[n] == t {
      SumWithout(m, order[..n], t, m[t] + 1);
    } else {
      forall i: nat, j: nat | i < j < n ensures Differ(order[..n], i, j) { assert Differ(order, i, j); }
      SumStep(m, order[..n], t);
    }
  }

  lemma StepServesOne(f: Fair, order: seq<nat>, step: Step)
    requires FairOk(f, order)
    ensures SumOver(FairStep(f, order, step).ticks, order) == SumOver(f.ticks, order) + if step.Tick? then 1 else 0
  {
    if step.Tick? { SumStep(f.ticks, order, f.current); }
  }

  lemma {:induction false} EveryTickServesOne(f: Fair, order: seq<nat>, steps: seq<Step>)
    requires FairOk(f, order)
    ensures SumOver(FairExec(f, order, steps).ticks, order) == SumOver(f.ticks, order) + TickCount(steps)
    decreases |steps|
  {
    if steps != [] {
      var before := steps[..|steps| - 1];
      EveryTickServesOne(f, order, before);
      StepServesOne(FairExec(f, order, before), order, steps[|steps| - 1]);
    }
  }

  // ---------------------------------------------------------------------------------------------
  // Service and weights
  // ---------------------------------------------------------------------------------------------

  lemma Scaled(x: int, y: int, m: nat)
    requires x <= y
    ensures x * m <= y * m
  {
  }

  /**
  Costs x * da and y * db within k, and da * wa == db * wb == c: then x * wb and y * wa are within k *
  wa * wb / c.
  */
  lemma ScaledCosts(x: nat, y: nat, da: nat, db: nat, wa: nat, wb: nat, c: nat, k: nat)
    requires x * da <= y * db + k && da * wa == c && db * wb == c
    ensures c * (x * wb - y * wa) <= k * (wa * wb)
  {
    Scaled(x * da, y * db + k, wa * wb);
    assert (x * da) * (wa * wb) == (da * wa) * (x * wb);
    assert (y * db + k) * (wa * wb) == (db * wb) * (y * wa) + k * (wa * wb);
    assert c * (x * wb) - c * (y * wa) == c * (x * wb - y * wa);
  }

  /**
  In every run, tasks that started level and whose charge times weight is the same c have had service
  in proportion to their weights, to within granularity plus largest charge.
  */
  lemma ServiceIsProportional(f: Fair, order: seq<nat>, steps: seq<Step>, start: map<nat, nat>, d: nat, a: nat, b: nat,
                              c: nat)
    requires FairOk(f, order) && FairInv(f, start, d) && a in f.shares && b in f.shares
    requires a in start && b in start && start[a] == start[b]
    requires Delta(f.shares[a].weight) * f.shares[a].weight == c == Delta(f.shares[b].weight) * f.shares[b].weight
    ensures var r, wa, wb := FairExec(f, order, steps), f.shares[a].weight, f.shares[b].weight;
      c * (r.ticks[a] * wb - r.ticks[b] * wa) <= (MIN_GRANULARITY + d) * (wa * wb)
  {
    EveryRunIsFair(f, order, steps, start, d);
    var r, wa, wb := FairExec(f, order, steps), f.shares[a].weight, f.shares[b].weight;
    LevelCosts(r, start, d, a, b);
    ScaledCosts(r.ticks[a], r.ticks[b], Delta(wa), Delta(wb), wa, wb, c, MIN_GRANULARITY + d);
  }

  lemma LevelCosts(f: Fair, start: map<nat, nat>, d: nat, a: nat, b: nat)
    requires FairInv(f, start, d) && a in f.shares && b in f.shares && a in start && b in start && start[a] == start[b]
    ensures a in f.ticks && b in f.ticks && f.shares[a].weight > 0 && f.shares[b].weight > 0
    ensures f.ticks[a] * Delta(f.shares[a].weight) <= f.ticks[b] * Delta(f.shares[b].weight) + MIN_GRANULARITY + d
  {
    assert FairParts(f, start, d);
  }

  // ---------------------------------------------------------------------------------------------
  // Two tasks: exactly when service is proportional
  // ---------------------------------------------------------------------------------------------

  datatype Pair = Pair(a: nat, b: nat, vruntime: nat, wa: nat, wb: nat, first: nat)

  /** Two tasks that start level, one of which runs. */
  predicate PairOk(p: Pair) { p.a != p.b && p.wa > 0 && p.wb > 0 && (p.first == p.a || p.first == p.b) }

  function Start(p: Pair): Fair
    requires PairOk(p)
  {
    Fair(map[p.a := Share(p.vruntime, p.wa), p.b := Share(p.vruntime, p.wb)], p.first, map[p.a := 0, p.b := 0])
  }

  function Larger(x: nat, y: nat): nat { if x > y then x else y }

  lemma StartIsFair(p: Pair)
    requires PairOk(p)
    ensures FairOk(Start(p), [p.a, p.b])
    ensures FairInv(Start(p), map[p.a := p.vruntime, p.b := p.vruntime], Larger(Delta(p.wa), Delta(p.wb)))
  {
  }

  ghost function RunOf(p: Pair, steps: seq<Step>): (r: Fair)
    requires PairOk(p)
    ensures FairOk(r, [p.a, p.b]) && p.a in r.ticks && p.b in r.ticks
  {
    StartIsFair(p);
    FairExec(Start(p), [p.a, p.b], steps)
  }

  /** Service in proportion to weights would make this zero. */
  ghost function Gap(p: Pair, steps: seq<Step>): int
    requires PairOk(p)
  {
    RunOf(p, steps).ticks[p.a] * p.wb - RunOf(p, steps).ticks[p.b] * p.wa
  }

  ghost predicate GapAtMost(p: Pair, n: nat)
    requires PairOk(p)
  {
    forall steps: seq<Step> :: 0 - n <= Gap(p, steps) <= n
  }

  /** Service stays in proportion to the weights, to within some bound, in all runs. */
  ghost predicate Proportional(p: Pair)
    requires PairOk(p)
  {
    exists n: nat :: GapAtMost(p, n)
  }

  /** What a run says about ticks and costs. */
  lemma PairRun(p: Pair, steps: seq<Step>)
    requires PairOk(p)
    ensures var r, k := RunOf(p, steps), MIN_GRANULARITY + Larger(Delta(p.wa), Delta(p.wb));
      && r.ticks[p.a] + r.ticks[p.b] == TickCount(steps)
      && 0 - k <= r.ticks[p.a] * Delta(p.wa) - r.ticks[p.b] * Delta(p.wb) <= k
  {
    StartIsFair(p);
    var order, start, d := [p.a, p.b], map[p.a := p.vruntime, p.b := p.vruntime], Larger(Delta(p.wa), Delta(p.wb));
    EveryRunIsFair(Start(p), order, steps, start, d);
    EveryTickServesOne(Start(p), order, steps);
    LevelCosts(RunOf(p, steps), start, d, p.a, p.b);
    LevelCosts(RunOf(p, steps), start, d, p.b, p.a);
    SumOfPair(RunOf(p, steps).ticks, p.a, p.b);
    SumOfPair(Start(p).ticks, p.a, p.b);
  }

  lemma SumOfPair(m: map<nat, nat>, a: nat, b: nat)
    requires a in m && b in m
    ensures SumOver(m, [a, b]) == m[a] + m[b]
  {
    assert [a, b][..1] == [a] && [a][..0] == [];
    assert SumOver(m, [a]) == m[a];
  }

  lemma DriftIdentity(x: nat, y: nat, da: nat, db: nat, wa: nat, wb: nat)
    ensures (x * wb - y * wa) * (da + db) == (x * da - y * db) * (wa + wb) + (x + y) * (db * wb - da * wa)
  {
    assert (x * wb - y * wa) * (da + db) == x * wb * da + x * wb * db - y * wa * da - y * wa * db;
    assert (x * da - y * db) * (wa + wb) == x * da * wa + x * da * wb - y * db * wa - y * db * wb;
    assert (x + y) * (db * wb - da * wa) == x * (db * wb) - x * (da * wa) + y * (db * wb) - y * (da * wa);
  }

  function Ticks(n: nat): (r: seq<Step>)
    ensures |r| == n && forall i | 0 <= i < n :: r[i] == Tick(false)
  {
    seq(n, i => Tick(false))
  }

  lemma {:induction false} TicksCount(n: nat)
    ensures TickCount(Ticks(n)) == n
  {
    if n > 0 {
      TicksCount(n - 1);
      assert Ticks(n)[..n - 1] == Ticks(n - 1);
    }
  }

  /** More ticks than this take the gap beyond n. */
  function LongRun(p: Pair, n: nat): nat
    requires PairOk(p)
  {
    n * (Delta(p.wa) + Delta(p.wb)) + (MIN_GRANULARITY + Larger(Delta(p.wa), Delta(p.wb))) * (p.wa + p.wb)
  }

  /** With different products every long run leaves proportional service behind, whatever the bound. */
  lemma DriftGrows(p: Pair, steps: seq<Step>, n: nat)
    requires PairOk(p) && Delta(p.wa) * p.wa != Delta(p.wb) * p.wb
    requires TickCount(steps) > LongRun(p, n)
    ensures !(0 - n <= Gap(p, steps) <= n)
  {
    PairRun(p, steps);
    var k := MIN_GRANULARITY + Larger(Delta(p.wa), Delta(p.wb));
    DriftArithmetic(RunOf(p, steps).ticks[p.a], RunOf(p, steps).ticks[p.b], Delta(p.wa), Delta(p.wb), p.wa, p.wb, n, k);
  }

  lemma DriftArithmetic(x: nat, y: nat, da: nat, db: nat, wa: nat, wb: nat, n: nat, k: nat)
    requires x + y > n * (da + db) + k * (wa + wb) && 0 - k <= x * da - y * db <= k && da * wa != db * wb
    ensures !(0 - n <= x * wb - y * wa <= n)
  {
    DriftIdentity(x, y, da, db, wa, wb);
    DriftBound(x * wb - y * wa, x * da - y * db, da + db, wa + wb, x + y, db * wb - da * wa, n, k);
  }

  lemma DriftBound(g: int, e: int, dd: nat, ww: nat, m: nat, q: int, n: nat, k: nat)
    requires g * dd == e * ww + m * q && q != 0 && 0 - k <= e <= k && m > n * dd + k * ww
    ensures !(0 - n <= g <= n)
  {
    Scaled(e, k, ww);
    Scaled(0 - k, e, ww);
    if 0 - n <= g <= n {
      Scaled(g, n, dd);
      Scaled(0 - n, g, dd);
      if q > 0 { Scaled(1, q, m); } else { Scaled(q, -1, m); }
    }
  }

  /** The first task has run n ticks and the other none. */
  function Served(p: Pair, n: nat): map<nat, nat> {
    map[p.a := if p.first == p.a then n else 0, p.b := if p.first == p.a then 0 else n]
  }

  lemma OneMoreTick(p: Pair, n: nat)
    requires PairOk(p)
    ensures RunOf(p, Ticks(0)) == Start(p)
    ensures RunOf(p, Ticks(n + 1)) == FairStep(RunOf(p, Ticks(n)), [p.a, p.b], Tick(false))
  {
    assert Ticks(n + 1)[..n] == Ticks(n);
  }

  function Heavy(p: Pair, n: nat): Fair
    requires PairOk(p)
  {
    Fair(Start(p).shares, p.first, Served(p, n))
  }

  /** A task whose weight is above 1024000 pays nothing, so once it runs nobody else does. */
  lemma {:induction false} HeavyTakesAll(p: Pair, n: nat)
    requires PairOk(p) && Delta(if p.first == p.a then p.wa else p.wb) == 0
    ensures RunOf(p, Ticks(n)) == Heavy(p, n)
  {
    if n == 0 {
      OneMoreTick(p, 0);
    } else {
      HeavyTakesAll(p, n - 1);
      HeavyNext(p, n - 1);
    }
  }

  lemma HeavyNext(p: Pair, n: nat)
    requires PairOk(p) && Delta(if p.first == p.a then p.wa else p.wb) == 0 && RunOf(p, Ticks(n)) == Heavy(p, n)
    ensures RunOf(p, Ticks(n + 1)) == Heavy(p, n + 1)
  {
    OneMoreTick(p, n);
    HeavyStep(p, RunOf(p, Ticks(n)));
    ServedOnce(p, n);
  }

  lemma ServedOnce(p: Pair, n: nat)
    requires PairOk(p)
    ensures p.first in Served(p, n) && Served(p, n)[p.first := Served(p, n)[p.first] + 1] == Served(p, n + 1)
  {
  }

  lemma HeavyStep(p: Pair, f: Fair)
    requires PairOk(p) && Delta(if p.first == p.a then p.wa else p.wb) == 0
    requires FairOk(f, [p.a, p.b]) && f.current == p.first && f.shares == Start(p).shares
    ensures FairStep(f, [p.a, p.b], Tick(false)) == Fair(f.shares, p.first, f.ticks[p.first := f.ticks[p.first] + 1])
  {
    var s := f.shares[p.first := Ticked(f.shares[p.first])];
    assert s == f.shares;
    assert !Lags(s, [p.a, p.b], p.first);
  }

  /** Weights 2000000 and 1024: the first takes every tick. */
  lemma HeavyExample(n: nat)
    ensures var p := Pair(1, 2, 1, 2000000, 1024, 1);
      RunOf(p, Ticks(n)).ticks == map[1 := n, 2 := 0] && Gap(p, Ticks(n)) == 1024 * n
  {
    HeavyTakesAll(Pair(1, 2, 1, 2000000, 1024, 1), n);
  }

  /**
  Two tasks that start level get service in proportion to their weights, to within a bound that holds
  in all runs, if and only if charge times weight is the same for both and not zero.
  */
  lemma ProportionalIff(p: Pair)
    requires PairOk(p)
    ensures Proportional(p) <==> Delta(p.wa) * p.wa == Delta(p.wb) * p.wb && Delta(p.wa) > 0
  {
    if Delta(p.wa) * p.wa == Delta(p.wb) * p.wb && Delta(p.wa) > 0 {
      EqualProductsBound(p);
    } else {
      forall n: nat ensures !GapAtMost(p, n) { NoBound(p, n); }
    }
  }

  lemma EqualProductsBound(p: Pair)
    requires PairOk(p) && Delta(p.wa) * p.wa == Delta(p.wb) * p.wb && Delta(p.wa) > 0
    ensures GapAtMost(p, (MIN_GRANULARITY + Larger(Delta(p.wa), Delta(p.wb))) * (p.wa * p.wb))
  {
    var k, c := MIN_GRANULARITY + Larger(Delta(p.wa), Delta(p.wb)), Delta(p.wa) * p.wa;
    forall steps: seq<Step> ensures 0 - k * (p.wa * p.wb) <= Gap(p, steps) <= k * (p.wa * p.wb) {
      PairRun(p, steps);
      var r := RunOf(p, steps);
      ScaledCosts(r.ticks[p.a], r.ticks[p.b], Delta(p.wa), Delta(p.wb), p.wa, p.wb, c, k);
      ScaledCosts(r.ticks[p.b], r.ticks[p.a], Delta(p.wb), Delta(p.wa), p.wb, p.wa, c, k);
      Unscaled(Gap(p, steps), c, k * (p.wa * p.wb));
    }
  }

  lemma Unscaled(g: int, c: nat, m: nat)
    requires c > 0 && c * g <= m && c * (0 - g) <= m
    ensures 0 - m <= g <= m
  {
  }

  lemma NoBound(p: Pair, n: nat)
    requires PairOk(p) && !(Delta(p.wa) * p.wa == Delta(p.wb) * p.wb && Delta(p.wa) > 0)
    ensures !GapAtMost(p, n)
  {
    if Delta(p.wa) * p.wa != Delta(p.wb) * p.wb {
      var m := LongRun(p, n) + 1;
      TicksCount(m);
      DriftGrows(p, Ticks(m), n);
    } else {
      HeavyPair(p, n);
    }
  }

  /** Neither task pays: the one that runs first keeps running. */
  lemma HeavyPair(p: Pair, n: nat)
    requires PairOk(p) && Delta(p.wa) == 0 && Delta(p.wb) == 0
    ensures !GapAtMost(p, n)
  {
    HeavyTakesAll(p, n + 1);
    Scaled(1, p.wa, n + 1);
    Scaled(1, p.wb, n + 1);
    assert Gap(p, Ticks(n + 1)) == if p.first == p.a then (n + 1) * p.wb else 0 - (n + 1) * p.wa;
  }
}
