/**
The completely fair scheduler: its ready queue, and one core that runs a closed population with it.
The runs it can have are those of `CfsRuns`.
*/
module Cfs {
  import opened KernelConfig
  import opened Distinctness
  import opened CfsRuns

  /** The queue is in the order of virtual runtime and address. */
  ghost predicate Ordered(s: Shares, q: seq<nat>) {
    && (forall i | 0 <= i < |q| :: q[i] in s)
    && (forall i, j | 0 <= i < j < |q| :: Before(s, q[i], q[j]))
  }

  predicate Positive(s: Shares) { forall t | t in s :: s[t].vruntime > 0 }

  class CfsScheduler {
    var shares: Shares
    var queue: seq<nat>
    var minVruntime: nat

    ghost predicate Valid()
      reads this
    {
      Ordered(shares, queue) && Distinct(queue)
    }

    constructor (all: Shares)
      ensures Valid() && shares == all && queue == [] && minVruntime == 0
    {
      shares, queue, minVruntime := all, [], 0;
    }

    /** How a task enters the queue: a new one starts at the current minimum, weight 0 means the default. */
    function Entering(s: Share): Share
      reads this
    {
      Share(if s.vruntime == 0 then minVruntime else s.vruntime, if s.weight == 0 then DEFAULT_WEIGHT else s.weight)
    }

    /** The minimum is the least virtual runtime in the queue. */
    ghost predicate MinIsLeast()
      requires Valid()
      reads this
    {
      queue != [] ==> minVruntime == shares[queue[0]].vruntime
    }

    /** No queued task is behind t, and some queued task other than t is level with it, if there is one. */
    ghost predicate Level(t: nat)
      requires Valid() && t in shares
      reads this
    {
      && (forall i | 0 <= i < |queue| :: shares[t].vruntime <= shares[queue[i]].vruntime)
      && (|queue| > 1 ==> exists i ::
          0 <= i < |queue| && queue[i] != t && shares[queue[i]].vruntime == shares[t].vruntime)
    }

    method Enqueue(t: nat)
      requires Valid() && t in shares && t !in queue
      modifies this`shares, this`queue
      ensures Valid() && shares == old(shares)[t := old(Entering(shares[t]))]
      ensures shares[t].vruntime == if old(shares[t]).vruntime == 0 then minVruntime else old(shares[t]).vruntime
      ensures shares[t].weight == if old(shares[t]).weight == 0 then 1024 else old(shares[t]).weight
      ensures old(shares[t]).vruntime == 0 && old(MinIsLeast()) && |old(queue)| < MAX_READY ==> MinIsLeast() && Level(t)
      ensures old(queue) != [] && old(MinIsLeast()) && |old(queue)| < MAX_READY ==>
        (MinIsLeast() <==> shares[t].vruntime >= minVruntime)
      ensures |old(queue)| >= MAX_READY ==> queue == old(queue)
      ensures |old(queue)| < MAX_READY ==> multiset(queue) == multiset(old(queue)) + multiset{t}
    {
      shares := shares[t := Entering(shares[t])];
      if |queue| >= MAX_READY {
        return;
      }
      var i := 0;
      while i < |queue| && Before(shares, queue[i], t)
        invariant i <= |queue|
        invariant forall j | 0 <= j < i :: Before(shares, queue[j], t)
      {
        i := i + 1;
      }
      InsertOrdered(shares, queue, i, t);
      InsertDistinct(queue, i, t);
      ghost var first := if i > 0 then 0 else 1;
      queue := queue[..i] + [t] + queue[i..];
      assert old(queue) != [] ==> queue[first] == old(queue)[0];
    }

    /** Takes out the first task, which comes before all others, and updates the minimum. */
    method PickNext() returns (next: nat)
      requires Valid() && queue != []
      modifies this`queue, this`minVruntime
      ensures Valid() && next == old(queue)[0] && queue == old(queue)[1..] && next in shares && next !in queue
      ensures forall i | 0 <= i < |queue| :: Before(shares, next, queue[i])
      ensures minVruntime == if queue == [] then shares[next].vruntime else shares[queue[0]].vruntime
      ensures MinIsLeast()
    {
      next := queue[0];
      DistinctTail(queue);
      queue := queue[1..];
      minVruntime := if queue != [] then shares[queue[0]].vruntime else shares[next].vruntime;
    }

    /** Charges the tick; asks for preemption exactly when a queued task is behind by more than the granularity. */
    method OnTick(current: nat) returns (preempt: bool)
      requires Valid() && current in shares && current !in queue && shares[current].weight > 0
      modifies this`shares
      ensures Valid() && shares == old(shares)[current := Ticked(old(shares)[current])]
      ensures preempt <==> Lags(shares, queue, current)
    {
      var delta := DEFAULT_WEIGHT * 1000 / shares[current].weight;
      shares := shares[current := shares[current].(vruntime := shares[current].vruntime + delta)];
      if queue != [] {
        if shares[queue[0]].vruntime + MIN_GRANULARITY < shares[current].vruntime {
          return true;
        }
      }
      return false;
    }
  }

  function Inserted(q: seq<nat>, i: nat, t: nat): (r: seq<nat>)
    requires i <= |q|
    ensures |r| == |q| + 1 && r[i] == t
    ensures forall k | 0 <= k < i :: r[k] == q[k]
    ensures forall k | i < k < |r| :: r[k] == q[k - 1]
  {
    q[..i] + [t] + q[i..]
  }

  lemma InsertDistinct(q: seq<nat>, i: nat, t: nat)
    requires Distinct(q) && i <= |q| && t !in q
    ensures Distinct(Inserted(q, i, t)) && multiset(Inserted(q, i, t)) == multiset(q) + multiset{t}
  {
    var r := Inserted(q, i, t);
    forall j: nat, k: nat | j < k < |r| ensures Differ(r, j, k) {
      if j != i && k != i {
        assert Differ(q, if j < i then j else j - 1, if k < i then k else k - 1);
      }
    }
    assert q == q[..i] + q[i..];
  }

  lemma InsertOrdered(s: Shares, q: seq<nat>, i: nat, t: nat)
    requires Ordered(s, q) && i <= |q| && t in s && t !in q
    requires forall j | 0 <= j < i :: Before(s, q[j], t)
    requires i < |q| ==> !Before(s, q[i], t)
    ensures Ordered(s, Inserted(q, i, t))
  {
    var r := Inserted(q, i, t);
    forall j, k | 0 <= j < k < |r| ensures Before(s, r[j], r[k]) {
      var j', k' := if j <= i then j else j - 1, if k <= i then k else k - 1;
      assert k > i ==> r[k] == q[k'];
      assert j < i ==> r[j] == q[j'];
      assert j == i && k > i ==> Before(s, t, q[i]);
    }
  }

  /** The first of a queue that holds everyone is the first of the population. */
  lemma FrontIsFirst(s: Shares, q: seq<nat>, order: seq<nat>)
    requires Ordered(s, q) && q != [] && order != []
    requires (forall t :: t in s <==> t in order) && forall t | t in s :: t in q
    ensures q[0] == First(s, order)
  {
    var f := First(s, order);
    FirstIsLeast(s, order, q[0]);
    var i :| 0 <= i < |q| && q[i] == f;
  }

  /** Whether someone lags does not depend on whether the running task is listed. */
  lemma SameLags(s: Shares, q: seq<nat>, order: seq<nat>, current: nat)
    requires (forall t :: t in s <==> t in order) && current in s && (forall i | 0 <= i < |q| :: q[i] in s)
    requires forall t | t in s && t != current :: t in q
    ensures Lags(s, q, current) == Lags(s, order, current)
  {
    if Lags(s, q, current) {
      var i :| 0 <= i < |q| && s[q[i]].vruntime + MIN_GRANULARITY < s[current].vruntime;
      var j :| 0 <= j < |order| && order[j] == q[i];
    }
    if Lags(s, order, current) {
      var j :| 0 <= j < |order| && order[j] in s && s[order[j]].vruntime + MIN_GRANULARITY < s[current].vruntime;
      var i :| 0 <= i < |q| && q[i] == order[j];
    }
  }

  /** One core with a closed population of tasks: ticks and reschedules, in any number and order. */
  class FairCore {
    const sched: CfsScheduler
    var current: nat
    ghost const order: seq<nat>
    ghost var ticks: map<nat, nat>

    /** What the core has done so far. */
    ghost function State(): Fair
      reads this, sched
    {
      Fair(sched.shares, current, ticks)
    }

    /** Everyone but the running task is queued. */
    ghost predicate Valid()
      reads this, sched
    {
      && sched.Valid() && FairOk(State(), order) && Positive(sched.shares) && |order| <= MAX_READY
      && current !in sched.queue && (forall t | t in sched.shares && t != current :: t in sched.queue)
    }

    /** The population is queued; the first of the queue runs. */
    constructor (s: CfsScheduler, ghost all: seq<nat>)
      requires s.Valid() && s.queue != [] && (forall t | t in s.shares :: t in s.queue)
      requires Distinct(all) && all != [] && |all| <= MAX_READY && (forall t :: t in s.shares <==> t in all)
      requires Positive(s.shares) && forall t | t in s.shares :: s.shares[t].weight > 0
      modifies s
      ensures Valid() && sched == s && s.shares == old(s.shares) && order == all && current == First(s.shares, all)
      ensures forall t | t in s.shares :: t in ticks && ticks[t] == 0
    {
      FrontIsFirst(s.shares, s.queue, all);
      var first := s.PickNext();
      current := first;
      sched := s;
      order := all;
      ticks := map t | t in s.shares :: 0;
    }

    /** The running task goes back to the queue and the first of the queue runs. */
    method Reschedule()
      requires Valid()
      modifies this`current, sched
      ensures Valid() && State() == FairStep(old(State()), order, Yield)
    {
      PutBack();
      FrontIsFirst(sched.shares, sched.queue, order);
      current := sched.PickNext();
    }

    method PutBack()
      requires Valid()
      modifies sched
      ensures sched.Valid() && sched.shares == old(sched.shares) && sched.queue != []
      ensures forall t | t in sched.shares :: t in sched.queue
    {
      QueueFits();
      ghost var q := sched.queue;
      sched.Enqueue(current);
      assert sched.shares == old(sched.shares);
      assert current in multiset(sched.queue);
      forall t | t in sched.shares ensures t in sched.queue {
        assert t == current || t in q;
        assert t in multiset(sched.queue);
      }
    }

    lemma QueueFits()
      requires Valid()
      ensures |sched.queue| < MAX_READY
    {
      DistinctWithin(sched.queue, SetOf(order) - {current});
      SetOfSize(order);
    }

    /** A tick; the time slice may be over as well. */
    method Tick(sliceOver: bool)
      requires Valid()
      modifies this`current, this`ticks, sched
      ensures Valid() && State() == FairStep(old(State()), order, CfsRuns.Tick(sliceOver))
    {
      var preempt := Charge();
      if preempt || sliceOver {
        Reschedule();
      }
    }

    /** The tick handler up to the decision. */
    method Charge() returns (preempt: bool)
      requires Valid()
      modifies this`ticks, sched
      ensures Valid() && preempt == Lags(sched.shares, order, current) && current == old(current)
      ensures sched.shares == old(sched.shares)[current := Ticked(old(sched.shares)[current])]
      ensures ticks == old(ticks)[current := old(ticks)[current] + 1]
    {
      preempt := sched.OnTick(current);
      ticks := ticks[current := ticks[current] + 1];
      SameLags(sched.shares, sched.queue, order, current);
    }

    /** The core does exactly what `FairExec` says, so what holds of all runs there holds here. */
    method Run(steps: seq<Step>)
      requires Valid()
      modifies this`current, this`ticks, sched
      ensures Valid() && State() == FairExec(old(State()), order, steps)
      ensures forall start, d | FairInv(old(State()), start, d) :: FairInv(State(), start, d)
    {
      for i := 0 to |steps|
        invariant Valid() && State() == FairExec(old(State()), order, steps[..i])
      {
        match steps[i] {
          case Tick(sliceOver) => Tick(sliceOver);
          case Yield => Reschedule();
        }
        assert steps[..i + 1][..i] == steps[..i];
      }
      assert steps[..|steps|] == steps;
      forall start, d | FairInv(old(State()), start, d) ensures FairInv(State(), start, d) {
        EveryRunIsFair(old(State()), order, steps, start, d);
      }
    }
  }
}
