/** Work stealing between the normal ready queues of any number of cores. */
module Balance {
  import opened KernelConfig

  type Queues = seq<seq<nat>>

  function AllTasks(qs: Queues): multiset<nat> {
    if qs == [] then multiset{} else AllTasks(qs[..|qs| - 1]) + multiset(qs[|qs| - 1])
  }

  /** The imbalance that stealing lowers. */
  function SumOfSquares(qs: Queues): nat {
    if qs == [] then 0 else SumOfSquares(qs[..|qs| - 1]) + |qs[|qs| - 1]| * |qs[|qs| - 1]|
  }

  lemma AddBoth(a: multiset<nat>, b: multiset<nat>, c: multiset<nat>, d: multiset<nat>, m: multiset<nat>)
    requires a + b == c + d
    ensures (a + m) + b == (c + m) + d
  {
    forall x ensures ((a + m) + b)[x] == ((c + m) + d)[x] {
      assert (a + b)[x] == (c + d)[x];
    }
  }

  lemma Cancel(all: multiset<nat>, popped: multiset<nat>, moved: multiset<nat>, x: multiset<nat>, rest: multiset<nat>,
               dest: multiset<nat>)
    requires popped + (x + rest) == all + rest && moved + dest == popped + (dest + x)
    ensures moved == all
  {
    forall y ensures moved[y] == all[y] {
      assert (popped + (x + rest))[y] == (all + rest)[y] && (moved + dest)[y] == (popped + (dest + x))[y];
    }
  }

  lemma {:induction false} AllTasksUpdated(qs: Queues, i: nat, q: seq<nat>)
    requires i < |qs|
    ensures AllTasks(qs[i := q]) + multiset(qs[i]) == AllTasks(qs) + multiset(q)
    decreases |qs|
  {
    var n := |qs| - 1;
    if i < n {
      AllTasksUpdated(qs[..n], i, q);
      assert qs[i := q][..n] == qs[..n][i := q];
      AddBoth(AllTasks(qs[..n][i := q]), multiset(qs[i]), AllTasks(qs[..n]), multiset(q), multiset(qs[n]));
    } else {
      assert qs[i := q][..n] == qs[..n];
    }
  }

  lemma {:induction false} SquaresUpdated(qs: Queues, i: nat, q: seq<nat>)
    requires i < |qs|
    ensures SumOfSquares(qs[i := q]) + |qs[i]| * |qs[i]| == SumOfSquares(qs) + |q| * |q|
    decreases |qs|
  {
    var n := |qs| - 1;
    if i < n {
      SquaresUpdated(qs[..n], i, q);
      assert qs[i := q][..n] == qs[..n][i := q];
    } else {
      assert qs[i := q][..n] == qs[..n];
    }
  }

  /** The queues after the first task of core `from` went to the end of the queue of core `to`. */
  function Moved(qs: Queues, from: nat, to: nat): Queues
    requires from < |qs| && to < |qs| && qs[from] != []
  {
    var popped := qs[from := qs[from][1..]];
    popped[to := popped[to] + [qs[from][0]]]
  }

  lemma MovedConserves(qs: Queues, from: nat, to: nat)
    requires from < |qs| && to < |qs| && qs[from] != []
    ensures AllTasks(Moved(qs, from, to)) == AllTasks(qs)
  {
    var t, rest := qs[from][0], qs[from][1..];
    var popped := qs[from := rest];
    AllTasksUpdated(qs, from, rest);
    AllTasksUpdated(popped, to, popped[to] + [t]);
    assert qs[from] == [t] + rest && multiset(qs[from]) == multiset([t]) + multiset(rest);
    Cancel(AllTasks(qs), AllTasks(popped), AllTasks(Moved(qs, from, to)), multiset([t]), multiset(rest),
           multiset(popped[to]));
  }

  lemma SquareArithmetic(s: nat, d: nat)
    requires s >= d + 2
    ensures (s - 1) * (s - 1) + (d + 1) * (d + 1) + 2 <= s * s + d * d
  {
    assert (s - 1) * (s - 1) == s * s - 2 * s + 1;
    assert (d + 1) * (d + 1) == d * d + 2 * d + 1;
  }

  /** A steal from a queue that is longer by two or more lowers the sum of squares by at least two. */
  lemma StealLowersSquares(qs: Queues, from: nat, to: nat)
    requires from < |qs| && to < |qs| && |qs[from]| >= |qs[to]| + 2
    ensures SumOfSquares(Moved(qs, from, to)) + 2 <= SumOfSquares(qs)
  {
    var popped := qs[from := qs[from][1..]];
    SquaresUpdated(qs, from, qs[from][1..]);
    SquaresUpdated(popped, to, popped[to] + [qs[from][0]]);
    SquareArithmetic(|qs[from]|, |qs[to]|);
  }

  lemma RotatedIn(qs: Queues, i: nat, rest: seq<nat>, rotated: seq<nat>)
    requires i < |qs|
    ensures qs[i := rest][i := rotated] == qs[i := rotated]
  {
  }

  /** A task sent back to its own queue changes no length. */
  lemma RotationKeepsSquares(qs: Queues, i: nat)
    requires i < |qs| && qs[i] != []
    ensures SumOfSquares(Moved(qs, i, i)) == SumOfSquares(qs)
  {
    var rotated := qs[i][1..] + [qs[i][0]];
    SquaresUpdated(qs, i, rotated);
    RotatedIn(qs, i, qs[i][1..], rotated);
  }

  // ---------------------------------------------------------------------------------------------
  // One call of Balance
  // ---------------------------------------------------------------------------------------------

  /** Which cores have their schedulers, and on which cores a pinned task may run; others may run anywhere. */
  datatype Setup = Setup(online: seq<bool>, mask: map<nat, set<nat>>)
  {
    predicate Allowed(t: nat, core: nat) { t in mask ==> core in mask[t] }
  }

  /** A call on a core, with the loads it saw without a lock, which may be out of date. */
  datatype Call = Call(core: nat, seen: seq<nat>)

  /** What a call does: nothing, send the first task of a queue to its own end, or take it. */
  datatype Action = Idle | Rotate(from: nat) | Steal(from: nat)

  predicate CallOk(s: Setup, qs: Queues, c: Call) { |s.online| == |qs| == |c.seen| && c.core < |qs| }

  /** The first of the other cores that were seen with the largest load. */
  ghost predicate IsBusiest(s: Setup, c: Call, core: nat)
    requires |s.online| == |c.seen|
  {
    && core < |c.seen| && core != c.core && s.online[core] && c.seen[core] > 0
    && forall i | 0 <= i < |c.seen| && i != c.core && s.online[i] ::
      c.seen[i] <= c.seen[core] && (i < core ==> c.seen[i] < c.seen[core])
  }

  /** The core is worth taking from, by the loads seen and by the queues as they are. */
  ghost predicate Overloaded(s: Setup, qs: Queues, c: Call, core: nat)
    requires CallOk(s, qs, c)
  {
    && s.online[c.core] && IsBusiest(s, c, core)
    && c.seen[core] > c.seen[c.core] + 1 && |qs[core]| > |qs[c.core]| + 1
  }

  /** Exactly when a call takes a task, sends one to the end of its own queue, or does nothing. */
  ghost predicate Decides(s: Setup, qs: Queues, c: Call, a: Action)
    requires CallOk(s, qs, c)
  {
    && (a.Idle? <==> forall core :: !Overloaded(s, qs, c, core))
    && (!a.Idle? ==> Overloaded(s, qs, c, a.from) && (a.Steal? <==> s.Allowed(qs[a.from][0], c.core)))
  }

  function After(qs: Queues, c: Call, a: Action): Queues
    requires c.core < |qs| && (!a.Idle? ==> a.from < |qs| && qs[a.from] != [])
  {
    match a
    case Idle => qs
    case Rotate(from) => Moved(qs, from, from)
    case Steal(from) => Moved(qs, from, c.core)
  }

  /** There is one busiest core at most, so a call has one outcome. */
  lemma DecisionIsUnique(s: Setup, qs: Queues, c: Call, a: Action, b: Action)
    requires CallOk(s, qs, c) && Decides(s, qs, c, a) && Decides(s, qs, c, b)
    ensures a == b
  {
    if !a.Idle? && !b.Idle? {
      assert IsBusiest(s, c, a.from) && IsBusiest(s, c, b.from);
    }
  }

  ghost predicate Bounded(qs: Queues) { forall i | 0 <= i < |qs| :: |qs[i]| <= MAX_READY }

  /** A task that is on a core where it was not before is allowed there. */
  ghost predicate MasksKept(s: Setup, qs: Queues, qs': Queues) {
    |qs'| == |qs| && forall i, t | 0 <= i < |qs| && t in qs'[i] && t !in qs[i] :: s.Allowed(t, i)
  }

  /** What every decision keeps, and what it does to the imbalance. */
  lemma DecisionKeeps(s: Setup, qs: Queues, c: Call, a: Action)
    requires CallOk(s, qs, c) && Decides(s, qs, c, a) && Bounded(qs)
    ensures var qs' := After(qs, c, a);
      && Bounded(qs') && MasksKept(s, qs, qs') && AllTasks(qs') == AllTasks(qs)
      && SumOfSquares(qs') + (if a.Steal? then 2 else 0) <= SumOfSquares(qs)
  {
    match a
    case Idle =>
    case Rotate(from) =>
      MovedConserves(qs, from, from);
      RotationKeepsSquares(qs, from);
    case Steal(from) =>
      MovedConserves(qs, from, c.core);
      StealLowersSquares(qs, from, c.core);
  }

  class Cores {
    var queues: Queues
    const setup: Setup

    ghost predicate Valid()
      reads this
    {
      |setup.online| == |queues| && Bounded(queues)
    }

    constructor (qs: Queues, s: Setup)
      requires |s.online| == |qs| && Bounded(qs)
      ensures Valid() && queues == qs && setup == s
    {
      queues, setup := qs, s;
    }

    /** The end of a bounded queue; a full one drops the task. */
    method Enqueue(core: nat, t: nat)
      requires core < |queues|
      modifies this`queues
      ensures queues == if |old(queues)[core]| >= MAX_READY then old(queues)
                        else old(queues)[core := old(queues)[core] + [t]]
    {
      if |queues[core]| >= MAX_READY {
        return;
      }
      queues := queues[core := queues[core] + [t]];
    }

    /** The busiest other core by the loads seen, or the own one when all others were seen empty. */
    method Busiest(c: Call) returns (core: nat, load: nat)
      requires CallOk(setup, queues, c)
      ensures core == c.core ==> load == 0 && forall i :: !IsBusiest(setup, c, i)
      ensures core != c.core ==> IsBusiest(setup, c, core) && load == c.seen[core]
    {
      load, core := 0, c.core;
      for i := 0 to |setup.online|
        invariant core == c.core ==> load == 0
        invariant core != c.core ==> core < i && setup.online[core] && c.seen[core] == load > 0
        invariant forall j | 0 <= j < i && j != c.core && setup.online[j] ::
          c.seen[j] <= load && (core != c.core && j < core ==> c.seen[j] < load)
      {
        if i != c.core && setup.online[i] && c.seen[i] > load {
          load, core := c.seen[i], i;
        }
      }
    }

    /**
    Takes a task exactly from an overloaded core and exactly when the task is allowed here; a task that is
    not goes to the end of its own queue, and nothing else ever changes.
    */
    method Balance(c: Call) returns (a: Action)
      requires Valid() && CallOk(setup, queues, c)
      modifies this`queues
      ensures Valid() && Decides(setup, old(queues), c, a) && queues == After(old(queues), c, a)
    {
      var load := if setup.online[c.core] then c.seen[c.core] else 0;
      var core, max := Busiest(c);
      OnlyBusiest(setup, queues, c, core);
      if core == c.core || max <= load + 1 {
        return Idle;
      }
      if !setup.online[c.core] {
        return Idle;
      }
      var source, dest := |queues[core]|, |queues[c.core]|;
      if source <= dest + 1 {
        return Idle;
      }
      assert Overloaded(setup, queues, c, core);
      var stolen := queues[core][0];
      a := if setup.Allowed(stolen, c.core) then Steal(core) else Rotate(core);
      DecisionKeeps(setup, queues, c, a);
      queues := queues[core := queues[core][1..]];
      if !setup.Allowed(stolen, c.core) {
        Enqueue(core, stolen);
        return;
      }
      Enqueue(c.core, stolen);
    }
  }

  lemma OnlyBusiest(s: Setup, qs: Queues, c: Call, core: nat)
    requires CallOk(s, qs, c) && (core == c.core ==> forall i :: !IsBusiest(s, c, i))
    requires core != c.core ==> IsBusiest(s, c, core)
    ensures forall i | Overloaded(s, qs, c, i) :: i == core
  {
    forall i | Overloaded(s, qs, c, i) ensures i == core {
      assert IsBusiest(s, c, i);
    }
  }

  // ---------------------------------------------------------------------------------------------
  // Runs
  // ---------------------------------------------------------------------------------------------

  /** The queues before and after each call of a run, and what each call did. */
  datatype Trace = Trace(queues: seq<Queues>, actions: seq<Action>)

  ghost predicate StepOk(s: Setup, qs: Queues, c: Call, a: Action, qs': Queues) {
    CallOk(s, qs, c) && Decides(s, qs, c, a) && qs' == After(qs, c, a)
  }

  ghost predicate Traced(s: Setup, calls: seq<Call>, tr: Trace) {
    && |tr.actions| == |calls| && |tr.queues| == |calls| + 1
    && (forall k | 0 <= k < |tr.queues| :: |tr.queues[k]| == |s.online|)
    && Bounded(tr.queues[0])
    && forall k | 0 <= k < |calls| :: StepOk(s, tr.queues[k], calls[k], tr.actions[k], tr.queues[k + 1])
  }

  lemma {:induction false} StaysBounded(s: Setup, calls: seq<Call>, tr: Trace, k: nat)
    requires Traced(s, calls, tr) && k <= |calls|
    ensures Bounded(tr.queues[k])
  {
    if k > 0 {
      StaysBounded(s, calls, tr, k - 1);
      assert StepOk(s, tr.queues[k - 1], calls[k - 1], tr.actions[k - 1], tr.queues[k - 1 + 1]);
      DecisionKeeps(s, tr.queues[k - 1], calls[k - 1], tr.actions[k - 1]);
    }
  }

  lemma MasksTwice(s: Setup, a: Queues, b: Queues, c: Queues)
    requires MasksKept(s, a, b) && MasksKept(s, b, c)
    ensures MasksKept(s, a, c)
  {
  }

  /** Between any two points of a run no task is lost or misplaced, and each steal has lowered the imbalance. */
  lemma {:induction false} RunKeeps(s: Setup, calls: seq<Call>, tr: Trace, from: nat, end: nat)
    requires Traced(s, calls, tr) && from <= end <= |calls|
    ensures AllTasks(tr.queues[end]) == AllTasks(tr.queues[from])
    ensures MasksKept(s, tr.queues[from], tr.queues[end])
    ensures SumOfSquares(tr.queues[end]) + 2 * Steals(tr.actions[from..end]) <= SumOfSquares(tr.queues[from])
    decreases end
  {
    if from < end {
      var k := end - 1;
      RunKeeps(s, calls, tr, from, k);
      StaysBounded(s, calls, tr, k);
      assert StepOk(s, tr.queues[k], calls[k], tr.actions[k], tr.queues[k + 1]);
      DecisionKeeps(s, tr.queues[k], calls[k], tr.actions[k]);
      MasksTwice(s, tr.queues[from], tr.queues[k], tr.queues[end]);
      assert tr.actions[from..end][..k - from] == tr.actions[from..k];
    }
  }

  /** How many of the calls took a task. */
  function Steals(actions: seq<Action>): nat {
    if actions == [] then 0 else Steals(actions[..|actions| - 1]) + if actions[|actions| - 1].Steal? then 1 else 0
  }

  /** The queues of any two cores with a scheduler differ by at most one. */
  ghost predicate Level(s: Setup, qs: Queues) {
    |qs| == |s.online| &&
    forall i, j | 0 <= i < |qs| && 0 <= j < |qs| && s.online[i] && s.online[j] :: |qs[i]| <= |qs[j]| + 1
  }

  /** The loads seen are the lengths of the queues. */
  predicate UpToDate(qs: Queues, c: Call) { |c.seen| == |qs| && forall i | 0 <= i < |qs| :: c.seen[i] == |qs[i]| }

  /** The core with the longest queue, by what was seen, apart from the own one. */
  lemma {:induction false} BusiestExists(s: Setup, c: Call, n: nat, i: nat) returns (core: nat)
    requires |s.online| == |c.seen| && n <= |c.seen| && i < n && i != c.core && s.online[i] && c.seen[i] > 0
    ensures core < n && core != c.core && s.online[core] && c.seen[core] > 0
    ensures forall j | 0 <= j < n && j != c.core && s.online[j] ::
      c.seen[j] <= c.seen[core] && (j < core ==> c.seen[j] < c.seen[core])
  {
    if j :| 0 <= j < n - 1 && j != c.core && s.online[j] && c.seen[j] > 0 {
      core := BusiestExists(s, c, n - 1, j);
      if n - 1 != c.core && s.online[n - 1] && c.seen[n - 1] > c.seen[core] {
        core := n - 1;
      }
    } else {
      core := n - 1;
    }
  }

  /** With loads up to date and a core longer by two, a call on the shorter one does not stay idle. */
  lemma UnevenActs(s: Setup, qs: Queues, c: Call, a: Action, i: nat)
    requires CallOk(s, qs, c) && Decides(s, qs, c, a) && UpToDate(qs, c) && s.online[c.core]
    requires i < |qs| && s.online[i] && |qs[i]| > |qs[c.core]| + 1
    ensures !a.Idle?
  {
    var core := BusiestExists(s, c, |c.seen|, i);
    assert IsBusiest(s, c, core) && Overloaded(s, qs, c, core);
  }

  lemma LevelIdles(s: Setup, qs: Queues, c: Call, a: Action)
    requires CallOk(s, qs, c) && Decides(s, qs, c, a) && Level(s, qs)
    ensures a.Idle?
  {
    assert forall core :: !Overloaded(s, qs, c, core);
  }

  /** Calls from one point of a run to another that see the queues as they are, on every core at least once. */
  ghost predicate Round(s: Setup, calls: seq<Call>, tr: Trace, from: nat, end: nat)
    requires Traced(s, calls, tr)
  {
    && from <= end <= |calls| && (forall k | from <= k < end :: UpToDate(tr.queues[k], calls[k]))
    && forall i | 0 <= i < |s.online| && s.online[i] :: exists k | from <= k < end :: calls[k].core == i
  }

  /** As long as nothing is taken and no mask refuses, the queues stay as they are. */
  lemma {:induction false} QuietStays(s: Setup, calls: seq<Call>, tr: Trace, from: nat, end: nat)
    requires Traced(s, calls, tr) && from <= end <= |calls|
    requires forall k | from <= k < end :: tr.actions[k].Idle?
    ensures tr.queues[end] == tr.queues[from]
    decreases end
  {
    if from < end {
      QuietStays(s, calls, tr, from, end - 1);
      assert StepOk(s, tr.queues[end - 1], calls[end - 1], tr.actions[end - 1], tr.queues[end - 1 + 1]);
    }
  }

  lemma {:induction false} LevelStays(s: Setup, calls: seq<Call>, tr: Trace, from: nat, end: nat)
    requires Traced(s, calls, tr) && from <= end <= |calls| && Level(s, tr.queues[from])
    ensures tr.queues[end] == tr.queues[from] && forall k | from <= k < end :: tr.actions[k].Idle?
    decreases end
  {
    if from < end {
      LevelStays(s, calls, tr, from, end - 1);
      assert StepOk(s, tr.queues[end - 1], calls[end - 1], tr.actions[end - 1], tr.queues[end - 1 + 1]);
      LevelIdles(s, tr.queues[end - 1], calls[end - 1], tr.actions[end - 1]);
    }
  }

  /** A round without pinned tasks takes nothing if and only if the queues are level. */
  lemma QuietRoundIff(s: Setup, calls: seq<Call>, tr: Trace, from: nat, end: nat)
    requires Traced(s, calls, tr) && Round(s, calls, tr, from, end) && s.mask == map[]
    ensures Level(s, tr.queues[from]) <==> forall k | from <= k < end :: !tr.actions[k].Steal?
  {
    if Level(s, tr.queues[from]) {
      LevelStays(s, calls, tr, from, end);
    } else if forall k | from <= k < end :: !tr.actions[k].Steal? {
      forall k | from <= k < end ensures tr.actions[k].Idle? {
        assert StepOk(s, tr.queues[k], calls[k], tr.actions[k], tr.queues[k + 1]);
      }
      var qs := tr.queues[from];
      var i, j :| 0 <= i < |qs| && 0 <= j < |qs| && s.online[i] && s.online[j] && |qs[i]| > |qs[j]| + 1;
      var k :| from <= k < end && calls[k].core == j;
      QuietStays(s, calls, tr, from, k);
      assert StepOk(s, tr.queues[k], calls[k], tr.actions[k], tr.queues[k + 1]);
      UnevenActs(s, qs, calls[k], tr.actions[k], i);
      assert false;
    }
  }

  lemma {:induction false} SomeSteal(actions: seq<Action>, k: nat)
    requires k < |actions| && actions[k].Steal?
    ensures Steals(actions) > 0
    decreases |actions|
  {
    if k < |actions| - 1 { SomeSteal(actions[..|actions| - 1], k); }
  }

  /** The ends of consecutive rounds. */
  ghost predicate Rounds(s: Setup, calls: seq<Call>, tr: Trace, ends: seq<nat>)
    requires Traced(s, calls, tr)
  {
    && |ends| > 0 && (forall r | 0 <= r < |ends| :: ends[r] <= |calls|)
    && forall r | 0 <= r < |ends| - 1 :: Round(s, calls, tr, ends[r], ends[r + 1])
  }

  /** One round takes a task, or finds the queues level and leaves them so. */
  lemma RoundLowers(s: Setup, calls: seq<Call>, tr: Trace, from: nat, end: nat)
    requires Traced(s, calls, tr) && Round(s, calls, tr, from, end) && s.mask == map[]
    ensures if Level(s, tr.queues[from]) then tr.queues[end] == tr.queues[from]
            else SumOfSquares(tr.queues[end]) + 2 <= SumOfSquares(tr.queues[from])
  {
    QuietRoundIff(s, calls, tr, from, end);
    if Level(s, tr.queues[from]) {
      LevelStays(s, calls, tr, from, end);
    } else {
      var k :| from <= k < end && tr.actions[k].Steal?;
      assert tr.actions[from..end][k - from] == tr.actions[k];
      SomeSteal(tr.actions[from..end], k - from);
      RunKeeps(s, calls, tr, from, end);
    }
  }

  /** After r rounds the queues are level, or every round has taken a task. */
  lemma {:induction false} RoundsLower(s: Setup, calls: seq<Call>, tr: Trace, ends: seq<nat>, r: nat)
    requires Traced(s, calls, tr) && s.mask == map[] && Rounds(s, calls, tr, ends) && r < |ends|
    ensures Level(s, tr.queues[ends[r]]) ||
      SumOfSquares(tr.queues[ends[r]]) + 2 * r <= SumOfSquares(tr.queues[ends[0]])
  {
    if r > 0 {
      RoundsLower(s, calls, tr, ends, r - 1);
      assert Round(s, calls, tr, ends[r - 1], ends[r - 1 + 1]);
      RoundLowers(s, calls, tr, ends[r - 1], ends[r]);
    }
  }

  /** Stealing evens out: more rounds than half the sum of squares leave the queues level, for good. */
  lemma RoundsLevel(s: Setup, calls: seq<Call>, tr: Trace, ends: seq<nat>, end: nat)
    requires Traced(s, calls, tr) && s.mask == map[] && Rounds(s, calls, tr, ends)
    requires 2 * (|ends| - 1) > SumOfSquares(tr.queues[ends[0]]) && ends[|ends| - 1] <= end <= |calls|
    ensures Level(s, tr.queues[end])
  {
    RoundsLower(s, calls, tr, ends, |ends| - 1);
    LevelStays(s, calls, tr, ends[|ends| - 1], end);
  }

  /**
  Any run of balancing, with whatever loads are seen: each call does exactly what the loads and the queues
  of its moment decide, there are at most half the sum of squares many steals, no task is lost, and none
  is left where its mask forbids.
  */
  method RunBalance(cores: Cores, calls: seq<Call>) returns (tr: Trace)
    requires cores.Valid() && forall k | 0 <= k < |calls| :: CallOk(cores.setup, cores.queues, calls[k])
    modifies cores
    ensures cores.Valid() && Traced(cores.setup, calls, tr)
    ensures tr.queues[0] == old(cores.queues) && tr.queues[|calls|] == cores.queues
    ensures AllTasks(cores.queues) == AllTasks(old(cores.queues))
    ensures MasksKept(cores.setup, old(cores.queues), cores.queues)
    ensures SumOfSquares(cores.queues) + 2 * Steals(tr.actions) <= SumOfSquares(old(cores.queues))
  {
    tr := Trace([cores.queues], []);
    for k := 0 to |calls|
      invariant cores.Valid() && Traced(cores.setup, calls[..k], tr)
      invariant tr.queues[0] == old(cores.queues) && tr.queues[k] == cores.queues
    {
      ghost var qs := cores.queues;
      var a := cores.Balance(calls[k]);
      ghost var before := tr;
      tr := Trace(tr.queues + [cores.queues], tr.actions + [a]);
      TraceGrows(cores.setup, calls[..k], before, calls[k], a, cores.queues);
      assert calls[..k + 1] == calls[..k] + [calls[k]];
    }
    assert calls[..|calls|] == calls;
    RunKeeps(cores.setup, calls, tr, 0, |calls|);
    assert tr.actions[0..|calls|] == tr.actions;
  }

  lemma TraceGrows(s: Setup, calls: seq<Call>, tr: Trace, c: Call, a: Action, qs: Queues)
    requires Traced(s, calls, tr) && StepOk(s, tr.queues[|calls|], c, a, qs) && |qs| == |s.online|
    ensures Traced(s, calls + [c], Trace(tr.queues + [qs], tr.actions + [a]))
  {
    var calls', tr' := calls + [c], Trace(tr.queues + [qs], tr.actions + [a]);
    forall k | 0 <= k < |calls'| ensures StepOk(s, tr'.queues[k], calls'[k], tr'.actions[k], tr'.queues[k + 1]) {
      if k < |calls| {
        assert StepOk(s, tr.queues[k], calls[k], tr.actions[k], tr.queues[k + 1]);
      }
    }
  }
}
