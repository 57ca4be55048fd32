/**
Task states and the containers of one core, as values. A container `holds` a place when it lists
exactly the tasks whose state puts them there, each once; so if every container holds its own
place, each task is in exactly the one container that fits its state.
*/
module TaskPlacement {
  import opened Distinctness

  datatype Status = UnInit | Ready | Running | Sleeping | Blocked | Exited | Zombie

  datatype Message = Schedule | Yield | Sleep | Block | Wakeup | Exit(hasParent: bool) | Reap

  /** The transitions; a message that a state does not expect leaves it as it is. */
  function Receive(s: Status, m: Message): Status {
    match (s, m)
    case (UnInit, Schedule) => Ready
    case (Ready, Schedule) => Running
    case (Running, Yield) => Ready
    case (Running, Sleep) => Sleeping
    case (Running, Block) => Blocked
    case (Running, Exit(hasParent)) => if hasParent then Zombie else Exited
    case (Sleeping, Wakeup) => Ready
    case (Blocked, Wakeup) => Ready
    case (Zombie, Reap) => Exited
    case _ => s
  }

  datatype Policy = RealTime | Normal | Idle

  datatype Task = Task(status: Status, policy: Policy, blockedOn: nat, wakeTick: nat, slice: nat, sliceDefault: nat)

  type Tasks = map<nat, Task>

  datatype Place = Nowhere | ReadyQueue(policy: Policy) | SleepQueue | BlockedOn(resource: nat)

  function PlaceOf(t: Task): Place {
    match t.status
    case Ready => ReadyQueue(t.policy)
    case Sleeping => SleepQueue
    case Blocked => BlockedOn(t.blockedOn)
    case _ => Nowhere
  }

  ghost predicate Holds(ts: Tasks, q: seq<nat>, p: Place) {
    && Distinct(q)
    && (forall i | 0 <= i < |q| :: q[i] in ts && PlaceOf(ts[q[i]]) == p)
    && (forall t | t in ts && PlaceOf(ts[t]) == p :: t in q)
  }

  // ---------------------------------------------------------------------------------------------
  // One task changes
  // ---------------------------------------------------------------------------------------------

  /** A change of a task that neither was here nor comes here. */
  lemma HoldsElsewhere(ts: Tasks, t: nat, v: Task, q: seq<nat>, p: Place)
    requires Holds(ts, q, p) && (t in ts ==> PlaceOf(ts[t]) != p) && PlaceOf(v) != p
    ensures Holds(ts[t := v], q, p)
  {
  }

  lemma HoldsPushed(ts: Tasks, t: nat, v: Task, q: seq<nat>, p: Place)
    requires Holds(ts, q, p) && (t in ts ==> PlaceOf(ts[t]) != p) && PlaceOf(v) == p
    ensures Holds(ts[t := v], q + [t], p)
  {
    DistinctSnoc(q, t);
    forall u | u in ts[t := v] && PlaceOf(ts[t := v][u]) == p ensures u in q + [t] {
      if u != t { assert u in q; }
    }
  }

  lemma HoldsRemoved(ts: Tasks, t: nat, v: Task, q: seq<nat>, k: nat, p: Place)
    requires Holds(ts, q, p) && k < |q| && q[k] == t && PlaceOf(v) != p
    ensures Holds(ts[t := v], Without(q, k), p)
  {
    DropOne(q, k);
    var r := Without(q, k);
    forall u | u in ts[t := v] && PlaceOf(ts[t := v][u]) == p ensures u in r {
      var i :| 0 <= i < |q| && q[i] == u;
      assert r[if i < k then i else i - 1] == u;
    }
    forall i | 0 <= i < |r| ensures r[i] in ts[t := v] && PlaceOf(ts[t := v][r[i]]) == p {
      assert r[i] == q[if i < k then i else i + 1];
    }
  }

  // ---------------------------------------------------------------------------------------------
  // Capacity
  // ---------------------------------------------------------------------------------------------

  predicate Dead(t: Task) { t.status == Zombie || t.status == Exited }

  /** The tasks of a policy that can still become ready. */
  function Living(ts: Tasks, p: Policy): set<nat> { set t | t in ts && ts[t].policy == p && !Dead(ts[t]) }

  /** A ready queue that misses a living task of its policy is shorter than the number of these tasks. */
  lemma RoomFor(ts: Tasks, q: seq<nat>, p: Policy, t: nat)
    requires Holds(ts, q, ReadyQueue(p)) && t in Living(ts, p) && ts[t].status != Ready
    ensures |q| < |Living(ts, p)|
  {
    DistinctWithin(q, Living(ts, p) - {t});
  }

  lemma LivingBound(ts: Tasks, q: seq<nat>, p: Policy)
    requires Holds(ts, q, ReadyQueue(p))
    ensures |q| <= |Living(ts, p)|
  {
    DistinctWithin(q, Living(ts, p));
  }

  /** Changes of state among the living do not count, and the dead do not count either. */
  lemma LivingKept(ts: Tasks, t: nat, v: Task, p: Policy)
    requires t in ts && v.policy == ts[t].policy && (Dead(ts[t]) ==> Dead(v))
    ensures |Living(ts[t := v], p)| <= |Living(ts, p)|
  {
    SubsetSize(Living(ts[t := v], p), Living(ts, p));
  }

  lemma LivingAdded(ts: Tasks, t: nat, v: Task, p: Policy)
    requires t !in ts && !Dead(v)
    ensures |Living(ts[t := v], p)| == |Living(ts, p)| + if p == v.policy then 1 else 0
  {
    assert Living(ts[t := v], p) == Living(ts, p) + if p == v.policy then {t} else {};
  }

  /** Taking a task out of the table that no container lists. */
  lemma HoldsErased(ts: Tasks, t: nat, q: seq<nat>, p: Place)
    requires Holds(ts, q, p) && (t in ts ==> PlaceOf(ts[t]) != p)
    ensures Holds(ts - {t}, q, p)
  {
  }

  /** Enqueueing into a list of bounded capacity: a full list drops the task. */
  function PushBounded(q: seq<nat>, t: nat, capacity: nat): seq<nat> { if |q| >= capacity then q else q + [t] }

  /** A task that becomes ready is in its queue exactly when there was room: at capacity it is lost. */
  lemma PlacedIffRoom(ts: Tasks, t: nat, v: Task, q: seq<nat>, p: Place, capacity: nat)
    requires Holds(ts, q, p) && t in ts && PlaceOf(ts[t]) != p && PlaceOf(v) == p
    ensures Holds(ts[t := v], PushBounded(q, t, capacity), p) <==> |q| < capacity
  {
    HoldsPushed(ts, t, v, q, p);
    if |q| >= capacity {
      assert t !in q;
      assert t in ts[t := v] && PlaceOf(ts[t := v][t]) == p;
    }
  }

  lemma {:induction false} DistinctOnce(q: seq<nat>, t: nat)
    requires Distinct(q)
    ensures multiset(q)[t] == if t in q then 1 else 0
    decreases |q|
  {
    if q != [] {
      DistinctTail(q);
      DistinctOnce(q[1..], t);
      assert q == [q[0]] + q[1..];
      assert t in q <==> t == q[0] || t in q[1..];
    }
  }

  /** A container lists a task of its place once and any other task not at all. */
  lemma HeldOnce(ts: Tasks, q: seq<nat>, p: Place, t: nat)
    requires Holds(ts, q, p) && t in ts
    ensures multiset(q)[t] == if PlaceOf(ts[t]) == p then 1 else 0
  {
    DistinctOnce(q, t);
  }
}
