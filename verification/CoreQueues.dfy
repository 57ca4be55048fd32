/** The containers of one core as values, and what each move of a task between them keeps. */
module CoreQueues {
  import opened Distinctness
  import opened TaskPlacement

  ghost predicate GroupsOk(ts: Tasks, groups: map<nat, seq<nat>>) {
    && (forall r | r in groups :: groups[r] != [] && Holds(ts, groups[r], BlockedOn(r)))
    && (forall t | t in ts && ts[t].status == Blocked :: ts[t].blockedOn in groups)
  }

  /** Every task is in the container of its state; bound, so that only proofs that name AllPlaced look inside. */
  ghost predicate QueuesOk(ts: Tasks, rt: seq<nat>, normal: seq<nat>, sleeping: seq<nat>, groups: map<nat, seq<nat>>) {
    forall us | us == ts :: AllPlaced(us, rt, normal, sleeping, groups)
  }

  ghost predicate AllPlaced(ts: Tasks, rt: seq<nat>, normal: seq<nat>, sleeping: seq<nat>, groups: map<nat, seq<nat>>) {
    && Holds(ts, rt, ReadyQueue(RealTime)) && Holds(ts, normal, ReadyQueue(Normal)) && Holds(ts, sleeping, SleepQueue)
    && GroupsOk(ts, groups)
    && (forall t | t in ts :: ts[t].policy != Idle && ts[t].status != UnInit)
  }

  lemma GroupsElsewhere(ts: Tasks, t: nat, v: Task, groups: map<nat, seq<nat>>)
    requires GroupsOk(ts, groups) && (t in ts ==> ts[t].status != Blocked) && v.status != Blocked
    ensures GroupsOk(ts[t := v], groups)
  {
    forall r | r in groups ensures groups[r] != [] && Holds(ts[t := v], groups[r], BlockedOn(r)) {
      HoldsElsewhere(ts, t, v, groups[r], BlockedOn(r));
    }
  }

  lemma GroupsPushed(ts: Tasks, t: nat, v: Task, groups: map<nat, seq<nat>>, r: nat, list: seq<nat>)
    requires GroupsOk(ts, groups) && (t in ts ==> ts[t].status != Blocked) && PlaceOf(v) == BlockedOn(r)
    requires list == if r in groups then groups[r] else []
    ensures GroupsOk(ts[t := v], groups[r := list + [t]])
  {
    assert Holds(ts, list, BlockedOn(r));
    HoldsPushed(ts, t, v, list, BlockedOn(r));
    forall s | s in groups && s != r ensures groups[s] != [] && Holds(ts[t := v], groups[s], BlockedOn(s)) {
      HoldsElsewhere(ts, t, v, groups[s], BlockedOn(s));
    }
  }

  /** The groups after the first task of a group has left. */
  function Popped(groups: map<nat, seq<nat>>, r: nat): map<nat, seq<nat>>
    requires r in groups && groups[r] != []
  {
    if |groups[r]| == 1 then groups - {r} else groups[r := groups[r][1..]]
  }

  lemma GroupsPopped(ts: Tasks, v: Task, groups: map<nat, seq<nat>>, r: nat)
    requires GroupsOk(ts, groups) && r in groups && v.status != Blocked
    ensures groups[r] != [] && groups[r][0] in ts && PlaceOf(ts[groups[r][0]]) == BlockedOn(r)
    ensures GroupsOk(ts[groups[r][0] := v], Popped(groups, r))
  {
    var t, g := groups[r][0], Popped(groups, r);
    var ts' := ts[t := v];
    HoldsRemoved(ts, t, v, groups[r], 0, BlockedOn(r));
    assert Without(groups[r], 0) == groups[r][1..];
    forall s | s in g ensures g[s] != [] && Holds(ts', g[s], BlockedOn(s)) {
      if s != r { HoldsElsewhere(ts, t, v, groups[s], BlockedOn(s)); }
    }
    forall u | u in ts' && ts'[u].status == Blocked ensures ts'[u].blockedOn in g {
      assert ts[u].blockedOn in groups;
    }
  }

  /** Which ready queue gets the task, if any. */
  function PushIf(q: seq<nat>, t: nat, here: bool): seq<nat> { if here then q + [t] else q }

  /** A task that is in no ready queue becomes ready at the end of the queue of its policy. */
  lemma ReadyPushed(ts: Tasks, t: nat, v: Task, rt: seq<nat>, normal: seq<nat>)
    requires Holds(ts, rt, ReadyQueue(RealTime)) && Holds(ts, normal, ReadyQueue(Normal))
    requires (t in ts ==> ts[t].status != Ready) && v.status == Ready && v.policy != Idle
    ensures Holds(ts[t := v], PushIf(rt, t, v.policy == RealTime), ReadyQueue(RealTime))
    ensures Holds(ts[t := v], PushIf(normal, t, v.policy == Normal), ReadyQueue(Normal))
  {
    if v.policy == RealTime {
      HoldsPushed(ts, t, v, rt, ReadyQueue(RealTime));
      HoldsElsewhere(ts, t, v, normal, ReadyQueue(Normal));
    } else {
      HoldsPushed(ts, t, v, normal, ReadyQueue(Normal));
      HoldsElsewhere(ts, t, v, rt, ReadyQueue(RealTime));
    }
  }

  /** A change between states that no container is for. */
  lemma QueuesElsewhere(ts: Tasks, t: nat, v: Task, rt: seq<nat>, normal: seq<nat>, sleeping: seq<nat>,
                        groups: map<nat, seq<nat>>)
    requires QueuesOk(ts, rt, normal, sleeping, groups) && t in ts && PlaceOf(ts[t]) == Nowhere && PlaceOf(v) == Nowhere
    requires v.policy != Idle && v.status != UnInit
    ensures QueuesOk(ts[t := v], rt, normal, sleeping, groups)
  {
    assert AllPlaced(ts, rt, normal, sleeping, groups);
    HoldsElsewhere(ts, t, v, rt, ReadyQueue(RealTime));
    HoldsElsewhere(ts, t, v, normal, ReadyQueue(Normal));
    HoldsElsewhere(ts, t, v, sleeping, SleepQueue);
    GroupsElsewhere(ts, t, v, groups);
  }

  /** From nowhere to a ready queue: a new task, or the running one that yields. */
  lemma QueuesJoin(ts: Tasks, t: nat, v: Task, rt: seq<nat>, normal: seq<nat>, sleeping: seq<nat>,
                   groups: map<nat, seq<nat>>)
    requires QueuesOk(ts, rt, normal, sleeping, groups) && (t in ts ==> PlaceOf(ts[t]) == Nowhere)
    requires v.status == Ready && v.policy != Idle
    ensures QueuesOk(ts[t := v], PushIf(rt, t, v.policy == RealTime), PushIf(normal, t, v.policy == Normal), sleeping,
                     groups)
  {
    assert AllPlaced(ts, rt, normal, sleeping, groups);
    ReadyPushed(ts, t, v, rt, normal);
    HoldsElsewhere(ts, t, v, sleeping, SleepQueue);
    GroupsElsewhere(ts, t, v, groups);
  }

  /** From the sleep queue to a ready queue. */
  lemma QueuesWake(ts: Tasks, v: Task, rt: seq<nat>, normal: seq<nat>, sleeping: seq<nat>, groups: map<nat, seq<nat>>,
                   k: nat)
    requires QueuesOk(ts, rt, normal, sleeping, groups) && k < |sleeping| && v.status == Ready && v.policy != Idle
    ensures sleeping[k] in ts && ts[sleeping[k]].status == Sleeping
    ensures QueuesOk(ts[sleeping[k] := v], PushIf(rt, sleeping[k], v.policy == RealTime),
                     PushIf(normal, sleeping[k], v.policy == Normal),
                     Without(sleeping, k), groups)
  {
    assert AllPlaced(ts, rt, normal, sleeping, groups);
    ReadyPushed(ts, sleeping[k], v, rt, normal);
    HoldsRemoved(ts, sleeping[k], v, sleeping, k, SleepQueue);
    GroupsElsewhere(ts, sleeping[k], v, groups);
  }

  /** From the front of a blocked group to a ready queue. */
  lemma QueuesUnblock(ts: Tasks, v: Task, rt: seq<nat>, normal: seq<nat>, sleeping: seq<nat>,
                      groups: map<nat, seq<nat>>, r: nat)
    requires QueuesOk(ts, rt, normal, sleeping, groups) && r in groups && v.status == Ready && v.policy != Idle
    ensures groups[r] != [] && groups[r][0] in ts && ts[groups[r][0]].status == Blocked
    ensures ts[groups[r][0]].blockedOn == r
    ensures QueuesOk(ts[groups[r][0] := v], PushIf(rt, groups[r][0], v.policy == RealTime),
                     PushIf(normal, groups[r][0], v.policy == Normal), sleeping, Popped(groups, r))
  {
    assert AllPlaced(ts, rt, normal, sleeping, groups);
    GroupsPopped(ts, v, groups, r);
    ReadyPushed(ts, groups[r][0], v, rt, normal);
    HoldsElsewhere(ts, groups[r][0], v, sleeping, SleepQueue);
  }

  /** From the front of a ready queue to the core. */
  lemma QueuesDispatch(ts: Tasks, t: nat, v: Task, rt: seq<nat>, normal: seq<nat>, sleeping: seq<nat>,
                       groups: map<nat, seq<nat>>)
    requires QueuesOk(ts, rt, normal, sleeping, groups) && v.status == Running && t in ts && v.policy == ts[t].policy
    requires if rt != [] then t == rt[0] else normal != [] && t == normal[0]
    ensures ts[t].status == Ready
    ensures if rt != [] then QueuesOk(ts[t := v], rt[1..], normal, sleeping, groups)
            else QueuesOk(ts[t := v], rt, normal[1..], sleeping, groups)
  {
    assert AllPlaced(ts, rt, normal, sleeping, groups);
    HoldsElsewhere(ts, t, v, sleeping, SleepQueue);
    GroupsElsewhere(ts, t, v, groups);
    if rt != [] {
      HoldsRemoved(ts, t, v, rt, 0, ReadyQueue(RealTime));
      assert Without(rt, 0) == rt[1..];
      HoldsElsewhere(ts, t, v, normal, ReadyQueue(Normal));
    } else {
      HoldsRemoved(ts, t, v, normal, 0, ReadyQueue(Normal));
      assert Without(normal, 0) == normal[1..];
      HoldsElsewhere(ts, t, v, rt, ReadyQueue(RealTime));
    }
  }

  /** From the core to the sleep queue or to a blocked group. */
  lemma QueuesSleep(ts: Tasks, t: nat, v: Task, rt: seq<nat>, normal: seq<nat>, sleeping: seq<nat>,
                    groups: map<nat, seq<nat>>)
    requires QueuesOk(ts, rt, normal, sleeping, groups) && t in ts && PlaceOf(ts[t]) == Nowhere
    requires v.status == Sleeping && v.policy != Idle
    ensures QueuesOk(ts[t := v], rt, normal, sleeping + [t], groups)
  {
    assert AllPlaced(ts, rt, normal, sleeping, groups);
    HoldsElsewhere(ts, t, v, rt, ReadyQueue(RealTime));
    HoldsElsewhere(ts, t, v, normal, ReadyQueue(Normal));
    HoldsPushed(ts, t, v, sleeping, SleepQueue);
    GroupsElsewhere(ts, t, v, groups);
  }

  lemma QueuesBlock(ts: Tasks, t: nat, v: Task, rt: seq<nat>, normal: seq<nat>, sleeping: seq<nat>,
                    groups: map<nat, seq<nat>>, r: nat, list: seq<nat>)
    requires QueuesOk(ts, rt, normal, sleeping, groups) && t in ts && PlaceOf(ts[t]) == Nowhere
    requires PlaceOf(v) == BlockedOn(r) && v.policy != Idle
    requires list == if r in groups then groups[r] else []
    ensures QueuesOk(ts[t := v], rt, normal, sleeping, groups[r := list + [t]])
  {
    assert AllPlaced(ts, rt, normal, sleeping, groups);
    HoldsElsewhere(ts, t, v, rt, ReadyQueue(RealTime));
    HoldsElsewhere(ts, t, v, normal, ReadyQueue(Normal));
    HoldsElsewhere(ts, t, v, sleeping, SleepQueue);
    GroupsPushed(ts, t, v, groups, r, list);
  }

  /** While a living task is not ready, the ready queue of its policy has fewer tasks than there are living ones. */
  lemma QueuesRoom(ts: Tasks, rt: seq<nat>, normal: seq<nat>, sleeping: seq<nat>, groups: map<nat, seq<nat>>, t: nat)
    requires QueuesOk(ts, rt, normal, sleeping, groups) && t in ts && ts[t].status != Ready && !Dead(ts[t])
    ensures ts[t].policy == RealTime ==> |rt| < |Living(ts, RealTime)|
    ensures ts[t].policy == Normal ==> |normal| < |Living(ts, Normal)|
  {
    assert AllPlaced(ts, rt, normal, sleeping, groups);
    if ts[t].policy == RealTime {
      RoomFor(ts, rt, RealTime, t);
    } else if ts[t].policy == Normal {
      RoomFor(ts, normal, Normal, t);
    }
  }

  lemma QueuesBound(ts: Tasks, rt: seq<nat>, normal: seq<nat>, sleeping: seq<nat>, groups: map<nat, seq<nat>>)
    requires QueuesOk(ts, rt, normal, sleeping, groups)
    ensures |rt| <= |Living(ts, RealTime)| && |normal| <= |Living(ts, Normal)|
  {
    assert AllPlaced(ts, rt, normal, sleeping, groups);
    LivingBound(ts, rt, RealTime);
    LivingBound(ts, normal, Normal);
  }

  /** A dead task leaves the table and no container notices. */
  lemma QueuesReap(ts: Tasks, rt: seq<nat>, normal: seq<nat>, sleeping: seq<nat>, groups: map<nat, seq<nat>>, t: nat)
    requires QueuesOk(ts, rt, normal, sleeping, groups) && t in ts && Dead(ts[t])
    ensures QueuesOk(ts - {t}, rt, normal, sleeping, groups)
  {
    assert AllPlaced(ts, rt, normal, sleeping, groups);
    HoldsErased(ts, t, rt, ReadyQueue(RealTime));
    HoldsErased(ts, t, normal, ReadyQueue(Normal));
    HoldsErased(ts, t, sleeping, SleepQueue);
    forall r | r in groups ensures groups[r] != [] && Holds(ts - {t}, groups[r], BlockedOn(r)) {
      HoldsErased(ts, t, groups[r], BlockedOn(r));
    }
  }

  /** What a core may pick next is ready. */
  lemma FrontIsReady(ts: Tasks, rt: seq<nat>, normal: seq<nat>, sleeping: seq<nat>, groups: map<nat, seq<nat>>)
    requires QueuesOk(ts, rt, normal, sleeping, groups)
    ensures rt != [] ==> rt[0] in ts && ts[rt[0]].status == Ready && ts[rt[0]].policy == RealTime
    ensures normal != [] ==> normal[0] in ts && ts[normal[0]].status == Ready && ts[normal[0]].policy == Normal
  {
    assert AllPlaced(ts, rt, normal, sleeping, groups);
  }

  lemma GroupFront(ts: Tasks, rt: seq<nat>, normal: seq<nat>, sleeping: seq<nat>, groups: map<nat, seq<nat>>, r: nat)
    requires QueuesOk(ts, rt, normal, sleeping, groups)
    ensures r in groups ==>
      && groups[r] != [] && groups[r][0] in ts && ts[groups[r][0]].policy != Idle
      && PlaceOf(ts[groups[r][0]]) == BlockedOn(r)
    ensures r !in groups ==> forall t | t in ts :: PlaceOf(ts[t]) != BlockedOn(r)
  {
    assert AllPlaced(ts, rt, normal, sleeping, groups);
    if r in groups { assert Holds(ts, groups[r], BlockedOn(r)); }
  }

  lemma NoIdleTask(ts: Tasks, rt: seq<nat>, normal: seq<nat>, sleeping: seq<nat>, groups: map<nat, seq<nat>>, t: nat)
    requires QueuesOk(ts, rt, normal, sleeping, groups) && t in ts
    ensures ts[t].policy != Idle && ts[t].status != UnInit
  {
    assert AllPlaced(ts, rt, normal, sleeping, groups);
  }

  lemma Sleepers(ts: Tasks, rt: seq<nat>, normal: seq<nat>, sleeping: seq<nat>, groups: map<nat, seq<nat>>)
    requires QueuesOk(ts, rt, normal, sleeping, groups)
    ensures forall i | 0 <= i < |sleeping| ::
      sleeping[i] in ts && ts[sleeping[i]].status == Sleeping && ts[sleeping[i]].policy != Idle
    ensures forall t | t in ts && ts[t].status == Sleeping :: t in sleeping
  {
    assert AllPlaced(ts, rt, normal, sleeping, groups);
  }

  /** A task is listed once in the container of its state and in no other container. */
  ghost predicate OnlyPlace(ts: Tasks, rt: seq<nat>, normal: seq<nat>, sleeping: seq<nat>, groups: map<nat, seq<nat>>,
                            t: nat)
    requires t in ts
  {
    && multiset(rt)[t] == (if ts[t].status == Ready && ts[t].policy == RealTime then 1 else 0)
    && multiset(normal)[t] == (if ts[t].status == Ready && ts[t].policy == Normal then 1 else 0)
    && multiset(sleeping)[t] == (if ts[t].status == Sleeping then 1 else 0)
    && (ts[t].status == Blocked ==> ts[t].blockedOn in groups)
    && (forall r | r in groups ::
        multiset(groups[r])[t] == if ts[t].status == Blocked && ts[t].blockedOn == r then 1 else 0)
  }

  lemma ExactlyOnePlace(ts: Tasks, rt: seq<nat>, normal: seq<nat>, sleeping: seq<nat>, groups: map<nat, seq<nat>>,
                        t: nat)
    requires QueuesOk(ts, rt, normal, sleeping, groups) && t in ts
    ensures ts[t].policy != Idle && ts[t].status != UnInit && OnlyPlace(ts, rt, normal, sleeping, groups, t)
  {
    assert AllPlaced(ts, rt, normal, sleeping, groups);
    HeldOnce(ts, rt, ReadyQueue(RealTime), t);
    HeldOnce(ts, normal, ReadyQueue(Normal), t);
    HeldOnce(ts, sleeping, SleepQueue, t);
    forall r | r in groups
      ensures multiset(groups[r])[t] == if ts[t].status == Blocked && ts[t].blockedOn == r then 1 else 0
    {
      HeldOnce(ts, groups[r], BlockedOn(r), t);
    }
  }
}
