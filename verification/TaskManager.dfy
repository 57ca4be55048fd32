/**
One core of the task manager: its ready, sleeping and blocked containers and the task it runs.
Each method is one critical section under the core's lock, so every order of calls that the
preconditions allow is a run of the core; wakeups and ticks may come at any time, also while the
running task has given up the core and not called Schedule yet.
*/
module TaskManager {
  import opened KernelConfig
  import opened Distinctness
  import opened TaskPlacement
  import opened CoreQueues
  import opened CoreSteps

  /** The running task's own state changes to one in which it does not run. */
  lemma Leaves(ts: Tasks, running: Runner, idle: Task, boot: Task, v: Task)
    requires RunnerOk(ts, running, idle, boot, false) && running.Thread? && v.status != Running
    ensures running.pid in ts && ts[running.pid].status == Running
    ensures RunnerOk(ts[running.pid := v], running, idle, boot, true)
  {
    assert RunsAlone(ts, running, idle, boot, false);
  }

  lemma RunnerRuns(ts: Tasks, running: Runner, idle: Task, boot: Task, leaving: bool)
    requires RunnerOk(ts, running, idle, boot, leaving) && running.Thread?
    ensures running.pid in ts && (leaving <==> ts[running.pid].status != Running)
  {
    assert RunsAlone(ts, running, idle, boot, leaving);
  }

  /** A task that is not running, new or changing, stays out of the runner's way. */
  lemma RunsOn(ts: Tasks, running: Runner, idle: Task, boot: Task, leaving: bool, t: nat, v: Task)
    requires RunnerOk(ts, running, idle, boot, leaving)
    requires (t in ts ==> (ts[t].status == Running <==> v.status == Running))
    requires t !in ts ==> v.status != Running
    ensures RunnerOk(ts[t := v], running, idle, boot, leaving)
  {
    assert RunsAlone(ts, running, idle, boot, leaving);
  }

  lemma RunsWithout(ts: Tasks, running: Runner, idle: Task, boot: Task, leaving: bool, t: nat)
    requires RunnerOk(ts, running, idle, boot, leaving) && running != Thread(t)
    ensures RunnerOk(ts - {t}, running, idle, boot, leaving)
  {
    assert RunsAlone(ts, running, idle, boot, leaving);
  }

  lemma FitsKept(ts: Tasks, t: nat, v: Task)
    requires FitsQueues(ts) && t in ts && v.policy == ts[t].policy && (Dead(ts[t]) ==> Dead(v))
    ensures FitsQueues(ts[t := v])
  {
    LivingKept(ts, t, v, RealTime);
    LivingKept(ts, t, v, Normal);
  }

  lemma FitsAdded(ts: Tasks, t: nat, v: Task)
    requires FitsQueues(ts) && t !in ts && |Living(ts, v.policy)| < MAX_READY && !Dead(v)
    ensures FitsQueues(ts[t := v])
  {
    LivingAdded(ts, t, v, RealTime);
    LivingAdded(ts, t, v, Normal);
  }

  lemma FitsReaped(ts: Tasks, t: nat)
    requires FitsQueues(ts) && t in ts && Dead(ts[t])
    ensures FitsQueues(ts - {t})
  {
    assert Living(ts - {t}, RealTime) == Living(ts, RealTime) && Living(ts - {t}, Normal) == Living(ts, Normal);
  }

  class Core {
    var tasks: Tasks
    var rt: seq<nat>
    var normal: seq<nat>
    var sleeping: seq<nat>
    var blocked: map<nat, seq<nat>>
    var running: Runner
    var idle: Task
    var boot: Task
    var localTick: nat
    var started: bool
    /** Where the running task is in its program: it has given up the core, and its next own step is Schedule. */
    var leaving: bool

    function State(): CoreState
      reads this
    {
      CoreState(tasks, rt, normal, sleeping, blocked, running, idle, boot, localTick, started, leaving)
    }

    ghost predicate Placed()
      reads this
    {
      QueuesOk(tasks, rt, normal, sleeping, blocked)
    }

    ghost predicate Valid()
      reads this
    {
      Placed() && RunnerOk(tasks, running, idle, boot, leaving)
    }

    /** A ready queue can take all living tasks of its policy, so none is ever dropped. */
    ghost predicate Fits()
      reads this
    {
      FitsQueues(tasks)
    }

    /** A core that runs its boot context and has an idle thread ready. */
    constructor (slice: nat)
      ensures Valid() && Fits() && tasks == map[] && running == BootThread && !started && localTick == 0
    {
      tasks, rt, normal, sleeping, blocked := map[], [], [], [], map[];
      var fresh_ := Task(UnInit, Idle, 0, 0, slice, slice);
      boot := fresh_.(status := Receive(Receive(UnInit, TaskPlacement.Schedule), TaskPlacement.Schedule));
      idle := fresh_.(status := Receive(UnInit, TaskPlacement.Schedule));
      running, localTick, started, leaving := BootThread, 0, false, false;
    }

    /** At the end of the ready queue of its policy; a full queue drops the task. */
    method Enqueue(t: nat)
      requires t in tasks && tasks[t].policy != Idle
      modifies this`rt, this`normal, this`tasks
      ensures old(tasks)[t].policy == RealTime ==>
        tasks == old(tasks) && normal == old(normal) && rt == PushBounded(old(rt), t, MAX_READY)
      ensures old(tasks)[t].policy == Normal ==>
        && rt == old(rt) && normal == PushBounded(old(normal), t, MAX_READY)
        && tasks == if |old(normal)| >= MAX_READY then old(tasks) else old(tasks)[t := Refilled(old(tasks)[t])]
    {
      if tasks[t].policy == RealTime {
        if |rt| >= MAX_READY {
          return;
        }
        rt := rt + [t];
      } else {
        if |normal| >= MAX_READY {
          return;
        }
        tasks := tasks[t := Refilled(tasks[t])];
        normal := normal + [t];
      }
    }

    /** A new task joins the queue of its policy, unless the task table is full. */
    method AddTask(pid: nat, policy: Policy, slice: nat) returns (added: bool)
      requires Valid() && Fits() && pid !in tasks && policy != Idle && |Living(tasks, policy)| < MAX_READY
      modifies this`tasks, this`rt, this`normal
      ensures Valid() && Fits() && (added <==> |old(tasks)| < MAX_TASKS)
      ensures Added(old(State()), pid, policy, slice, State())
    {
      if |tasks| >= MAX_TASKS {
        return false;
      }
      var v := Task(Receive(UnInit, TaskPlacement.Schedule), policy, 0, 0, slice, slice);
      QueuesJoin(tasks, pid, v, rt, normal, sleeping, blocked);
      QueuesBound(tasks, rt, normal, sleeping, blocked);
      RunsOn(tasks, running, idle, boot, leaving, pid, v);
      FitsAdded(tasks, pid, v);
      tasks := tasks[pid := v];
      Enqueue(pid);
      assert tasks == old(tasks)[pid := v];
      return true;
    }

    /** Erases a task that has ended and whose last Schedule is behind it; others are left alone. */
    method Reap(pid: nat)
      requires Valid() && Fits() && pid in tasks && running != Thread(pid)
      modifies this`tasks
      ensures Valid() && Fits()
      ensures Reaped(old(State()), pid, State())
    {
      if Dead(tasks[pid]) {
        QueuesReap(tasks, rt, normal, sleeping, blocked, pid);
        RunsWithout(tasks, running, idle, boot, leaving, pid);
        FitsReaped(tasks, pid);
        tasks := tasks - {pid};
      }
    }

    // -------------------------------------------------------------------------------------------
    // Schedule
    // -------------------------------------------------------------------------------------------

    /** No task is in state Running; the one that was is ready or has left. */
    ghost predicate CoreFree()
      reads this
    {
      && Placed() && (forall t | t in tasks :: tasks[t].status != Running)
      && idle.policy == Idle && idle.status == Ready && boot.policy == Idle
    }

    /** The running task, unless it has given up the core, goes back to its ready queue. */
    method YieldCurrent()
      requires Valid() && Fits()
      modifies this`tasks, this`rt, this`normal, this`idle, this`boot
      ensures CoreFree() && Fits() && Yielded(old(State()), State())
    {
      assert RunsAlone(tasks, running, idle, boot, leaving);
      match running
      case IdleThread => idle := idle.(status := Receive(idle.status, Yield));
      case BootThread => boot := boot.(status := Receive(boot.status, Yield));
      case Thread(pid) =>
        if tasks[pid].status == Running {
          assert PlaceOf(tasks[pid]) == Nowhere;
          NoIdleTask(tasks, rt, normal, sleeping, blocked, pid);
          QueuesRoom(tasks, rt, normal, sleeping, blocked, pid);
          QueuesJoin(tasks, pid, Readied(tasks[pid]), rt, normal, sleeping, blocked);
          MakeReady(pid, Yield);
        }
    }

    /** A task receives a message that makes it ready and joins its queue. */
    method MakeReady(pid: nat, m: Message)
      requires pid in tasks && Receive(tasks[pid].status, m) == Ready && tasks[pid].policy != Idle
      requires FitsQueues(tasks) && !Dead(tasks[pid])
      requires tasks[pid].policy == RealTime ==> |rt| < MAX_READY
      requires tasks[pid].policy == Normal ==> |normal| < MAX_READY
      modifies this`tasks, this`rt, this`normal
      ensures tasks == old(tasks)[pid := Readied(old(tasks)[pid])] && FitsQueues(tasks)
      ensures rt == PushIf(old(rt), pid, old(tasks)[pid].policy == RealTime)
      ensures normal == PushIf(old(normal), pid, old(tasks)[pid].policy == Normal)
    {
      FitsKept(tasks, pid, Readied(tasks[pid]));
      tasks := tasks[pid := tasks[pid].(status := Receive(tasks[pid].status, m))];
      Enqueue(pid);
      assert tasks == old(tasks)[pid := Readied(old(tasks)[pid])];
    }

    /** Runs the first real-time task, else the first normal one, else the idle thread. */
    method Dispatch()
      requires CoreFree() && Fits()
      modifies this`tasks, this`rt, this`normal, this`idle, this`running, this`leaving
      ensures Valid() && Fits() && Dispatched(old(State()), State())
    {
      leaving := false;
      if rt != [] || normal != [] {
        FrontIsReady(tasks, rt, normal, sleeping, blocked);
        var next := if rt != [] then rt[0] else normal[0];
        FitsKept(tasks, next, Refilled(tasks[next].(status := Running)));
        var v := Refilled(tasks[next].(status := Receive(tasks[next].status, TaskPlacement.Schedule)));
        QueuesDispatch(tasks, next, Refilled(tasks[next].(status := Running)), rt, normal, sleeping, blocked);
        if rt != [] {
          rt := rt[1..];
        } else {
          normal := normal[1..];
        }
        assert tasks[next].status == Ready;
        tasks := tasks[next := v];
        running := Thread(next);
      } else {
        idle := Refilled(idle.(status := Receive(idle.status, TaskPlacement.Schedule)));
        running := IdleThread;
      }
    }

    /** Always finds a ready task or the idle thread, by policy and then by age in the queue. */
    method Schedule()
      requires Valid() && Fits()
      modifies this`tasks, this`rt, this`normal, this`idle, this`boot, this`running, this`leaving, this`started
      ensures Valid() && Fits() && Scheduled(old(State()), State())
      ensures forall t | t in tasks && tasks[t].status == Sleeping :: t in old(tasks) && tasks[t] == old(tasks)[t]
    {
      ghost var before := State();
      started := true;
      YieldCurrent();
      ghost var between := State();
      Dispatch();
      HalvesSchedule(before, between, State());
    }

    // -------------------------------------------------------------------------------------------
    // The running task gives up the core
    // -------------------------------------------------------------------------------------------

    /**
    Sleep, up to its call of Schedule; ticksPerSecond is SIMPLEKERNEL_TICK. For 0 ms, or with a full
    sleep queue, the task stays in state Running.
    */
    method Sleep(ms: nat, ticksPerSecond: nat) returns (asleep: bool)
      requires Valid() && Fits() && running.Thread? && !leaving
      modifies this`tasks, this`sleeping, this`leaving
      ensures Valid() && Fits() && running.pid in old(tasks) && tasks.Keys == old(tasks.Keys)
      ensures asleep <==> ms > 0 && |old(sleeping)| < MAX_SLEEPING
      ensures WentToSleep(old(State()), ms, ticksPerSecond, State())
    {
      RunnerRuns(tasks, running, idle, boot, leaving);
      NoIdleTask(tasks, rt, normal, sleeping, blocked, running.pid);
      var t := running.pid;
      assert tasks[t].status == Running;
      if ms == 0 {
        return false;
      }
      var wake := localTick + ms * ticksPerSecond / MILLISECONDS_PER_SECOND;
      if |sleeping| >= MAX_SLEEPING {
        QueuesElsewhere(tasks, t, tasks[t].(wakeTick := wake), rt, normal, sleeping, blocked);
        RunsOn(tasks, running, idle, boot, leaving, t, tasks[t].(wakeTick := wake));
        FitsKept(tasks, t, tasks[t].(wakeTick := wake));
        tasks := tasks[t := tasks[t].(wakeTick := wake)];
        return false;
      }
      var v := tasks[t].(wakeTick := wake, status := Receive(tasks[t].status, TaskPlacement.Sleep));
      QueuesSleep(tasks, t, v, rt, normal, sleeping, blocked);
      Leaves(tasks, running, idle, boot, v);
      FitsKept(tasks, t, v);
      tasks := tasks[t := v];
      sleeping := sleeping + [t];
      leaving := true;
      return true;
    }

    /** Block, up to its call of Schedule. With a full list the task goes on running. */
    method Block(resource: nat) returns (isBlocked: bool)
      requires Valid() && Fits() && running.Thread? && !leaving
      requires (resource in blocked || |blocked| < MAX_BLOCKED_GROUPS)
      modifies this`tasks, this`blocked, this`leaving
      ensures Valid() && Fits() && running.pid in old(tasks) && tasks.Keys == old(tasks.Keys) && leaving == isBlocked
      ensures isBlocked <==> resource !in old(blocked) || |old(blocked)[resource]| < MAX_BLOCKED_PER_GROUP
      ensures WentBlocked(old(State()), resource, State())
    {
      RunnerRuns(tasks, running, idle, boot, leaving);
      NoIdleTask(tasks, rt, normal, sleeping, blocked, running.pid);
      var t := running.pid;
      assert tasks[t].status == Running;
      var list := Group(blocked, resource);
      if |list| >= MAX_BLOCKED_PER_GROUP {
        return false;
      }
      var v := tasks[t].(status := Receive(tasks[t].status, TaskPlacement.Block), blockedOn := resource);
      QueuesBlock(tasks, t, v, rt, normal, sleeping, blocked, resource, list);
      Leaves(tasks, running, idle, boot, v);
      FitsKept(tasks, t, v);
      tasks := tasks[t := v];
      blocked := blocked[resource := list + [t]];
      leaving := true;
      return true;
    }

    /** Exit, up to the wakeup of the parent and its call of Schedule. */
    method Exit(hasParent: bool)
      requires Valid() && Fits() && running.Thread? && !leaving
      modifies this`tasks, this`leaving
      ensures Valid() && Fits() && leaving && running.pid in old(tasks) && tasks.Keys == old(tasks.Keys)
      ensures Ended(old(State()), hasParent, State())
    {
      RunnerRuns(tasks, running, idle, boot, leaving);
      NoIdleTask(tasks, rt, normal, sleeping, blocked, running.pid);
      var t := running.pid;
      assert tasks[t].status == Running;
      var v := tasks[t].(status := Receive(tasks[t].status, TaskPlacement.Exit(hasParent)));
      QueuesElsewhere(tasks, t, v, rt, normal, sleeping, blocked);
      Leaves(tasks, running, idle, boot, v);
      FitsKept(tasks, t, v);
      tasks := tasks[t := v];
      leaving := true;
    }

    // -------------------------------------------------------------------------------------------
    // Wakeups
    // -------------------------------------------------------------------------------------------

    /** Wakes the first task that is blocked on a resource. */
    method WakeFirst(resource: nat)
      requires Valid() && Fits() && resource in blocked
      modifies this`tasks, this`rt, this`normal, this`blocked
      ensures Valid() && Fits() && FirstWoken(old(State()), resource, State())
    {
      GroupFront(tasks, rt, normal, sleeping, blocked, resource);
      var t := blocked[resource][0];
      assert tasks[t].status == Blocked && tasks[t].blockedOn == resource;
      ghost var v := Readied(tasks[t]).(blockedOn := 0);
      QueuesRoom(tasks, rt, normal, sleeping, blocked, t);
      QueuesUnblock(tasks, v, rt, normal, sleeping, blocked, resource);
      RunsOn(tasks, running, idle, boot, leaving, t, v);
      FitsKept(tasks, t, v);
      blocked := if |blocked[resource]| == 1 then blocked - {resource} else blocked[resource := blocked[resource][1..]];
      MakeReady(t, TaskPlacement.Wakeup);
      tasks := tasks[t := tasks[t].(blockedOn := 0)];
      assert tasks == old(tasks)[t := v];
    }

    /** The part of Wakeup that concerns this core: every task blocked on the resource becomes ready. */
    method Wakeup(resource: nat)
      requires Valid() && Fits()
      modifies this`tasks, this`rt, this`normal, this`blocked
      ensures Valid() && Fits() && AllWoken(old(State()), resource, State())
    {
      ghost var done: seq<nat> := [];
      while resource in blocked
        invariant Valid() && Fits() && WokenSoFar(old(State()), State(), resource, done)
        decreases if resource in blocked then |blocked[resource]| else 0
      {
        ghost var before := State();
        WakeFirst(resource);
        WokenOneMore(old(State()), before, State(), resource, done);
        done := done + [before.blocked[resource][0]];
      }
      GroupFront(tasks, rt, normal, sleeping, blocked, resource);
      WokenAtEnd(old(State()), State(), resource, done);
    }

    /** The part of WakeupOne that concerns this core: the longest blocked task becomes ready. */
    method WakeupOne(resource: nat) returns (woke: bool)
      requires Valid() && Fits()
      modifies this`tasks, this`rt, this`normal, this`blocked
      ensures Valid() && Fits() && (woke <==> resource in old(blocked))
      ensures FirstWoken(old(State()), resource, State())
    {
      if resource !in blocked {
        return false;
      }
      WakeFirst(resource);
      return true;
    }

    // -------------------------------------------------------------------------------------------
    // Ticks
    // -------------------------------------------------------------------------------------------

    /** The top of the sleep queue: no sleeper is due earlier. */
    method Earliest() returns (k: nat)
      requires sleeping != [] && forall i | 0 <= i < |sleeping| :: sleeping[i] in tasks
      ensures k < |sleeping|
      ensures forall i | 0 <= i < |sleeping| :: tasks[sleeping[k]].wakeTick <= tasks[sleeping[i]].wakeTick
    {
      k := 0;
      for i := 1 to |sleeping|
        invariant k < i && forall j | 0 <= j < i :: tasks[sleeping[k]].wakeTick <= tasks[sleeping[j]].wakeTick
      {
        if tasks[sleeping[i]].wakeTick < tasks[sleeping[k]].wakeTick {
          k := i;
        }
      }
    }

    method WakeSleeper(k: nat)
      requires Valid() && Fits() && k < |sleeping|
      modifies this`tasks, this`rt, this`normal, this`sleeping
      ensures Valid() && Fits() && old(sleeping)[k] in old(tasks) && old(tasks)[old(sleeping)[k]].status == Sleeping
      ensures tasks == old(tasks)[old(sleeping)[k] := Readied(old(tasks)[old(sleeping)[k]])]
      ensures sleeping == Without(old(sleeping), k) && old(rt) <= rt && old(normal) <= normal
    {
      Sleepers(tasks, rt, normal, sleeping, blocked);
      var t := sleeping[k];
      ghost var v := Readied(tasks[t]);
      QueuesRoom(tasks, rt, normal, sleeping, blocked, t);
      QueuesWake(tasks, v, rt, normal, sleeping, blocked, k);
      RunsOn(tasks, running, idle, boot, leaving, t, v);
      sleeping := sleeping[..k] + sleeping[k + 1..];
      MakeReady(t, TaskPlacement.Wakeup);
    }

    /** Whether the sleeper that is due first is due now; if not, none is. */
    method NextDue() returns (due: bool, k: nat)
      requires Valid() && sleeping != []
      ensures due ==> k < |sleeping| && sleeping[k] in tasks && Due(tasks[sleeping[k]], localTick)
      ensures !due ==> NoneDue(State())
    {
      Sleepers(tasks, rt, normal, sleeping, blocked);
      k := Earliest();
      due := tasks[sleeping[k]].wakeTick <= localTick;
    }

    lemma NobodySleeps()
      requires Valid() && sleeping == []
      ensures NoneDue(State())
    {
      Sleepers(tasks, rt, normal, sleeping, blocked);
    }

    /** Wakes every sleeper that is due, earliest first, and no other. */
    method WakeDue()
      requires Valid() && Fits()
      modifies this`tasks, this`rt, this`normal, this`sleeping
      ensures Valid() && Fits() && DueWoken(old(State()), State())
    {
      DueStarts(State());
      while sleeping != []
        invariant Valid() && Fits() && DueSoFar(old(State()), State())
        decreases |sleeping|
      {
        var due, k := NextDue();
        if !due {
          break;
        }
        ghost var before := State();
        WakeSleeper(k);
        DueOneMore(old(State()), before, State(), before.sleeping[k]);
      }
      if sleeping == [] { NobodySleeps(); }
      DueAtEnd(old(State()), State());
    }

    /** The tick handler up to its call of Schedule. */
    method TickUpdate() returns (needPreempt: bool)
      requires Valid() && Fits()
      modifies this`tasks, this`rt, this`normal, this`sleeping, this`localTick, this`idle, this`boot
      ensures Valid() && Fits() && TickCounted(old(State()), State()) && (needPreempt <==> SliceIsOver(State()))
    {
      ghost var before := State();
      localTick := localTick + 1;
      WakeDue();
      ghost var woken := State();
      needPreempt := ChargeCurrent();
      HalvesCount(before, woken, State());
    }

    /** Charges the tick to the running task; its slice may be used up. */
    method ChargeCurrent() returns (needPreempt: bool)
      requires Valid() && Fits()
      modifies this`tasks, this`idle, this`boot
      ensures Valid() && Fits()
      ensures Charged(old(State()), State())
      ensures needPreempt <==> SliceIsOver(State())
    {
      assert RunsAlone(tasks, running, idle, boot, leaving);
      match running
      case IdleThread =>
        idle := Ticked(idle);
        needPreempt := idle.slice == 0;
      case BootThread =>
        boot := Ticked(boot);
        needPreempt := boot.slice == 0;
      case Thread(t) =>
        needPreempt := false;
        if tasks[t].status == Running {
          var v := Ticked(tasks[t]);
          NoIdleTask(tasks, rt, normal, sleeping, blocked, t);
          QueuesElsewhere(tasks, t, v, rt, normal, sleeping, blocked);
          RunsOn(tasks, running, idle, boot, leaving, t, v);
          FitsKept(tasks, t, v);
          tasks := tasks[t := v];
          needPreempt := v.slice == 0;
        }
    }

    /** The whole tick handler: the running task is preempted when its slice is used up. */
    method Tick()
      requires Valid() && Fits()
      modifies this
      ensures Valid() && Fits() && TickHandled(old(State()), State())
      ensures forall t | t in tasks && tasks[t].status == Sleeping :: tasks[t].wakeTick > localTick
    {
      ghost var before := State();
      var preempt := TickUpdate();
      ghost var counted := State();
      if preempt && started {
        Schedule();
      }
      TickIsHandled(before, counted, State());
    }

    /** An event that can happen does exactly its step. */
    method Do(e: Event)
      requires Valid() && Fits() && Enabled(State(), e)
      modifies this
      ensures Valid() && Fits() && Steps(old(State()), e, State())
    {
      match e
      case AddTask(pid, policy, slice) => var _ := AddTask(pid, policy, slice);
      case Reap(pid) => Reap(pid);
      case Reschedule => Schedule();
      case Sleep(ms, rate) => var _ := Sleep(ms, rate);
      case Block(r) => var _ := Block(r);
      case Exit(p) => Exit(p);
      case Wakeup(r) => Wakeup(r);
      case WakeupOne(r) => var _ := WakeupOne(r);
      case Tick => Tick();
    }

    /** An event that cannot happen changes nothing. */
    method Handle(e: Event)
      requires Valid() && Fits()
      modifies this
      ensures Valid() && Fits() && Sound(State()) && Linked(old(State()), e, State())
    {
      if Enabled(State(), e) {
        Do(e);
      }
    }
  }

  /**
  Every run of a core: each event that can happen does exactly its step and any other changes nothing, and
  in every state in between each task is in the one place that fits its state and only the running one is
  Running.
  */
  method RunCore(slice: nat, events: seq<Event>) returns (core: Core, trace: seq<CoreState>)
    ensures Traced(events, trace) && trace[|events|] == core.State()
    ensures forall k, t | 0 <= k < |trace| && t in trace[k].tasks :: WellPlaced(trace[k], t)
  {
    core := new Core(slice);
    trace := [core.State()];
    for i := 0 to |events|
      invariant fresh(core) && core.Valid() && core.Fits() && Traced(events[..i], trace) && trace[i] == core.State()
    {
      core.Handle(events[i]);
      TraceGrows(events[..i], trace, events[i], core.State());
      trace := trace + [core.State()];
      assert events[..i + 1] == events[..i] + [events[i]];
    }
    assert events[..|events|] == events;
    TraceIsPlaced(events, trace);
  }
}
