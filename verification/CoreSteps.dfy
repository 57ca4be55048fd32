/**
The state of one core as a value, what each event does to it, and what holds over whole runs of events.
The class TaskManager.Core is proved to take exactly these steps.
*/
module CoreSteps {
  import opened KernelConfig
  import opened TaskPlacement
  import opened CoreQueues

  const MILLISECONDS_PER_SECOND: nat := 1000

  datatype Runner = IdleThread | BootThread | Thread(pid: nat)

  /** leaving: the running task has given up the core, and its next own step is Schedule. */
  datatype CoreState = CoreState(
    tasks: Tasks, rt: seq<nat>, normal: seq<nat>, sleeping: seq<nat>, blocked: map<nat, seq<nat>>,
    running: Runner, idle: Task, boot: Task, localTick: nat, started: bool, leaving: bool)

  /** Who runs, bound like QueuesOk. */
  ghost predicate RunnerOk(ts: Tasks, running: Runner, idle: Task, boot: Task, leaving: bool) {
    forall us | us == ts :: RunsAlone(us, running, idle, boot, leaving)
  }

  /** Only the running task is in state Running; it is, unless it has given up the core. */
  ghost predicate RunsAlone(ts: Tasks, running: Runner, idle: Task, boot: Task, leaving: bool) {
    && (forall t | t in ts && ts[t].status == Running :: running == Thread(t))
    && (running.Thread? ==> running.pid in ts && (leaving <==> ts[running.pid].status != Running))
    && (leaving ==> running.Thread?)
    && idle.policy == Idle && idle.status == (if running.IdleThread? then Running else Ready)
    && boot.policy == Idle && (running.BootThread? ==> boot.status == Running)
  }

  /** Of each policy there are at most as many living tasks as its ready queue can take. */
  ghost predicate FitsQueues(ts: Tasks) { |Living(ts, RealTime)| <= MAX_READY && |Living(ts, Normal)| <= MAX_READY }

  /** Every task is in the place that fits its state, one context runs, and nothing is dropped. */
  ghost predicate Sound(s: CoreState) {
    && QueuesOk(s.tasks, s.rt, s.normal, s.sleeping, s.blocked)
    && RunnerOk(s.tasks, s.running, s.idle, s.boot, s.leaving) && FitsQueues(s.tasks)
  }

  function Refilled(t: Task): Task { t.(slice := t.sliceDefault) }

  /** How a task looks after it received a message that makes it ready and was enqueued. */
  function Readied(t: Task): Task {
    var r := t.(status := Ready);
    if t.policy == Normal then Refilled(r) else r
  }

  /** A task blocked on a resource, before and after its wakeup. */
  predicate WokenFrom(t: Task, resource: nat, t': Task) {
    PlaceOf(t) == BlockedOn(resource) && t' == Readied(t).(blockedOn := 0)
  }

  predicate Due(t: Task, tick: nat) { t.status == Sleeping && t.wakeTick <= tick }

  /** One tick of running time. */
  function Ticked(t: Task): Task { t.(slice := if t.slice > 0 then t.slice - 1 else 0) }

  /** Steps of a run: those of the running task, and those that come from elsewhere. */
  datatype Event =
    | AddTask(pid: nat, policy: Policy, slice: nat)
    | Reschedule
    | Sleep(ms: nat, ticksPerSecond: nat)
    | Block(resource: nat)
    | Exit(hasParent: bool)
    | Reap(pid: nat)
    | Wakeup(resource: nat)
    | WakeupOne(resource: nat)
    | Tick

  /**
  Whether an event can happen: a task that has given up the core calls nothing but Schedule, idle
  and boot contexts neither block nor exit, new tasks come while their ready queue can take all living
  tasks of their policy, and a task that still runs is not erased.
  */
  predicate Enabled(s: CoreState, e: Event) {
    match e
    case AddTask(pid, policy, _) => pid !in s.tasks && policy != Idle && |Living(s.tasks, policy)| < MAX_READY
    case Reap(pid) => pid in s.tasks && s.running != Thread(pid)
    case Sleep(_, _) => s.running.Thread? && !s.leaving
    case Block(r) => s.running.Thread? && !s.leaving && (r in s.blocked || |s.blocked| < MAX_BLOCKED_GROUPS)
    case Exit(_) => s.running.Thread? && !s.leaving
    case _ => true
  }

  // ---------------------------------------------------------------------------------------------
  // What the events do
  // ---------------------------------------------------------------------------------------------

  /** A new ready task at the end of the queue of its policy, unless the task table is full. */
  ghost predicate Added(s: CoreState, pid: nat, policy: Policy, slice: nat, s': CoreState) {
    s' == if |s.tasks| >= MAX_TASKS then s
          else s.(tasks := s.tasks[pid := Task(Ready, policy, 0, 0, slice, slice)],
                  rt := PushIf(s.rt, pid, policy == RealTime), normal := PushIf(s.normal, pid, policy == Normal))
  }

  /** A task that has ended leaves the table. */
  ghost predicate Reaped(s: CoreState, pid: nat, s': CoreState) {
    s' == if pid in s.tasks && Dead(s.tasks[pid]) then s.(tasks := s.tasks - {pid}) else s
  }

  /** The ready queue after the running task, if it still runs, went to its end. */
  function Requeued(s: CoreState, q: seq<nat>, policy: Policy): seq<nat> {
    if && s.running.Thread? && s.running.pid in s.tasks
       && s.tasks[s.running.pid].status == Running && s.tasks[s.running.pid].policy == policy
    then q + [s.running.pid] else q
  }

  /** The running task, if it still runs, yields; then the first real-time task, the first normal one or idle runs. */
  ghost predicate Scheduled(s: CoreState, s': CoreState) {
    && NextRuns(Requeued(s, s.rt, RealTime), Requeued(s, s.normal, Normal), s')
    && TasksSwitched(s, s')
    && s'.sleeping == s.sleeping && s'.blocked == s.blocked && s'.localTick == s.localTick
    && s'.started && !s'.leaving
    && s'.idle == (if s'.running.IdleThread? then Refilled(s.idle.(status := Running)) else s.idle.(status := Ready))
    && s'.boot == if s.running.BootThread? then s.boot.(status := Ready) else s.boot
  }

  ghost predicate NextRuns(rt: seq<nat>, normal: seq<nat>, s': CoreState) {
    if rt != [] then s'.running == Thread(rt[0]) && s'.rt == rt[1..] && s'.normal == normal
    else if normal != [] then s'.running == Thread(normal[0]) && s'.rt == [] && s'.normal == normal[1..]
    else s'.running == IdleThread && s'.rt == [] && s'.normal == []
  }

  /**
  Only the task that ran and the one that runs next change: the one yields if it still ran, the other
  starts afresh.
  */
  ghost predicate TasksSwitched(s: CoreState, s': CoreState) {
    && s'.tasks.Keys == s.tasks.Keys
    && (forall t | t in s.tasks && s.running != Thread(t) && s'.running != Thread(t) :: s'.tasks[t] == s.tasks[t])
    && (s.running.Thread? && s'.running != s.running && s.running.pid in s.tasks ==>
          var t := s.running.pid; s'.tasks[t] == if s.leaving then s.tasks[t] else Readied(s.tasks[t]))
    && (s'.running.Thread? ==>
          var t := s'.running.pid; t in s.tasks && s'.tasks[t] == Refilled(s.tasks[t].(status := Running)))
  }

  /** First half: the running context gives up the core. */
  ghost predicate Yielded(s: CoreState, s': CoreState) {
    s' == s.(tasks := if s.running.Thread? && !s.leaving && s.running.pid in s.tasks
                      then s.tasks[s.running.pid := Readied(s.tasks[s.running.pid])] else s.tasks,
             rt := Requeued(s, s.rt, RealTime), normal := Requeued(s, s.normal, Normal),
             idle := s.idle.(status := Ready),
             boot := if s.running.BootThread? then s.boot.(status := Ready) else s.boot)
  }

  /** Second half: the next one gets it. */
  ghost predicate Dispatched(s: CoreState, s': CoreState) {
    && NextRuns(s.rt, s.normal, s')
    && s' == s.(tasks := s'.tasks, rt := s'.rt, normal := s'.normal, running := s'.running, leaving := false,
                idle := if s'.running.IdleThread? then Refilled(s.idle.(status := Running)) else s.idle)
    && (if s'.running.Thread?
        then var t := s'.running.pid;
          && t in s.tasks && s.tasks[t].status == Ready
          && s'.tasks == s.tasks[t := Refilled(s.tasks[t].(status := Running))]
        else s'.tasks == s.tasks)
  }

  lemma HalvesSchedule(s: CoreState, m: CoreState, s': CoreState)
    requires Yielded(s.(started := true), m) && Dispatched(m, s')
    ensures Scheduled(s, s')
    ensures forall t | t in s'.tasks && s'.tasks[t].status == Sleeping :: t in s.tasks && s'.tasks[t] == s.tasks[t]
  {
  }

  /** The running task goes to sleep; for 0 ms, or with a full sleep queue, it stays in state Running. */
  ghost predicate WentToSleep(s: CoreState, ms: nat, ticksPerSecond: nat, s': CoreState)
    requires s.running.Thread?
  {
    var t := s.running.pid;
    && t in s.tasks
    && var v := s.tasks[t].(wakeTick := s.localTick + ms * ticksPerSecond / MILLISECONDS_PER_SECOND);
    s' == if ms == 0 then s
          else if |s.sleeping| >= MAX_SLEEPING then s.(tasks := s.tasks[t := v])
          else s.(tasks := s.tasks[t := v.(status := Sleeping)], sleeping := s.sleeping + [t], leaving := true)
  }

  /** The tasks blocked on a resource. */
  function Group(groups: map<nat, seq<nat>>, resource: nat): seq<nat> {
    if resource in groups then groups[resource] else []
  }

  /** The running task joins the list of the resource; with a full list it goes on running. */
  ghost predicate WentBlocked(s: CoreState, resource: nat, s': CoreState)
    requires s.running.Thread?
  {
    var t, list := s.running.pid, Group(s.blocked, resource);
    && t in s.tasks
    && s' == if |list| >= MAX_BLOCKED_PER_GROUP then s
             else s.(tasks := s.tasks[t := s.tasks[t].(status := Blocked, blockedOn := resource)],
                     blocked := s.blocked[resource := list + [t]], leaving := true)
  }

  /** The running task ends. */
  ghost predicate Ended(s: CoreState, hasParent: bool, s': CoreState)
    requires s.running.Thread?
  {
    var t := s.running.pid;
    && t in s.tasks
    && s' == s.(tasks := s.tasks[t := s.tasks[t].(status := if hasParent then Zombie else Exited)], leaving := true)
  }

  /** The tasks of a list that have a policy, in order. */
  function OfPolicy(ts: Tasks, q: seq<nat>, policy: Policy): seq<nat> {
    if q == [] then []
    else PushIf(OfPolicy(ts, q[..|q| - 1], policy), q[|q| - 1], q[|q| - 1] in ts && ts[q[|q| - 1]].policy == policy)
  }

  /** Every task blocked on the resource becomes ready, in the order in which they blocked. */
  ghost predicate AllWoken(s: CoreState, resource: nat, s': CoreState) {
    && s' == s.(tasks := s'.tasks, rt := s.rt + OfPolicy(s.tasks, Group(s.blocked, resource), RealTime),
                normal := s.normal + OfPolicy(s.tasks, Group(s.blocked, resource), Normal),
                blocked := s.blocked - {resource})
    && s'.tasks.Keys == s.tasks.Keys
    && forall t | t in s.tasks ::
      if PlaceOf(s.tasks[t]) == BlockedOn(resource) then WokenFrom(s.tasks[t], resource, s'.tasks[t])
      else s'.tasks[t] == s.tasks[t]
  }

  /** In the middle of waking: the tasks in `done` are in the ready queues, the rest of the list is still blocked. */
  ghost predicate WokenSoFar(s: CoreState, s': CoreState, resource: nat, done: seq<nat>) {
    && s' == s.(tasks := s'.tasks, rt := s.rt + OfPolicy(s.tasks, done, RealTime),
                normal := s.normal + OfPolicy(s.tasks, done, Normal), blocked := s'.blocked)
    && done + Group(s'.blocked, resource) == Group(s.blocked, resource)
    && s'.blocked - {resource} == s.blocked - {resource} && s'.tasks.Keys == s.tasks.Keys
    && forall t | t in s.tasks :: s'.tasks[t] == s.tasks[t] || WokenFrom(s.tasks[t], resource, s'.tasks[t])
  }

  lemma WokenOneMore(s: CoreState, m: CoreState, s': CoreState, resource: nat, done: seq<nat>)
    requires WokenSoFar(s, m, resource, done) && resource in m.blocked && FirstWoken(m, resource, s')
    ensures m.blocked[resource] != [] && WokenSoFar(s, s', resource, done + [m.blocked[resource][0]])
  {
    var t := m.blocked[resource][0];
    var done' := done + [t];
    assert done'[..|done'| - 1] == done;
    assert m.blocked[resource] == [t] + m.blocked[resource][1..];
    assert done' + Group(s'.blocked, resource) == done + m.blocked[resource];
  }

  lemma WokenAtEnd(s: CoreState, s': CoreState, resource: nat, done: seq<nat>)
    requires WokenSoFar(s, s', resource, done) && resource !in s'.blocked
    requires forall t | t in s'.tasks :: PlaceOf(s'.tasks[t]) != BlockedOn(resource)
    ensures AllWoken(s, resource, s')
  {
    assert done == Group(s.blocked, resource);
    assert s'.blocked == s'.blocked - {resource};
  }

  /** The task that has been blocked longest becomes ready, if there is one. */
  ghost predicate FirstWoken(s: CoreState, resource: nat, s': CoreState) {
    if resource !in s.blocked then s' == s
    else
      && s.blocked[resource] != []
      && var t := s.blocked[resource][0];
      && t in s.tasks && PlaceOf(s.tasks[t]) == BlockedOn(resource)
      && s' == s.(tasks := s.tasks[t := Readied(s.tasks[t]).(blockedOn := 0)],
                  rt := PushIf(s.rt, t, s.tasks[t].policy == RealTime),
                  normal := PushIf(s.normal, t, s.tasks[t].policy == Normal), blocked := Popped(s.blocked, resource))
  }

  /** The tick handler up to its call of Schedule: due sleepers wake, the running context is charged. */
  ghost predicate TickCounted(s: CoreState, s': CoreState) {
    && s' == s.(tasks := s'.tasks, rt := s'.rt, normal := s'.normal, sleeping := s'.sleeping,
                localTick := s.localTick + 1, idle := if s.running.IdleThread? then Ticked(s.idle) else s.idle,
                boot := if s.running.BootThread? then Ticked(s.boot) else s.boot)
    && s.rt <= s'.rt && s.normal <= s'.normal && s'.tasks.Keys == s.tasks.Keys
    && forall t | t in s.tasks ::
      s'.tasks[t] == if Due(s.tasks[t], s'.localTick) then Readied(s.tasks[t])
                     else if s.running == Thread(t) && !s.leaving then Ticked(s.tasks[t]) else s.tasks[t]
  }

  /** First half: every sleeper that is due becomes ready. */
  ghost predicate DueWoken(s: CoreState, s': CoreState) {
    && s' == s.(tasks := s'.tasks, rt := s'.rt, normal := s'.normal, sleeping := s'.sleeping)
    && s.rt <= s'.rt && s.normal <= s'.normal && s'.tasks.Keys == s.tasks.Keys
    && forall t | t in s.tasks ::
      s'.tasks[t] == if Due(s.tasks[t], s.localTick) then Readied(s.tasks[t]) else s.tasks[t]
  }

  ghost predicate NoneDue(s: CoreState) { forall t | t in s.tasks :: !Due(s.tasks[t], s.localTick) }

  /** In the middle of waking: some of those that were due are ready. */
  ghost predicate DueSoFar(s: CoreState, s': CoreState) {
    && s' == s.(tasks := s'.tasks, rt := s'.rt, normal := s'.normal, sleeping := s'.sleeping)
    && s.rt <= s'.rt && s.normal <= s'.normal && s'.tasks.Keys == s.tasks.Keys
    && forall t | t in s.tasks ::
      s'.tasks[t] == s.tasks[t] || (Due(s.tasks[t], s.localTick) && s'.tasks[t] == Readied(s.tasks[t]))
  }

  lemma DueStarts(s: CoreState)
    ensures DueSoFar(s, s)
  {
  }

  lemma DueOneMore(s: CoreState, m: CoreState, s': CoreState, t: nat)
    requires DueSoFar(s, m) && t in m.tasks && Due(m.tasks[t], m.localTick)
    requires s' == m.(tasks := m.tasks[t := Readied(m.tasks[t])], rt := s'.rt, normal := s'.normal,
                      sleeping := s'.sleeping)
    requires m.rt <= s'.rt && m.normal <= s'.normal
    ensures DueSoFar(s, s')
  {
  }

  lemma DueAtEnd(s: CoreState, s': CoreState)
    requires DueSoFar(s, s') && NoneDue(s')
    ensures DueWoken(s, s')
  {
  }

  /** Second half: the context that runs pays for the tick. */
  ghost predicate Charged(s: CoreState, s': CoreState) {
    s' == s.(idle := if s.running.IdleThread? then Ticked(s.idle) else s.idle,
             boot := if s.running.BootThread? then Ticked(s.boot) else s.boot,
             tasks := if s.running.Thread? && !s.leaving && s.running.pid in s.tasks
                      then s.tasks[s.running.pid := Ticked(s.tasks[s.running.pid])] else s.tasks)
  }

  lemma HalvesCount(s: CoreState, m: CoreState, s': CoreState)
    requires RunnerOk(s.tasks, s.running, s.idle, s.boot, s.leaving)
    requires DueWoken(s.(localTick := s.localTick + 1), m) && Charged(m, s')
    ensures TickCounted(s, s')
  {
    assert RunsAlone(s.tasks, s.running, s.idle, s.boot, s.leaving);
  }

  /** The slice of the context that runs is used up. */
  predicate SliceIsOver(s: CoreState) {
    match s.running
    case IdleThread => s.idle.slice == 0
    case BootThread => s.boot.slice == 0
    case Thread(t) => !s.leaving && t in s.tasks && s.tasks[t].slice == 0
  }

  /** After the count the running context is preempted if its slice is used up. */
  ghost predicate TickHandled(s: CoreState, s': CoreState) {
    exists m :: Sound(m) && TickCounted(s, m) && if SliceIsOver(m) && m.started then Scheduled(m, s') else s' == m
  }

  ghost predicate Steps(s: CoreState, e: Event, s': CoreState)
    requires Enabled(s, e)
  {
    match e
    case AddTask(pid, policy, slice) => Added(s, pid, policy, slice, s')
    case Reschedule => Scheduled(s, s')
    case Sleep(ms, rate) => WentToSleep(s, ms, rate, s')
    case Block(r) => WentBlocked(s, r, s')
    case Exit(hasParent) => Ended(s, hasParent, s')
    case Reap(pid) => Reaped(s, pid, s')
    case Wakeup(r) => AllWoken(s, r, s')
    case WakeupOne(r) => FirstWoken(s, r, s')
    case Tick => TickHandled(s, s')
  }

  // ---------------------------------------------------------------------------------------------
  // Runs
  // ---------------------------------------------------------------------------------------------

  /** An event that cannot happen changes nothing. */
  ghost predicate Linked(s: CoreState, e: Event, s': CoreState) { if Enabled(s, e) then Steps(s, e, s') else s' == s }

  /** The states of a run, from a core that runs its boot context and knows no task. */
  ghost predicate Traced(events: seq<Event>, trace: seq<CoreState>) {
    && |trace| == |events| + 1 && trace[0].tasks == map[] && trace[0].running == BootThread
    && trace[0].localTick == 0 && !trace[0].started
    && (forall k | 0 <= k < |trace| :: Sound(trace[k]))
    && forall k | 0 <= k < |events| :: LinkedAt(events, trace, k)
  }

  /** Named, so that proofs look at one step of a run at a time. */
  ghost predicate LinkedAt(events: seq<Event>, trace: seq<CoreState>, k: nat)
    requires k < |events| < |trace|
  {
    Linked(trace[k], events[k], trace[k + 1])
  }

  lemma TraceGrows(events: seq<Event>, trace: seq<CoreState>, e: Event, s: CoreState)
    requires Traced(events, trace) && Sound(s) && Linked(trace[|events|], e, s)
    ensures Traced(events + [e], trace + [s])
  {
    var events', trace' := events + [e], trace + [s];
    forall k | 0 <= k < |events'| ensures LinkedAt(events', trace', k) {
      if k < |events| { assert LinkedAt(events, trace, k); }
    }
  }

  /** The task is in the one container of its state, and only the running task is Running. */
  ghost predicate WellPlaced(s: CoreState, t: nat)
    requires t in s.tasks
  {
    OnlyPlace(s.tasks, s.rt, s.normal, s.sleeping, s.blocked,
              t) && (s.tasks[t].status == Running ==> s.running == Thread(t))
  }

  lemma SoundPlaces(s: CoreState, t: nat)
    requires Sound(s) && t in s.tasks
    ensures WellPlaced(s, t)
  {
    ExactlyOnePlace(s.tasks, s.rt, s.normal, s.sleeping, s.blocked, t);
    assert RunsAlone(s.tasks, s.running, s.idle, s.boot, s.leaving);
  }

  lemma TraceIsPlaced(events: seq<Event>, trace: seq<CoreState>)
    requires Traced(events, trace)
    ensures forall k, t | 0 <= k < |trace| && t in trace[k].tasks :: WellPlaced(trace[k], t)
  {
    forall k, t | 0 <= k < |trace| && t in trace[k].tasks ensures WellPlaced(trace[k], t) {
      SoundPlaces(trace[k], t);
    }
  }

  function TicksIn(events: seq<Event>): nat {
    if events == [] then 0 else TicksIn(events[..|events| - 1]) + if events[|events| - 1].Tick? then 1 else 0
  }

  lemma StepTicks(s: CoreState, e: Event, s': CoreState)
    requires Linked(s, e, s')
    ensures s'.localTick == s.localTick + if e.Tick? then 1 else 0
  {
  }

  /** The tick count is the number of ticks there were. */
  lemma {:induction false} TicksAreCounted(events: seq<Event>, trace: seq<CoreState>, k: nat)
    requires Traced(events, trace) && k <= |events|
    ensures trace[k].localTick == TicksIn(events[..k])
  {
    if k > 0 {
      TicksAreCounted(events, trace, k - 1);
      assert LinkedAt(events, trace, k - 1);
      StepTicks(trace[k - 1], events[k - 1], trace[k]);
      assert events[..k][..k - 1] == events[..k - 1];
    }
  }

  /** No sleeper is kept beyond its tick. */
  ghost predicate NoneOverdue(s: CoreState) {
    forall t | t in s.tasks && s.tasks[t].status == Sleeping :: s.localTick <= s.tasks[t].wakeTick
  }

  lemma ScheduleSparesSleepers(s: CoreState, s': CoreState, t: nat)
    requires Scheduled(s, s') && t in s'.tasks && s'.tasks[t].status == Sleeping
    ensures t in s.tasks && s'.tasks[t] == s.tasks[t]
  {
  }

  /** The handler in its two parts. */
  lemma TickIsHandled(s: CoreState, m: CoreState, s': CoreState)
    requires Sound(m) && TickCounted(s, m) && if SliceIsOver(m) && m.started then Scheduled(m, s') else s' == m
    ensures TickHandled(s, s')
    ensures forall t | t in s'.tasks && s'.tasks[t].status == Sleeping :: s'.localTick < s'.tasks[t].wakeTick
  {
    TickWakes(s, s');
  }

  lemma CountWakes(s: CoreState, s': CoreState, t: nat)
    requires TickCounted(s, s') && t in s'.tasks && s'.tasks[t].status == Sleeping
    ensures s'.localTick < s'.tasks[t].wakeTick
  {
  }

  lemma TickWakes(s: CoreState, s': CoreState)
    requires TickHandled(s, s')
    ensures forall t | t in s'.tasks && s'.tasks[t].status == Sleeping :: s'.localTick < s'.tasks[t].wakeTick
  {
    var m :| Sound(m) && TickCounted(s, m) && if SliceIsOver(m) && m.started then Scheduled(m, s') else s' == m;
    forall t | t in s'.tasks && s'.tasks[t].status == Sleeping ensures s'.localTick < s'.tasks[t].wakeTick {
      if s' != m { ScheduleSparesSleepers(m, s', t); }
      CountWakes(s, m, t);
    }
  }

  lemma StepWakes(s: CoreState, e: Event, s': CoreState)
    requires Linked(s, e, s') && NoneOverdue(s)
    ensures NoneOverdue(s')
  {
    if e.Tick? {
      TickWakes(s, s');
    } else if e.Reschedule? {
      forall t | t in s'.tasks && s'.tasks[t].status == Sleeping ensures s'.localTick <= s'.tasks[t].wakeTick {
        ScheduleSparesSleepers(s, s', t);
      }
    } else if e.Wakeup? {
      WakeupSparesSleepers(s, e.resource, s');
    } else {
      OneTaskWakes(s, e, s');
    }
  }

  lemma WakeupSparesSleepers(s: CoreState, resource: nat, s': CoreState)
    requires AllWoken(s, resource, s') && NoneOverdue(s)
    ensures NoneOverdue(s')
  {
  }

  lemma OneTaskWakes(s: CoreState, e: Event, s': CoreState)
    requires Linked(s, e, s') && NoneOverdue(s) && !e.Tick? && !e.Reschedule? && !e.Wakeup?
    ensures NoneOverdue(s')
  {
  }

  /** In every run a task is awake again by the tick it asked for. */
  lemma {:induction false} NobodyOversleeps(events: seq<Event>, trace: seq<CoreState>, k: nat)
    requires Traced(events, trace) && k <= |events|
    ensures NoneOverdue(trace[k])
  {
    if k > 0 {
      NobodyOversleeps(events, trace, k - 1);
      assert LinkedAt(events, trace, k - 1);
      StepWakes(trace[k - 1], events[k - 1], trace[k]);
    }
  }

  /** What was dispatched was ready or running. */
  lemma DispatchedLives(s: CoreState, s': CoreState)
    requires Sound(s) && Scheduled(s, s') && s'.running.Thread?
    ensures s'.running.pid in s.tasks && !Dead(s.tasks[s'.running.pid])
  {
    FrontIsReady(s.tasks, s.rt, s.normal, s.sleeping, s.blocked);
  }

  lemma ScheduleSparesDead(s: CoreState, s': CoreState, t: nat)
    requires Sound(s) && Scheduled(s, s') && t in s.tasks && Dead(s.tasks[t])
    ensures t in s'.tasks && s'.tasks[t] == s.tasks[t]
  {
    assert RunsAlone(s.tasks, s.running, s.idle, s.boot, s.leaving);
    if s'.running.Thread? {
      DispatchedLives(s, s');
    }
  }

  lemma TickSparesDead(s: CoreState, s': CoreState, t: nat)
    requires Sound(s) && TickHandled(s, s') && t in s.tasks && Dead(s.tasks[t])
    ensures t in s'.tasks && s'.tasks[t] == s.tasks[t]
  {
    assert RunsAlone(s.tasks, s.running, s.idle, s.boot, s.leaving);
    var m :| Sound(m) && TickCounted(s, m) && if SliceIsOver(m) && m.started then Scheduled(m, s') else s' == m;
    assert m.tasks[t] == s.tasks[t];
    if s' != m { ScheduleSparesDead(m, s', t); }
  }

  /** Only being reaped happens to a task that has ended. */
  lemma StepSparesDead(s: CoreState, e: Event, s': CoreState, t: nat)
    requires Sound(s) && Linked(s, e, s') && t in s.tasks && Dead(s.tasks[t]) && e != Event.Reap(t)
    ensures t in s'.tasks && s'.tasks[t] == s.tasks[t]
  {
    if e.Tick? {
      TickSparesDead(s, s', t);
    } else if e.Reschedule? {
      ScheduleSparesDead(s, s', t);
    } else {
      assert RunsAlone(s.tasks, s.running, s.idle, s.boot, s.leaving);
    }
  }

  /** In every run a task that has ended keeps its record until an event reaps it. */
  lemma {:induction false} EndedUntilReaped(events: seq<Event>, trace: seq<CoreState>, j: nat, k: nat, t: nat)
    requires Traced(events, trace) && j <= k <= |events| && t in trace[j].tasks && Dead(trace[j].tasks[t])
    requires forall i | j <= i < k :: events[i] != Event.Reap(t)
    ensures t in trace[k].tasks && trace[k].tasks[t] == trace[j].tasks[t]
    decreases k
  {
    if j < k {
      EndedUntilReaped(events, trace, j, k - 1, t);
      assert LinkedAt(events, trace, k - 1);
      StepSparesDead(trace[k - 1], events[k - 1], trace[k], t);
    }
  }

  /** A pid enters the table by AddTask only, and leaves it only by being reaped after it has ended. */
  lemma StepKeepsTable(s: CoreState, e: Event, s': CoreState, t: nat)
    requires Linked(s, e, s')
    ensures t in s'.tasks && t !in s.tasks ==> e.AddTask? && e.pid == t
    ensures t in s.tasks && t !in s'.tasks ==> e == Event.Reap(t) && Dead(s.tasks[t])
  {
  }
}
