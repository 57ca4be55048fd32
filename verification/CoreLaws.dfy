/** Laws over whole runs of a core: how long a task sleeps, and how long it runs before it is preempted. */
module CoreLaws {
  import opened KernelConfig
  import opened TaskPlacement
  import opened CoreQueues
  import opened CoreSteps

  // ---------------------------------------------------------------------------------------------
  // Sleeping
  // ---------------------------------------------------------------------------------------------

  predicate Asleep(s: CoreState, t: nat) { t in s.tasks && s.tasks[t].status == Sleeping }

  lemma NotRunning(s: CoreState, t: nat)
    requires Sound(s) && Asleep(s, t)
    ensures s.running == Thread(t) ==> s.leaving
  {
    assert RunsAlone(s.tasks, s.running, s.idle, s.boot, s.leaving);
  }

  /** Schedule does not pick a sleeper. */
  lemma ScheduleLeavesSleeper(s: CoreState, s': CoreState, t: nat)
    requires Sound(s) && Scheduled(s, s') && Asleep(s, t)
    ensures t in s'.tasks && s'.tasks[t] == s.tasks[t]
  {
    NotRunning(s, t);
    FrontIsReady(s.tasks, s.rt, s.normal, s.sleeping, s.blocked);
  }

  lemma TickLeavesSleeper(s: CoreState, s': CoreState, t: nat)
    requires Sound(s) && TickHandled(s, s') && Asleep(s, t) && s.localTick + 1 < s.tasks[t].wakeTick
    ensures t in s'.tasks && s'.tasks[t] == s.tasks[t]
  {
    NotRunning(s, t);
    var m :| Sound(m) && TickCounted(s, m) && if SliceIsOver(m) && m.started then Scheduled(m, s') else s' == m;
    assert m.tasks[t] == s.tasks[t];
    if s' != m { ScheduleLeavesSleeper(m, s', t); }
  }

  /** Nothing but its tick wakes a sleeper. */
  lemma SleeperStays(s: CoreState, e: Event, s': CoreState, t: nat)
    requires Sound(s) && Linked(s, e, s') && Asleep(s, t) && (e.Tick? ==> s.localTick + 1 < s.tasks[t].wakeTick)
    ensures t in s'.tasks && s'.tasks[t] == s.tasks[t]
  {
    NotRunning(s, t);
    if e.Tick? {
      TickLeavesSleeper(s, s', t);
    } else if e.Reschedule? {
      ScheduleLeavesSleeper(s, s', t);
    }
  }

  /** Event i puts task t to sleep. */
  ghost predicate FallsAsleep(events: seq<Event>, trace: seq<CoreState>, i: nat, t: nat)
    requires Traced(events, trace) && i < |events|
  {
    && events[i].Sleep? && Enabled(trace[i], events[i]) && trace[i].running == Thread(t)
    && events[i].ms > 0 && |trace[i].sleeping| < MAX_SLEEPING
  }

  /** The ticks a task asks to sleep through. */
  function TicksAsked(ms: nat, ticksPerSecond: nat): nat { ms * ticksPerSecond / 1000 }

  function AtLeastOne(d: nat): nat { if d == 0 then 1 else d }

  lemma TickAt(events: seq<Event>, trace: seq<CoreState>, j: nat)
    requires Traced(events, trace) && j < |events|
    ensures trace[j + 1].localTick == trace[j].localTick + if events[j].Tick? then 1 else 0
  {
    assert LinkedAt(events, trace, j);
    StepTicks(trace[j], events[j], trace[j + 1]);
  }

  lemma {:induction false} TicksGrow(events: seq<Event>, trace: seq<CoreState>, i: nat, j: nat)
    requires Traced(events, trace) && i <= j <= |events|
    ensures trace[i].localTick <= trace[j].localTick
    decreases j
  {
    if i < j {
      TicksGrow(events, trace, i, j - 1);
      TickAt(events, trace, j - 1);
    }
  }

  lemma FallenAsleep(events: seq<Event>, trace: seq<CoreState>, i: nat, t: nat)
    requires Traced(events, trace) && i < |events| && FallsAsleep(events, trace, i, t)
    ensures Asleep(trace[i + 1], t) && trace[i + 1].localTick == trace[i].localTick
    ensures trace[i + 1].tasks[t].wakeTick == trace[i].localTick + TicksAsked(events[i].ms, events[i].ticksPerSecond)
  {
    assert LinkedAt(events, trace, i);
  }

  lemma SleeperStaysAt(events: seq<Event>, trace: seq<CoreState>, j: nat, t: nat)
    requires Traced(events, trace) && j < |events| && Asleep(trace[j], t)
    requires events[j].Tick? ==> trace[j].localTick + 1 < trace[j].tasks[t].wakeTick
    ensures Asleep(trace[j + 1], t) && trace[j + 1].tasks[t].wakeTick == trace[j].tasks[t].wakeTick
  {
    assert LinkedAt(events, trace, j);
    SleeperStays(trace[j], events[j], trace[j + 1], t);
  }

  /** Until the tick before the one it waits for, a sleeper is asleep. */
  lemma {:induction false} SleeperWaits(events: seq<Event>, trace: seq<CoreState>, k: nat, j: nat, t: nat, w: nat)
    requires Traced(events, trace) && k <= j <= |events| && Asleep(trace[k], t) && trace[k].tasks[t].wakeTick == w
    requires trace[j].localTick < w || trace[j].localTick == trace[k].localTick
    ensures Asleep(trace[j], t) && trace[j].tasks[t].wakeTick == w
    decreases j
  {
    if k < j {
      TicksGrow(events, trace, k, j - 1);
      TickAt(events, trace, j - 1);
      SleeperWaits(events, trace, k, j - 1, t, w);
      SleeperStaysAt(events, trace, j - 1, t);
    }
  }

  /** A task that asked to sleep for ms sleeps through ms * rate / 1000 ticks; if that is none, until the next one. */
  lemma StaysAsleep(events: seq<Event>, trace: seq<CoreState>, i: nat, j: nat, t: nat)
    requires Traced(events, trace) && i < j <= |events| && FallsAsleep(events, trace, i, t)
    requires var d := TicksAsked(events[i].ms, events[i].ticksPerSecond);
      trace[j].localTick < trace[i].localTick + AtLeastOne(d)
    ensures Asleep(trace[j], t)
  {
    FallenAsleep(events, trace, i, t);
    TicksGrow(events, trace, i, j);
    SleeperWaits(events, trace, i + 1, j, t, trace[i + 1].tasks[t].wakeTick);
  }

  /** And it wakes with exactly that tick. */
  lemma WakesOnTime(events: seq<Event>, trace: seq<CoreState>, i: nat, j: nat, t: nat)
    requires Traced(events, trace) && i < j < |events| && FallsAsleep(events, trace, i, t) && events[j].Tick?
    requires var d := TicksAsked(events[i].ms, events[i].ticksPerSecond);
      trace[j].localTick + 1 == trace[i].localTick + AtLeastOne(d)
    ensures Asleep(trace[j], t) && t in trace[j + 1].tasks && !Asleep(trace[j + 1], t)
  {
    FallenAsleep(events, trace, i, t);
    TicksGrow(events, trace, i, j);
    SleeperWaits(events, trace, i + 1, j, t, trace[i + 1].tasks[t].wakeTick);
    assert LinkedAt(events, trace, j);
    TickEndsSleep(trace[j], trace[j + 1], t);
  }

  lemma TickEndsSleep(s: CoreState, s': CoreState, t: nat)
    requires TickHandled(s, s') && Asleep(s, t) && s.tasks[t].wakeTick <= s.localTick + 1
    ensures t in s'.tasks && !Asleep(s', t)
  {
    TickWakes(s, s');
    var m :| Sound(m) && TickCounted(s, m) && if SliceIsOver(m) && m.started then Scheduled(m, s') else s' == m;
    assert m.tasks[t] == Readied(s.tasks[t]);
    if s' != m && t in s'.tasks && s'.tasks[t].status == Sleeping { ScheduleSparesSleepers(m, s', t); }
  }

  // ---------------------------------------------------------------------------------------------
  // Running
  // ---------------------------------------------------------------------------------------------

  /** Events that come from elsewhere, and ticks. */
  predicate FromOutside(e: Event) { e.Tick? || e.AddTask? || e.Reap? || e.Wakeup? || e.WakeupOne? }

  predicate Runs(s: CoreState, t: nat) {
    s.running == Thread(t) && !s.leaving && s.started && t in s.tasks && s.tasks[t].status == Running
  }

  /** What comes from elsewhere does not touch the running task. */
  lemma RunnerUndisturbed(s: CoreState, e: Event, s': CoreState, t: nat)
    requires Sound(s) && Linked(s, e, s') && Runs(s, t) && FromOutside(e) && !e.Tick?
    ensures Runs(s', t) && s'.tasks[t] == s.tasks[t]
  {
    assert RunsAlone(s.tasks, s.running, s.idle, s.boot, s.leaving);
    FrontOfGroup(s, e, t);
  }

  lemma FrontOfGroup(s: CoreState, e: Event, t: nat)
    requires Sound(s) && t in s.tasks && s.tasks[t].status == Running
    ensures e.WakeupOne? && e.resource in s.blocked ==> s.blocked[e.resource] != [] && s.blocked[e.resource][0] != t
  {
    if e.WakeupOne? {
      GroupFront(s.tasks, s.rt, s.normal, s.sleeping, s.blocked, e.resource);
    }
  }

  /** A tick that does not use up the slice takes one from it and goes on with the task. */
  lemma TickCharges(s: CoreState, s': CoreState, t: nat)
    requires TickHandled(s, s') && Runs(s, t) && s.tasks[t].slice > 1
    ensures Runs(s', t) && s'.tasks[t] == s.tasks[t].(slice := s.tasks[t].slice - 1)
  {
    var m :| Sound(m) && TickCounted(s, m) && if SliceIsOver(m) && m.started then Scheduled(m, s') else s' == m;
    assert m.tasks[t] == Ticked(s.tasks[t]);
  }

  function Charge(t: Task, n: nat): Task { t.(slice := if t.slice >= n then t.slice - n else 0) }

  lemma ChargedAt(events: seq<Event>, trace: seq<CoreState>, j: nat, t: nat)
    requires Traced(events, trace) && j < |events| && Runs(trace[j], t) && FromOutside(events[j])
    requires events[j].Tick? ==> trace[j].tasks[t].slice > 1
    ensures Runs(trace[j + 1], t)
    ensures trace[j + 1].tasks[t] == Charge(trace[j].tasks[t], if events[j].Tick? then 1 else 0)
  {
    assert LinkedAt(events, trace, j);
    if events[j].Tick? {
      TickCharges(trace[j], trace[j + 1], t);
    } else {
      RunnerUndisturbed(trace[j], events[j], trace[j + 1], t);
    }
  }

  /** As long as fewer ticks have come than its slice has, the task runs on, one tick of its slice less each time. */
  lemma {:induction false} RunsThroughSlice(events: seq<Event>, trace: seq<CoreState>, k: nat, j: nat, t: nat, n: nat)
    requires Traced(events, trace) && k <= j <= |events| && Runs(trace[k], t)
    requires forall i | k <= i < j :: FromOutside(events[i])
    requires trace[j].localTick == trace[k].localTick + n && (n == 0 || n < trace[k].tasks[t].slice)
    ensures Runs(trace[j], t) && trace[j].tasks[t] == Charge(trace[k].tasks[t], n)
    decreases j
  {
    if k < j {
      TicksGrow(events, trace, k, j - 1);
      TickAt(events, trace, j - 1);
      RunsThroughSlice(events, trace, k, j - 1, t, trace[j - 1].localTick - trace[k].localTick);
      ChargedAt(events, trace, j - 1, t);
    }
  }

  /** Others that Schedule prefers to a task at the end of its queue. */
  predicate Rivals(s: CoreState, t: nat)
    requires t in s.tasks
  {
    s.rt != [] || (s.tasks[t].policy == Normal && s.normal != [])
  }

  /** The tick that uses up the slice takes the core away: the task goes behind all others of its queue. */
  lemma TickPreempts(s: CoreState, s': CoreState, t: nat)
    requires Sound(s) && TickHandled(s, s') && Runs(s, t) && s.tasks[t].slice <= 1
    ensures Rivals(s, t) ==> t in s'.tasks && s'.running != Thread(t) && s'.tasks[t].status == Ready
    ensures t in s'.tasks && (s'.running == Thread(t) ==> s'.tasks[t].slice == s.tasks[t].sliceDefault)
  {
    var m :| Sound(m) && TickCounted(s, m) && if SliceIsOver(m) && m.started then Scheduled(m, s') else s' == m;
    assert m.tasks[t] == Ticked(s.tasks[t]);
    SpentIsScheduled(m, s', t);
  }

  lemma SpentIsScheduled(m: CoreState, s': CoreState, t: nat)
    requires Sound(m) && Scheduled(m, s') && Runs(m, t)
    ensures Rivals(m, t) ==> t in s'.tasks && s'.running != Thread(t) && s'.tasks[t].status == Ready
    ensures t in s'.tasks && (s'.running == Thread(t) ==> s'.tasks[t].slice == m.tasks[t].sliceDefault)
  {
    FrontIsReady(m.tasks, m.rt, m.normal, m.sleeping, m.blocked);
    NoIdleTask(m.tasks, m.rt, m.normal, m.sleeping, m.blocked, t);
  }

  /** A task with a slice of n > 0 left is preempted by the n-th tick from then on, and not before. */
  lemma PreemptedByLastTick(events: seq<Event>, trace: seq<CoreState>, k: nat, j: nat, t: nat)
    requires Traced(events, trace) && k <= j < |events| && Runs(trace[k], t) && trace[k].tasks[t].slice > 0
    requires (forall i | k <= i < j :: FromOutside(events[i])) && events[j].Tick?
    requires trace[j].localTick + 1 == trace[k].localTick + trace[k].tasks[t].slice
    ensures Runs(trace[j], t) && t in trace[j + 1].tasks
    ensures Rivals(trace[j], t) ==> trace[j + 1].running != Thread(t) && trace[j + 1].tasks[t].status == Ready
    ensures trace[j + 1].running == Thread(t) ==> trace[j + 1].tasks[t].slice == trace[j].tasks[t].sliceDefault
  {
    RunsThroughSlice(events, trace, k, j, t, trace[k].tasks[t].slice - 1);
    assert LinkedAt(events, trace, j);
    TickPreempts(trace[j], trace[j + 1], t);
  }

  // ---------------------------------------------------------------------------------------------
  // Who runs next
  // ---------------------------------------------------------------------------------------------

  /** A task that Schedule may choose: it is ready, or it runs and has not given up the core. */
  predicate Runnable(s: CoreState, t: nat, policy: Policy) {
    t in s.tasks && s.tasks[t].policy == policy && (s.tasks[t].status == Ready || s.tasks[t].status == Running)
  }

  lemma RunnableIsQueued(s: CoreState, t: nat, policy: Policy)
    requires Sound(s) && Runnable(s, t, policy) && policy != Idle
    ensures policy == RealTime ==> t in Requeued(s, s.rt, RealTime)
    ensures policy == Normal ==> t in Requeued(s, s.normal, Normal)
  {
    assert RunsAlone(s.tasks, s.running, s.idle, s.boot, s.leaving);
    assert AllPlaced(s.tasks, s.rt, s.normal, s.sleeping, s.blocked);
  }

  /**
  Schedule never idles while a task can run, and never runs a normal task while a real-time one can: by the states
  of the tasks, not by the queues.
  */
  lemma RealTimeFirst(s: CoreState, s': CoreState, t: nat)
    requires Sound(s) && Scheduled(s, s')
    ensures Runnable(s, t, RealTime) ==> s'.running.Thread? && Runnable(s, s'.running.pid, RealTime)
    ensures Runnable(s, t, Normal) ==>
      s'.running.Thread? && (Runnable(s, s'.running.pid, RealTime) || Runnable(s, s'.running.pid, Normal))
    ensures s'.running.Thread? ==> Runnable(s, s'.running.pid, RealTime) || Runnable(s, s'.running.pid, Normal)
  {
    if Runnable(s, t, RealTime) { RunnableIsQueued(s, t, RealTime); }
    if Runnable(s, t, Normal) { RunnableIsQueued(s, t, Normal); }
    FrontIsReady(s.tasks, s.rt, s.normal, s.sleeping, s.blocked);
  }

  /** Where a real-time task stands in its queue. */
  predicate StandsAt(s: CoreState, t: nat, k: nat) { k < |s.rt| && s.rt[k] == t }

  /** Nobody overtakes in the queue of real-time tasks: a call of Schedule moves each of them one place on. */
  lemma ScheduleMovesOn(s: CoreState, s': CoreState, t: nat, k: nat)
    requires Scheduled(s, s') && StandsAt(s, t, k)
    ensures if k == 0 then s'.running == Thread(t) else StandsAt(s', t, k - 1)
  {
  }

  lemma TickKeepsPlace(s: CoreState, s': CoreState, t: nat, k: nat)
    requires TickHandled(s, s') && StandsAt(s, t, k)
    ensures StandsAt(s', t, k) || (if k == 0 then s'.running == Thread(t) else StandsAt(s', t, k - 1))
  {
    var m :| Sound(m) && TickCounted(s, m) && if SliceIsOver(m) && m.started then Scheduled(m, s') else s' == m;
    assert StandsAt(m, t, k);
    if s' != m { ScheduleMovesOn(m, s', t, k); }
  }

  /** No event moves a waiting real-time task back. */
  lemma NobodyOvertakes(s: CoreState, e: Event, s': CoreState, t: nat, k: nat)
    requires Linked(s, e, s') && StandsAt(s, t, k)
    ensures StandsAt(s', t, k) || (if k == 0 then s'.running == Thread(t) else StandsAt(s', t, k - 1))
    ensures e.Reschedule? ==> if k == 0 then s'.running == Thread(t) else StandsAt(s', t, k - 1)
  {
    if e.Tick? {
      TickKeepsPlace(s, s', t, k);
    } else if e.Reschedule? {
      ScheduleMovesOn(s, s', t, k);
    }
  }

  function Reschedules(events: seq<Event>): nat {
    if events == [] then 0
    else Reschedules(events[..|events| - 1]) + if events[|events| - 1].Reschedule? then 1 else 0
  }

  /** In every run a real-time task at place k of its queue has run by the (k+1)-th call of Schedule from then on. */
  lemma {:induction false} WaitsItsTurn(events: seq<Event>, trace: seq<CoreState>, i: nat, j: nat, t: nat, k: nat)
    requires Traced(events, trace) && i <= j <= |events| && StandsAt(trace[i], t, k)
    ensures (exists n :: i < n <= j && trace[n].running == Thread(t)) ||
      exists p: nat :: p + Reschedules(events[i..j]) <= k && StandsAt(trace[j], t, p)
    decreases j
  {
    if i == j {
      assert events[i..j] == [] && k + Reschedules(events[i..j]) <= k;
    } else {
      WaitsItsTurn(events, trace, i, j - 1, t, k);
      if !exists n :: i < n <= j - 1 && trace[n].running == Thread(t) {
        var p: nat :| p + Reschedules(events[i..j - 1]) <= k && StandsAt(trace[j - 1], t, p);
        MovesOnAt(events, trace, j - 1, t, p);
        assert events[i..j][..j - 1 - i] == events[i..j - 1];
        if p > 0 && StandsAt(trace[j], t, p - 1) {
          assert (p - 1) + Reschedules(events[i..j]) <= k;
        } else if StandsAt(trace[j], t, p) && !events[j - 1].Reschedule? {
          assert p + Reschedules(events[i..j]) <= k;
        }
      }
    }
  }

  lemma MovesOnAt(events: seq<Event>, trace: seq<CoreState>, j: nat, t: nat, p: nat)
    requires Traced(events, trace) && j < |events| && StandsAt(trace[j], t, p)
    ensures StandsAt(trace[j + 1], t,
                     p) || (if p == 0 then trace[j + 1].running == Thread(t) else StandsAt(trace[j + 1], t, p - 1))
    ensures events[j].Reschedule? ==>
      if p == 0 then trace[j + 1].running == Thread(t) else StandsAt(trace[j + 1], t, p - 1)
  {
    assert LinkedAt(events, trace, j);
    NobodyOvertakes(trace[j], events[j], trace[j + 1], t, p);
  }
}
