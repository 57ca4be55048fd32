/**
The blocking mutex of mutex.cpp together with the parts of block.cpp and wakeup.cpp it rests on:
any number of tasks with distinct pids, any number of cores, every interleaving.

One transition is one atomic access to `locked_` or `owner_`, one acquisition of a run-queue lock,
or one step inside the section it protects. The re-check of `locked_` and the blocking that
follows it are separate transitions, both made while the run-queue lock is held, so an unlock may
fall between them. `WakeupOne` visits one core per transition, and only when that core's run-queue
lock is free.
*/
module MutexProtocol {
  import opened KernelConfig
  import opened Options

  datatype Call = Lock | TryLock | UnLock

  datatype Result = Pending | Success | RecursiveLock | NotLocked | NotOwned

  datatype Pc =
    | Outside                   // not inside a mutex call
    | LoadLocked(call: Call)    // IsLockedByCurrentTask: load locked_
    | LoadOwner(call: Call)     // IsLockedByCurrentTask: load owner_
    | FastCas(call: Call)       // first compare-and-swap of Lock or TryLock
    | StoreOwner                // won without the run-queue lock; owner_ not yet stored
    | WantRunLock               // slow path, before taking the run-queue lock
    | Recheck(core: nat)        // run-queue lock held, before the second compare-and-swap
    | StoreOwnerHeld(core: nat) // won on the re-check; owner_ not yet stored
    | EnterBlock(core: nat)     // lost on the re-check; about to Block
    | Parked(core: nat)         // in the blocked list of that core
    | Retry                     // scheduled again, before the third compare-and-swap
    | ClearOwner                // UnLock, before owner_ is reset
    | ClearLocked               // UnLock, before locked_ is reset
    | Scan(core: nat)           // UnLock, WakeupOne about to visit that core
  {
    predicate HasRunLock() { Recheck? || StoreOwnerHeld? || EnterBlock? }

    /** The task waits on that core, or has decided to. */
    predicate WaitsOn(c: nat) { (Parked? || EnterBlock?) && core == c }

    /** The transitions between winning `locked_` and giving it back. */
    predicate MustHold() { StoreOwner? || StoreOwnerHeld? || ClearOwner? || ClearLocked? }

    predicate MayHold() { MustHold() || Outside? || LoadLocked? || LoadOwner? }
  }

  /** `holds` records that the task won `locked_` and has not stored false yet; the code keeps no such flag. */
  datatype Task = Task(pc: Pc, holds: bool, result: Result)

  datatype World = World(
    locked: bool,
    owner: Option<nat>,
    tasks: map<nat, Task>,
    blocked: seq<seq<nat>>,       // per core, the tasks blocked on this mutex
    runLock: seq<Option<nat>>)    // per core, who holds the run-queue lock

  datatype Label =
    | Enter(pid: nat, call: Call)
    | Step(pid: nat, core: nat)   // core: where the task runs, used when it takes a run-queue lock

  predicate WellShaped(w: World) { |w.blocked| == |w.runLock| }

  function Init(pids: set<nat>, cores: nat): World {
    World(false, None, map p | p in pids :: Task(Outside, false, Pending), seq(cores, _ => []), seq(cores, _ => None))
  }

  function Goto(w: World, p: nat, pc: Pc): World
    requires p in w.tasks
  {
    w.(tasks := w.tasks[p := w.tasks[p].(pc := pc)])
  }

  function Return(w: World, p: nat, res: Result): World
    requires p in w.tasks
  {
    w.(tasks := w.tasks[p := w.tasks[p].(pc := Outside, result := res)])
  }

  /** compare_exchange_strong(false, true) on `locked_`. */
  function Cas(w: World, p: nat, won: Pc, lost: Pc): World
    requires p in w.tasks
  {
    if w.locked then Goto(w, p, lost)
    else w.(locked := true, tasks := w.tasks[p := w.tasks[p].(pc := won, holds := true)])
  }

  function SetRunLock(w: World, c: nat, who: Option<nat>): World {
    if c < |w.runLock| then w.(runLock := w.runLock[c := who]) else w
  }

  /** Block under the held run-queue lock, then release it. A full list only yields. */
  function DoBlock(w: World, p: nat, c: nat): World
    requires p in w.tasks && WellShaped(w) && c < |w.blocked|
  {
    var r := SetRunLock(w, c, None);
    if |w.blocked[c]| >= MAX_BLOCKED_PER_GROUP then Goto(r, p, Retry)
    else Goto(r.(blocked := w.blocked[c := w.blocked[c] + [p]]), p, Parked(c))
  }

  /** One iteration of WakeupOne: wake the first task blocked on core c, or go on to the next core. */
  function VisitCore(w: World, p: nat, c: nat): World
    requires p in w.tasks && WellShaped(w)
  {
    if c >= |w.blocked| then Return(w, p, Success)
    else if w.runLock[c] != None then w
    else if w.blocked[c] == [] then Goto(w, p, Scan(c + 1))
    else
      var t := w.blocked[c][0];
      var r := w.(blocked := w.blocked[c := w.blocked[c][1..]]);
      Return(if t in r.tasks then Goto(r, t, Retry) else r, p, Success)
  }

  function Advance(w: World, p: nat, core: nat): World
    requires p in w.tasks && WellShaped(w)
  {
    match w.tasks[p].pc
    case Outside => w
    case LoadLocked(k) =>
      if w.locked then Goto(w, p, LoadOwner(k))
      else if k == UnLock then Return(w, p, NotOwned) else Goto(w, p, FastCas(k))
    case LoadOwner(k) =>
      if w.owner == Some(p) then (if k == UnLock then Goto(w, p, ClearOwner) else Return(w, p, RecursiveLock))
      else if k == UnLock then Return(w, p, NotOwned) else Goto(w, p, FastCas(k))
    case FastCas(k) =>
      if k == TryLock && w.locked then Return(w, p, NotLocked) else Cas(w, p, StoreOwner, WantRunLock)
    case StoreOwner => Return(w.(owner := Some(p)), p, Success)
    case WantRunLock =>
      if core < |w.runLock| && w.runLock[core] == None then Goto(SetRunLock(w, core, Some(p)), p, Recheck(core)) else w
    case Recheck(c) => Cas(w, p, StoreOwnerHeld(c), EnterBlock(c))
    case StoreOwnerHeld(c) => Return(SetRunLock(w.(owner := Some(p)), c, None), p, Success)
    case EnterBlock(c) => if c < |w.blocked| then DoBlock(w, p, c) else w
    case Parked(_) => w
    case Retry => Cas(w, p, StoreOwner, WantRunLock)
    case ClearOwner => Goto(w.(owner := None), p, ClearLocked)
    case ClearLocked => w.(locked := false, tasks := w.tasks[p := w.tasks[p].(pc := Scan(0), holds := false)])
    case Scan(c) => VisitCore(w, p, c)
  }

  function Apply(w: World, l: Label): (r: World)
    requires WellShaped(w)
    ensures WellShaped(r)
  {
    match l
    case Enter(p, k) =>
      if p in w.tasks && w.tasks[p].pc == Outside
      then w.(tasks := w.tasks[p := w.tasks[p].(pc := LoadLocked(k), result := Pending)]) else w
    case Step(p, core) => if p in w.tasks then Advance(w, p, core) else w
  }

  function Exec(w: World, ls: seq<Label>): (r: World)
    requires WellShaped(w)
    ensures WellShaped(r)
  {
    if ls == [] then w else Apply(Exec(w, ls[..|ls| - 1]), ls[|ls| - 1])
  }

  // ---------------------------------------------------------------------------------------------
  // The invariant
  // ---------------------------------------------------------------------------------------------

  ghost predicate Exclusive(w: World) {
    && (forall p, q | p in w.tasks && q in w.tasks && w.tasks[p].holds && w.tasks[q].holds :: p == q)
    && (forall p | p in w.tasks && w.tasks[p].holds :: w.locked && w.tasks[p].pc.MayHold())
    && (forall p | p in w.tasks && w.tasks[p].pc.MustHold() :: w.tasks[p].holds)
    && (w.locked ==> exists p :: p in w.tasks && w.tasks[p].holds)
  }

  /** The pcs at which a holder's pid is in the owner word. */
  predicate Published(t: Task) { t.holds && !t.pc.StoreOwner? && !t.pc.StoreOwnerHeld? && !t.pc.ClearLocked? }

  ghost predicate OwnerWord(w: World) {
    && (w.owner.Some? ==> w.owner.value in w.tasks && Published(w.tasks[w.owner.value]))
    && (forall p | p in w.tasks && Published(w.tasks[p]) :: w.owner == Some(p))
  }

  ghost predicate RunLocks(w: World) {
    && WellShaped(w)
    && (forall p | p in w.tasks && w.tasks[p].pc.HasRunLock() ::
          w.tasks[p].pc.core < |w.runLock| && w.runLock[w.tasks[p].pc.core] == Some(p))
  }

  ghost predicate Lists(w: World) {
    && WellShaped(w)
    && (forall p | p in w.tasks && w.tasks[p].pc.Parked? ::
          w.tasks[p].pc.core < |w.blocked| && p in w.blocked[w.tasks[p].pc.core])
    && (forall c, k | 0 <= c < |w.blocked| && 0 <= k < |w.blocked[c]| ::
          w.blocked[c][k] in w.tasks && w.tasks[w.blocked[c][k]].pc == Parked(c))
    && (forall c, j, k | 0 <= c < |w.blocked| && 0 <= j < k < |w.blocked[c]| :: w.blocked[c][j] != w.blocked[c][k])
  }

  /** Somebody will still look after the tasks blocked on core c. */
  ghost predicate Attended(w: World, c: nat) {
    || w.locked
    || (exists q :: q in w.tasks && w.tasks[q].pc.Scan? && w.tasks[q].pc.core <= c)
    || (exists q :: q in w.tasks && w.tasks[q].pc.Retry?)
  }

  ghost predicate NoLostWakeup(w: World) {
    forall p, c: nat | p in w.tasks && w.tasks[p].pc.WaitsOn(c) :: Attended(w, c)
  }

  ghost predicate Inv(w: World) {
    Exclusive(w) && OwnerWord(w) && RunLocks(w) && Lists(w) && NoLostWakeup(w)
  }

  // ---------------------------------------------------------------------------------------------
  // Every transition keeps the invariant
  // ---------------------------------------------------------------------------------------------

  lemma InitInv(pids: set<nat>, cores: nat)
    ensures Inv(Init(pids, cores))
  {
  }

  /** r comes from w by a transition of p: nobody else moves, except that blocked tasks may be woken. */
  ghost predicate StepOf(w: World, r: World, p: nat) {
    && WellShaped(w) && WellShaped(r) && |r.blocked| == |w.blocked| && r.tasks.Keys == w.tasks.Keys && p in w.tasks
    && (forall q | q in w.tasks && q != p ::
          r.tasks[q] == w.tasks[q] || (w.tasks[q].pc.Parked? && r.tasks[q] == w.tasks[q].(pc := Retry)))
  }

  /** Only a visit of WakeupOne can move a second task. */
  lemma PlainStep(w: World, l: Label)
    requires WellShaped(w) && l.pid in w.tasks && (l.Enter? || !w.tasks[l.pid].pc.Scan?)
    ensures var r := Apply(w, l);
      l.pid in r.tasks && r.tasks == w.tasks[l.pid := r.tasks[l.pid]] && |r.blocked| == |w.blocked|
  {
  }

  lemma ApplyIsStepOf(w: World, l: Label)
    requires Lists(w) && l.pid in w.tasks
    ensures StepOf(w, Apply(w, l), l.pid)
  {
    if l.Enter? || !w.tasks[l.pid].pc.Scan? {
      PlainStep(w, l);
    } else {
      VisitIsStepOf(w, l.pid, w.tasks[l.pid].pc.core);
    }
  }

  lemma VisitIsStepOf(w: World, p: nat, c: nat)
    requires Lists(w) && p in w.tasks && w.tasks[p].pc == Scan(c)
    ensures StepOf(w, VisitCore(w, p, c), p)
    ensures c < |w.blocked| && w.runLock[c] == None && w.blocked[c] != [] ==>
      w.blocked[c][0] != p && VisitCore(w, p, c).tasks[w.blocked[c][0]].pc == Retry
  {
  }

  // Holding -------------------------------------------------------------------------------------

  /** How one transition of p may change who holds the mutex and what the owner word says. */
  ghost predicate HoldingStep(w: World, r: World, p: nat)
    requires p in w.tasks && p in r.tasks
  {
    var t, t' := w.tasks[p], r.tasks[p];
    && (|| (r.locked == w.locked && t'.holds == t.holds)
        || (!w.locked && r.locked && t'.holds && !Published(t'))
        || (t.holds && !Published(t) && !r.locked && !t'.holds))
    && (t'.holds ==> t'.pc.MayHold())
    && (t'.pc.MustHold() ==> t'.holds)
    && (|| (r.owner == w.owner && Published(t') == Published(t))
        || (!Published(t) && t.holds && Published(t') && r.owner == Some(p))
        || (Published(t) && !Published(t') && r.owner == None))
  }

  lemma StepHolds(w: World, l: Label)
    requires Exclusive(w) && OwnerWord(w) && Lists(w) && l.pid in w.tasks
    ensures l.pid in Apply(w, l).tasks && HoldingStep(w, Apply(w, l), l.pid)
  {
    var t := w.tasks[l.pid];
    if l.Step? && t.pc.Scan? {
      VisitIsStepOf(w, l.pid, t.pc.core);
    } else {
      assert t.holds ==> w.locked && t.pc.MayHold();
      assert t.pc.MustHold() ==> t.holds;
      assert Published(t) <==> w.owner == Some(l.pid);
      PlainStepHolds(w, l);
    }
  }

  lemma PlainStepHolds(w: World, l: Label)
    requires WellShaped(w) && l.pid in w.tasks && (l.Enter? || !w.tasks[l.pid].pc.Scan?)
    requires w.tasks[l.pid].holds ==> w.locked && w.tasks[l.pid].pc.MayHold()
    requires w.tasks[l.pid].pc.MustHold() ==> w.tasks[l.pid].holds
    requires Published(w.tasks[l.pid]) <==> w.owner == Some(l.pid)
    ensures l.pid in Apply(w, l).tasks && HoldingStep(w, Apply(w, l), l.pid)
  {
  }

  lemma HoldingKept(w: World, r: World, p: nat)
    requires Exclusive(w) && OwnerWord(w) && StepOf(w, r, p) && HoldingStep(w, r, p)
    ensures Exclusive(r) && OwnerWord(r)
  {
    assert r.locked ==> exists q :: q in r.tasks && r.tasks[q].holds by {
      if r.locked && w.locked {
        var q :| q in w.tasks && w.tasks[q].holds;
        assert q in r.tasks && r.tasks[q].holds;
      }
    }
  }

  // Run-queue locks -----------------------------------------------------------------------------

  /** How one transition of p may change the run-queue locks. */
  ghost predicate RunLockStep(w: World, r: World, p: nat)
    requires p in w.tasks && p in r.tasks
  {
    var t, t' := w.tasks[p].pc, r.tasks[p].pc;
    || (r.runLock == w.runLock && (t'.HasRunLock() ==> t.HasRunLock() && t'.core == t.core))
    || (&& t'.HasRunLock() && t'.core < |w.runLock| && w.runLock[t'.core] == None
        && r.runLock == w.runLock[t'.core := Some(p)])
    || (t.HasRunLock() && !t'.HasRunLock() && t.core < |w.runLock| && r.runLock == w.runLock[t.core := None])
  }

  lemma StepRunLocks(w: World, l: Label)
    requires RunLocks(w) && Lists(w) && l.pid in w.tasks
    ensures l.pid in Apply(w, l).tasks && RunLockStep(w, Apply(w, l), l.pid)
  {
    if l.Step? && w.tasks[l.pid].pc.Scan? {
      VisitIsStepOf(w, l.pid, w.tasks[l.pid].pc.core);
    } else {
      PlainStepRunLocks(w, l);
    }
  }

  lemma PlainStepRunLocks(w: World, l: Label)
    requires WellShaped(w) && l.pid in w.tasks && (l.Enter? || !w.tasks[l.pid].pc.Scan?)
    requires w.tasks[l.pid].pc.HasRunLock() ==> w.tasks[l.pid].pc.core < |w.runLock|
    ensures l.pid in Apply(w, l).tasks && RunLockStep(w, Apply(w, l), l.pid)
  {
  }

  lemma RunLocksKept(w: World, r: World, p: nat)
    requires RunLocks(w) && StepOf(w, r, p) && RunLockStep(w, r, p)
    ensures RunLocks(r)
  {
  }

  // Blocked lists -------------------------------------------------------------------------------

  /** Every transition but a block and a successful visit leaves the lists alone. */
  lemma StepLists(w: World, l: Label)
    requires RunLocks(w) && Lists(w) && l.pid in w.tasks
    ensures l.pid in Apply(w, l).tasks
    ensures var r := Apply(w, l);
      || (&& r.blocked == w.blocked && r.tasks == w.tasks[l.pid := r.tasks[l.pid]]
          && r.tasks[l.pid].pc.Parked? == w.tasks[l.pid].pc.Parked?
          && (r.tasks[l.pid].pc.Parked? ==> r.tasks[l.pid].pc == w.tasks[l.pid].pc))
      || (l.Step? && w.tasks[l.pid].pc.EnterBlock?)
      || (l.Step? && w.tasks[l.pid].pc.Scan?)
  {
    if l.Enter? || !w.tasks[l.pid].pc.Scan? {
      PlainStep(w, l);
    } else {
      VisitIsStepOf(w, l.pid, w.tasks[l.pid].pc.core);
    }
  }

  lemma BlockKeepsLists(w: World, p: nat, c: nat)
    requires Lists(w) && p in w.tasks && w.tasks[p].pc == EnterBlock(c) && c < |w.blocked|
    ensures Lists(DoBlock(w, p, c))
  {
  }

  lemma VisitKeepsLists(w: World, p: nat, c: nat)
    requires Lists(w) && p in w.tasks && w.tasks[p].pc == Scan(c)
    ensures Lists(VisitCore(w, p, c))
  {
    if c < |w.blocked| && w.runLock[c] == None && w.blocked[c] != [] {
      var r := VisitCore(w, p, c);
      forall q | q in r.tasks && r.tasks[q].pc.Parked?
        ensures r.tasks[q].pc.core < |r.blocked| && q in r.blocked[r.tasks[q].pc.core]
      {
        var k :| 0 <= k < |w.blocked[w.tasks[q].pc.core]| && w.blocked[w.tasks[q].pc.core][k] == q;
        if w.tasks[q].pc.core == c { assert r.blocked[c][k - 1] == q; }
      }
      forall d, k | 0 <= d < |r.blocked| && 0 <= k < |r.blocked[d]|
        ensures r.blocked[d][k] in r.tasks && r.tasks[r.blocked[d][k]].pc == Parked(d)
      {
        if d == c { assert r.blocked[d][k] == w.blocked[d][k + 1]; }
      }
    }
  }

  lemma ListsKept(w: World, l: Label)
    requires RunLocks(w) && Lists(w) && l.pid in w.tasks
    ensures Lists(Apply(w, l))
  {
    var pc := w.tasks[l.pid].pc;
    if l.Step? && pc.EnterBlock? {
      BlockKeepsLists(w, l.pid, pc.core);
    } else if l.Step? && pc.Scan? {
      VisitKeepsLists(w, l.pid, pc.core);
    } else {
      StepLists(w, l);
      UntouchedListsKept(w, Apply(w, l), l.pid);
    }
  }

  lemma UntouchedListsKept(w: World, r: World, p: nat)
    requires Lists(w) && WellShaped(r) && p in w.tasks && p in r.tasks && r.blocked == w.blocked
    requires r.tasks == w.tasks[p := r.tasks[p]]
    requires r.tasks[p].pc.Parked? == w.tasks[p].pc.Parked?
    requires (r.tasks[p].pc.Parked? ==> r.tasks[p].pc == w.tasks[p].pc)
    ensures Lists(r)
  {
  }

  // Wakeups -------------------------------------------------------------------------------------

  /** How one transition of p may withdraw the attention that tasks on core c rely on. */
  ghost predicate AttentionStep(w: World, r: World, p: nat, c: nat)
    requires p in w.tasks && p in r.tasks
  {
    var t, t' := w.tasks[p].pc, r.tasks[p].pc;
    && (w.locked ==> r.locked || t' == Scan(0))
    && (t.Retry? ==> r.locked || t'.Retry?)
    && (t.Scan? && t.core <= c ==>
          || (t'.Scan? && t'.core <= c)
          || (exists q :: q in r.tasks && r.tasks[q].pc.Retry?)
          || (forall q | q in w.tasks :: !w.tasks[q].pc.WaitsOn(c)))
  }

  lemma ScanPassesOnlyEmptyCores(w: World, p: nat, c: nat)
    requires RunLocks(w) && Lists(w) && p in w.tasks && w.tasks[p].pc.Scan? && c < |w.blocked|
    ensures AttentionStep(w, VisitCore(w, p, w.tasks[p].pc.core), p, c)
  {
    VisitIsStepOf(w, p, w.tasks[p].pc.core);
  }

  lemma StepAttends(w: World, l: Label, c: nat)
    requires Inv(w) && l.pid in w.tasks && c < |w.blocked|
    ensures l.pid in Apply(w, l).tasks && AttentionStep(w, Apply(w, l), l.pid, c)
  {
    if l.Step? && w.tasks[l.pid].pc.Scan? {
      ScanPassesOnlyEmptyCores(w, l.pid, c);
    } else {
      PlainStep(w, l);
    }
  }

  lemma AttendedKept(w: World, r: World, p: nat, c: nat)
    requires StepOf(w, r, p) && AttentionStep(w, r, p, c) && Attended(w, c)
    requires exists q :: q in w.tasks && w.tasks[q].pc.WaitsOn(c)
    ensures Attended(r, c)
  {
    if w.locked && !r.locked {
      assert r.tasks[p].pc.Scan? && r.tasks[p].pc.core <= c;
    } else if q :| q in w.tasks && w.tasks[q].pc.Scan? && w.tasks[q].pc.core <= c {
      assert q in r.tasks;
    } else if !w.locked {
      var q :| q in w.tasks && w.tasks[q].pc.Retry?;
      assert q in r.tasks;
    }
  }

  /** A task starts to wait only right after it saw the mutex locked. */
  lemma NewWaiterSawLocked(w: World, l: Label, c: nat)
    requires Inv(w) && l.pid in w.tasks
    requires l.pid in Apply(w, l).tasks && Apply(w, l).tasks[l.pid].pc.WaitsOn(c)
    ensures w.tasks[l.pid].pc.WaitsOn(c) || Apply(w, l).locked
    ensures c < |w.blocked|
  {
    if l.Step? && w.tasks[l.pid].pc.Scan? {
      VisitIsStepOf(w, l.pid, w.tasks[l.pid].pc.core);
    } else {
      var pc := w.tasks[l.pid].pc;
      assert pc.HasRunLock() || pc.Parked? ==> pc.core < |w.blocked|;
      PlainWaiter(w, l, c);
    }
  }

  lemma PlainWaiter(w: World, l: Label, c: nat)
    requires WellShaped(w) && l.pid in w.tasks && !(l.Step? && w.tasks[l.pid].pc.Scan?)
    requires var pc := w.tasks[l.pid].pc; pc.HasRunLock() || pc.Parked? ==> pc.core < |w.blocked|
    requires l.pid in Apply(w, l).tasks && Apply(w, l).tasks[l.pid].pc.WaitsOn(c)
    ensures (w.tasks[l.pid].pc.WaitsOn(c) || Apply(w, l).locked) && c < |w.blocked|
  {
  }

  lemma NoLostWakeupKept(w: World, l: Label)
    requires Inv(w) && l.pid in w.tasks
    ensures NoLostWakeup(Apply(w, l))
  {
    var r := Apply(w, l);
    ApplyIsStepOf(w, l);
    forall q, c: nat | q in r.tasks && r.tasks[q].pc.WaitsOn(c)
      ensures Attended(r, c)
    {
      if q == l.pid { NewWaiterSawLocked(w, l, c); }
      if !r.locked {
        assert w.tasks[q].pc.WaitsOn(c);
        StepAttends(w, l, c);
        AttendedKept(w, r, l.pid, c);
      }
    }
  }

  lemma ApplyKeepsInv(w: World, l: Label)
    requires Inv(w)
    ensures Inv(Apply(w, l))
  {
    if l.pid in w.tasks {
      var r := Apply(w, l);
      ApplyIsStepOf(w, l);
      StepHolds(w, l);
      HoldingKept(w, r, l.pid);
      StepRunLocks(w, l);
      RunLocksKept(w, r, l.pid);
      ListsKept(w, l);
      NoLostWakeupKept(w, l);
    }
  }

  lemma {:induction false} ExecInv(pids: set<nat>, cores: nat, ls: seq<Label>)
    ensures Inv(Exec(Init(pids, cores), ls))
  {
    if ls == [] {
      InitInv(pids, cores);
    } else {
      ExecInv(pids, cores, ls[..|ls| - 1]);
      ApplyKeepsInv(Exec(Init(pids, cores), ls[..|ls| - 1]), ls[|ls| - 1]);
    }
  }

  // ---------------------------------------------------------------------------------------------
  // What holds after every run
  // ---------------------------------------------------------------------------------------------

  /** At most one task holds the mutex, `locked_` says whether one does, and `owner_` names no other. */
  lemma MutualExclusion(pids: set<nat>, cores: nat, ls: seq<Label>)
    ensures var w := Exec(Init(pids, cores), ls);
      && (forall p, q | p in w.tasks && q in w.tasks && w.tasks[p].holds && w.tasks[q].holds :: p == q)
      && (w.locked <==> exists p :: p in w.tasks && w.tasks[p].holds)
      && (w.owner.Some? ==> w.owner.value in w.tasks && w.tasks[w.owner.value].holds)
  {
    ExecInv(pids, cores, ls);
  }

  /**
  No lost wakeup: whenever a task sits in the blocked list of core c, the mutex is locked, or the
  scan of an unlocker has not yet passed c, or a woken task has still to retry its compare-and-swap.
  */
  lemma BlockedTasksAreAttended(pids: set<nat>, cores: nat, ls: seq<Label>, c: nat, k: nat)
    requires var w := Exec(Init(pids, cores), ls); c < |w.blocked| && k < |w.blocked[c]|
    ensures Attended(Exec(Init(pids, cores), ls), c)
  {
    ExecInv(pids, cores, ls);
    var w := Exec(Init(pids, cores), ls);
    assert w.tasks[w.blocked[c][k]].pc == Parked(c);
  }

  ghost predicate NoCallRunning(w: World) {
    forall p | p in w.tasks :: w.tasks[p].pc.Outside? || w.tasks[p].pc.Parked?
  }

  /** So once no mutex call is running and the mutex is free, nobody is left blocked on it. */
  lemma NobodyIsStranded(pids: set<nat>, cores: nat, ls: seq<Label>)
    requires NoCallRunning(Exec(Init(pids, cores), ls)) && !Exec(Init(pids, cores), ls).locked
    ensures var w := Exec(Init(pids, cores), ls);
      && (forall c | 0 <= c < |w.blocked| :: w.blocked[c] == [])
      && (forall p | p in w.tasks :: w.tasks[p].pc.Outside?)
  {
    ExecInv(pids, cores, ls);
    var w := Exec(Init(pids, cores), ls);
    assert forall c | 0 <= c < |w.blocked| && |w.blocked[c]| > 0 :: w.tasks[w.blocked[c][0]].pc == Parked(c);
    forall p | p in w.tasks ensures w.tasks[p].pc.Outside? {
      var c := if w.tasks[p].pc.Parked? then w.tasks[p].pc.core else 0;
      assert !Attended(w, c);
      assert !w.tasks[p].pc.WaitsOn(c);
    }
  }

  /** A holder that calls Lock or TryLock again is refused, and only its own call moves. */
  lemma HolderIsRefused(pids: set<nat>, cores: nat, ls: seq<Label>, p: nat, core: nat)
    requires var w := Exec(Init(pids, cores), ls); p in w.tasks && w.tasks[p].holds
    requires var pc := Exec(Init(pids, cores), ls).tasks[p].pc;
      (pc.LoadLocked? || pc.LoadOwner?) && pc.call != UnLock
    ensures var w := Exec(Init(pids, cores), ls);
      Apply(w, Step(p, core)) ==
        if w.tasks[p].pc.LoadLocked? then Goto(w, p, LoadOwner(w.tasks[p].pc.call)) else Return(w, p, RecursiveLock)
  {
    ExecInv(pids, cores, ls);
    var w := Exec(Init(pids, cores), ls);
    assert Published(w.tasks[p]) && w.locked;
  }

  /** A task that does not hold the mutex is refused by UnLock, and only its own call moves. */
  lemma StrangerIsRefused(pids: set<nat>, cores: nat, ls: seq<Label>, p: nat, core: nat)
    requires var w := Exec(Init(pids, cores), ls);
      p in w.tasks && !w.tasks[p].holds && (w.tasks[p].pc == LoadLocked(UnLock) || w.tasks[p].pc == LoadOwner(UnLock))
    ensures var w := Exec(Init(pids, cores), ls);
      || Apply(w, Step(p, core)) == Return(w, p, NotOwned)
      || (w.tasks[p].pc.LoadLocked? && Apply(w, Step(p, core)) == Goto(w, p, LoadOwner(UnLock)))
  {
    ExecInv(pids, cores, ls);
    var w := Exec(Init(pids, cores), ls);
    assert w.owner != Some(p) by { assert !Published(w.tasks[p]); }
  }

  /** A call to Lock, TryLock or UnLock that reports success changed the holder the way it promises. */
  lemma SuccessIsTruthful(pids: set<nat>, cores: nat, ls: seq<Label>, p: nat, core: nat)
    requires var w := Exec(Init(pids, cores), ls);
      p in w.tasks && !w.tasks[p].pc.Outside? && Apply(w, Step(p, core)).tasks[p].pc.Outside?
    ensures var w := Exec(Init(pids, cores), ls);
      var r := Apply(w, Step(p, core));
      && (r.tasks[p].result == Success && w.tasks[p].pc.Scan? ==> !r.tasks[p].holds)
      && (r.tasks[p].result == Success && !w.tasks[p].pc.Scan? ==> r.tasks[p].holds && r.owner == Some(p))
      && (r.tasks[p].result != Success ==> r.locked == w.locked && r.owner == w.owner && r.blocked == w.blocked)
  {
    ExecInv(pids, cores, ls);
    var w := Exec(Init(pids, cores), ls);
    if w.tasks[p].pc.Scan? {
      VisitIsStepOf(w, p, w.tasks[p].pc.core);
    } else {
      assert w.tasks[p].pc.MustHold() ==> w.tasks[p].holds;
      PlainReturn(w, p, core);
    }
  }

  lemma PlainReturn(w: World, p: nat, core: nat)
    requires WellShaped(w) && p in w.tasks && !w.tasks[p].pc.Outside? && !w.tasks[p].pc.Scan?
    requires w.tasks[p].pc.MustHold() ==> w.tasks[p].holds
    requires Apply(w, Step(p, core)).tasks[p].pc.Outside?
    ensures var r := Apply(w, Step(p, core));
      && (r.tasks[p].result == Success ==> r.tasks[p].holds && r.owner == Some(p))
      && (r.tasks[p].result != Success ==> r.locked == w.locked && r.owner == w.owner && r.blocked == w.blocked)
  {
  }

  /**
  What a refusal says: TryLock is refused as NotLocked only at an instant when the mutex is locked, RecursiveLock
  goes only to the task that holds the mutex and is named by the owner word, NotOwned only to one that does not hold it.
  */
  lemma RefusalIsTruthful(pids: set<nat>, cores: nat, ls: seq<Label>, p: nat, core: nat)
    requires var w := Exec(Init(pids, cores), ls);
      p in w.tasks && !w.tasks[p].pc.Outside? && Apply(w, Step(p, core)).tasks[p].pc.Outside?
    ensures var w := Exec(Init(pids, cores), ls);
      var pc, res := w.tasks[p].pc, Apply(w, Step(p, core)).tasks[p].result;
      && res != Pending
      && (res == NotLocked ==> pc == FastCas(TryLock) && w.locked)
      && (res == RecursiveLock ==>
            (pc == LoadOwner(Lock) || pc == LoadOwner(TryLock)) && w.tasks[p].holds && w.owner == Some(p))
      && (res == NotOwned ==> (pc == LoadLocked(UnLock) || pc == LoadOwner(UnLock)) && !w.tasks[p].holds)
  {
    ExecInv(pids, cores, ls);
    var w := Exec(Init(pids, cores), ls);
    if w.tasks[p].pc.Scan? {
      VisitIsStepOf(w, p, w.tasks[p].pc.core);
    } else {
      assert w.tasks[p].holds ==> w.locked;
      assert Published(w.tasks[p]) <==> w.owner == Some(p);
      PlainRefusal(w, p, core);
    }
  }

  lemma PlainRefusal(w: World, p: nat, core: nat)
    requires WellShaped(w) && p in w.tasks && !w.tasks[p].pc.Outside? && !w.tasks[p].pc.Scan?
    requires (w.tasks[p].holds ==> w.locked) && (Published(w.tasks[p]) <==> w.owner == Some(p))
    requires Apply(w, Step(p, core)).tasks[p].pc.Outside?
    ensures var pc, res := w.tasks[p].pc, Apply(w, Step(p, core)).tasks[p].result;
      && res != Pending
      && (res == NotLocked ==> pc == FastCas(TryLock) && w.locked)
      && (res == RecursiveLock ==>
            (pc == LoadOwner(Lock) || pc == LoadOwner(TryLock)) && w.tasks[p].holds && w.owner == Some(p))
      && (res == NotOwned ==> (pc == LoadLocked(UnLock) || pc == LoadOwner(UnLock)) && !w.tasks[p].holds)
  {
  }

  // ---------------------------------------------------------------------------------------------
  // The holder can release
  // ---------------------------------------------------------------------------------------------

  /** p starts no new call. */
  predicate NoNewCall(ls: seq<Label>, p: nat) { forall i | 0 <= i < |ls| :: !(ls[i].Enter? && ls[i].pid == p) }

  /** The calls of p before the store of false: p still holds the mutex. */
  predicate BeforeRelease(t: Task) {
    t.holds && (t.pc == LoadLocked(UnLock) || t.pc == LoadOwner(UnLock) || t.pc == ClearOwner || t.pc == ClearLocked)
  }

  /** After it: p scans for a task to wake, or has returned with success. */
  predicate AfterRelease(t: Task) { !t.holds && (t.pc.Scan? || (t.pc == Outside && t.result == Success)) }

  /** With label i of the run p gave the mutex up: the owner word names nobody and the lock is free. */
  predicate GivesUp(w: World, ls: seq<Label>, p: nat, i: nat)
    requires WellShaped(w) && i < |ls|
  {
    var before, after := Exec(w, ls[..i]), Exec(w, ls[..i + 1]);
    && p in before.tasks && before.tasks[p].pc == ClearLocked && before.tasks[p].holds && before.locked
    && before.owner == None && after.owner == None && !after.locked
  }

  lemma OthersLeaveCall(w: World, l: Label, p: nat)
    requires Lists(w) && p in w.tasks && l.pid != p && !w.tasks[p].pc.Parked?
    ensures var r := Apply(w, l); p in r.tasks && r.tasks[p] == w.tasks[p]
  {
    if l.pid in w.tasks { ApplyIsStepOf(w, l); }
  }

  /** One label while the holder's UnLock is on its way. */
  lemma ReleaseStep(w: World, l: Label, p: nat)
    requires Inv(w) && p in w.tasks && !(l.Enter? && l.pid == p)
    requires BeforeRelease(w.tasks[p]) || AfterRelease(w.tasks[p])
    ensures var r := Apply(w, l);
      && p in r.tasks && (BeforeRelease(r.tasks[p]) || AfterRelease(r.tasks[p]))
      && (AfterRelease(w.tasks[p]) ==> AfterRelease(r.tasks[p]))
      && (BeforeRelease(w.tasks[p]) && AfterRelease(r.tasks[p]) ==>
            w.tasks[p].pc == ClearLocked && w.locked && w.owner == None && r.owner == None && !r.locked)
  {
    if l.pid != p {
      OthersLeaveCall(w, l, p);
    } else if w.tasks[p].pc.Scan? {
      VisitIsStepOf(w, p, w.tasks[p].pc.core);
    } else {
      assert w.tasks[p].holds ==> w.locked;
      assert Published(w.tasks[p]) <==> w.owner == Some(p);
      if w.tasks[p].pc == ClearLocked { OnlyOwnerWord(w, p); }
    }
  }

  /** While the holder's pid is not in the owner word, nobody's is. */
  lemma OnlyOwnerWord(w: World, p: nat)
    requires Exclusive(w) && OwnerWord(w) && p in w.tasks && w.tasks[p].holds && !Published(w.tasks[p])
    ensures w.owner == None
  {
  }

  lemma {:induction false} ReleaseRuns(w: World, ls: seq<Label>, p: nat) returns (i: nat)
    requires Inv(w) && p in w.tasks && w.tasks[p].pc == LoadLocked(UnLock) && w.tasks[p].holds && NoNewCall(ls, p)
    ensures var r := Exec(w, ls);
      && Inv(r) && p in r.tasks
      && (BeforeRelease(r.tasks[p]) || (AfterRelease(r.tasks[p]) && i < |ls| && GivesUp(w, ls, p, i)))
  {
    i := 0;
    if ls != [] {
      var n := |ls| - 1;
      i := ReleaseRuns(w, ls[..n], p);
      assert ls[..n + 1] == ls;
      ReleaseStep(Exec(w, ls[..n]), ls[n], p);
      ApplyKeepsInv(Exec(w, ls[..n]), ls[n]);
      if BeforeRelease(Exec(w, ls[..n]).tasks[p]) {
        i := n;
      } else {
        assert ls[..n][..i] == ls[..i] && ls[..n][..i + 1] == ls[..i + 1];
      }
    }
  }

  /**
  The holder can release: in every run in which a task enters UnLock while it holds the mutex, and however the
  call is interleaved from then on, it returns nothing but Success, and by then there was an instant at which
  it cleared the lock, the owner word being clear.
  */
  lemma HolderReleases(pids: set<nat>, cores: nat, ls: seq<Label>, p: nat, more: seq<Label>)
    requires var w := Exec(Init(pids, cores), ls);
      p in w.tasks && w.tasks[p].pc == LoadLocked(UnLock) && w.tasks[p].holds
    requires NoNewCall(more, p)
    ensures var w := Exec(Init(pids, cores), ls);
      var r := Exec(w, more);
      && p in r.tasks
      && (r.tasks[p].pc == Outside || !r.tasks[p].holds ==> exists i :: 0 <= i < |more| && GivesUp(w, more, p, i))
      && (r.tasks[p].pc == Outside ==> r.tasks[p].result == Success && !r.tasks[p].holds)
  {
    ExecInv(pids, cores, ls);
    var w := Exec(Init(pids, cores), ls);
    var i := ReleaseRuns(w, more, p);
  }

  // Calls that run without interruption -----------------------------------------------------------

  /** n steps of p on its core and nobody else's. */
  function Alone(p: nat, core: nat, n: nat): seq<Label> { seq(n, _ => Step(p, core)) }

  lemma AloneNext(w: World, p: nat, core: nat, n: nat)
    requires WellShaped(w) && n > 0
    ensures Exec(w, Alone(p, core, n)) == Apply(Exec(w, Alone(p, core, n - 1)), Step(p, core))
  {
    assert Alone(p, core, n)[..n - 1] == Alone(p, core, n - 1);
  }

  lemma GotoTwice(w: World, p: nat, a: Pc, b: Pc)
    requires p in w.tasks
    ensures Goto(Goto(w, p, a), p, b) == Goto(w, p, b)
  {
    assert w.tasks[p := w.tasks[p].(pc := a)][p := w.tasks[p].(pc := b)] == w.tasks[p := w.tasks[p].(pc := b)];
  }

  /** The mutex is free again; p goes on to wake somebody. */
  function Released(w: World, p: nat): World
    requires p in w.tasks
  {
    w.(locked := false, owner := None, tasks := w.tasks[p := w.tasks[p].(pc := Scan(0), holds := false)])
  }

  /** p has the mutex and has returned. */
  function Acquired(w: World, p: nat): World
    requires p in w.tasks
  {
    w.(locked := true, owner := Some(p), tasks := w.tasks[p := Task(Outside, true, Success)])
  }

  /** A holder inside UnLock is named by the owner word. */
  lemma HolderIsNamed(w: World, p: nat)
    requires Inv(w) && p in w.tasks && w.tasks[p].pc == LoadLocked(UnLock) && w.tasks[p].holds
    ensures w.locked && w.owner == Some(p)
  {
    assert Published(w.tasks[p]);
  }

  lemma StrangerIsNotNamed(w: World, p: nat)
    requires Inv(w) && p in w.tasks && !w.tasks[p].holds
    ensures w.owner != Some(p)
  {
    assert !Published(w.tasks[p]);
  }

  lemma OwnerReachesRelease(w: World, p: nat, core: nat)
    requires WellShaped(w) && p in w.tasks && w.tasks[p].pc == LoadLocked(UnLock) && w.locked && w.owner == Some(p)
    ensures Exec(w, Alone(p, core, 3)) == Goto(w.(owner := None), p, ClearLocked)
  {
    OwnerReachesClear(w, p, core);
    AloneNext(w, p, core, 3);
    GotoTwice(w.(owner := None), p, ClearOwner, ClearLocked);
  }

  lemma OwnerReachesClear(w: World, p: nat, core: nat)
    requires WellShaped(w) && p in w.tasks && w.tasks[p].pc == LoadLocked(UnLock) && w.locked && w.owner == Some(p)
    ensures Exec(w, Alone(p, core, 2)) == Goto(w, p, ClearOwner)
  {
    AloneNext(w, p, core, 1);
    assert Exec(w, Alone(p, core, 1)) == Goto(w, p, LoadOwner(UnLock));
    AloneNext(w, p, core, 2);
    GotoTwice(w, p, LoadOwner(UnLock), ClearOwner);
  }

  lemma ClearedIsReleased(w: World, p: nat, core: nat)
    requires WellShaped(w) && p in w.tasks
    ensures Apply(Goto(w.(owner := None), p, ClearLocked), Step(p, core)) == Released(w, p)
  {
    assert w.tasks[p := w.tasks[p].(pc := ClearLocked)][p := w.tasks[p].(pc := Scan(0), holds := false)]
        == w.tasks[p := w.tasks[p].(pc := Scan(0), holds := false)];
  }

  /** From its first step of UnLock on, the fourth step of the holder frees the mutex. */
  lemma FourStepsRelease(w: World, p: nat, core: nat)
    requires Inv(w) && p in w.tasks && w.tasks[p].pc == LoadLocked(UnLock) && w.tasks[p].holds
    ensures Exec(w, Alone(p, core, 3)) == Goto(w.(owner := None), p, ClearLocked)
    ensures Exec(w, Alone(p, core, 4)) == Released(w, p)
  {
    HolderIsNamed(w, p);
    OwnerReachesRelease(w, p, core);
    AloneNext(w, p, core, 4);
    ClearedIsReleased(w, p, core);
  }

  lemma WonAcquires(w: World, p: nat, core: nat)
    requires WellShaped(w) && p in w.tasks && !w.locked
    requires w.tasks[p].pc == Retry || w.tasks[p].pc == FastCas(Lock) || w.tasks[p].pc == FastCas(TryLock)
    ensures Apply(Apply(w, Step(p, core)), Step(p, core)) == Acquired(w, p)
  {
    var t := w.tasks[p].(pc := StoreOwner, holds := true);
    assert Apply(w, Step(p, core)) == w.(locked := true, tasks := w.tasks[p := t]);
    assert w.tasks[p := t][p := Task(Outside, true, Success)] == w.tasks[p := Task(Outside, true, Success)];
  }

  /** Lock or TryLock of a free mutex takes it in three steps. */
  lemma ThreeStepsAcquire(w: World, p: nat, core: nat)
    requires WellShaped(w) && p in w.tasks && !w.locked
    requires w.tasks[p].pc == LoadLocked(Lock) || w.tasks[p].pc == LoadLocked(TryLock)
    ensures Exec(w, Alone(p, core, 3)) == Acquired(w, p)
  {
    AloneNext(w, p, core, 1);
    AloneNext(w, p, core, 2);
    AloneNext(w, p, core, 3);
    var w1 := Goto(w, p, FastCas(w.tasks[p].pc.call));
    assert Exec(w, Alone(p, core, 1)) == w1;
    WonAcquires(w1, p, core);
    assert w1.tasks[p := Task(Outside, true, Success)] == w.tasks[p := Task(Outside, true, Success)];
  }

  /** A woken task that finds the mutex free takes it. */
  lemma WokenAcquires(w: World, p: nat, core: nat)
    requires WellShaped(w) && p in w.tasks && w.tasks[p].pc == Retry && !w.locked
    ensures Exec(w, Alone(p, core, 2)) == Acquired(w, p)
  {
    AloneNext(w, p, core, 1);
    AloneNext(w, p, core, 2);
    WonAcquires(w, p, core);
  }

  /** Two steps bring the call of a task that does not hold a locked mutex to its compare-and-swap. */
  lemma StrangerReachesCas(w: World, p: nat, core: nat, k: Call)
    requires WellShaped(w) && p in w.tasks && w.locked && w.owner != Some(p) && w.tasks[p].pc == LoadLocked(k)
    requires k != UnLock
    ensures Exec(w, Alone(p, core, 2)) == Goto(w, p, FastCas(k))
  {
    AloneNext(w, p, core, 1);
    assert Exec(w, Alone(p, core, 1)) == Goto(w, p, LoadOwner(k));
    AloneNext(w, p, core, 2);
    GotoTwice(w, p, LoadOwner(k), FastCas(k));
  }

  /** TryLock of a mutex that another task holds is refused in three steps and changes nothing but the call. */
  lemma TryLockIsRefused(w: World, p: nat, core: nat)
    requires Inv(w) && p in w.tasks && w.locked && !w.tasks[p].holds && w.tasks[p].pc == LoadLocked(TryLock)
    ensures Exec(w, Alone(p, core, 3)) == Return(w, p, NotLocked)
  {
    StrangerIsNotNamed(w, p);
    StrangerReachesCas(w, p, core, TryLock);
    AloneNext(w, p, core, 3);
    assert Goto(w, p, FastCas(TryLock)).tasks[p := Return(w, p, NotLocked).tasks[p]] == Return(w, p, NotLocked).tasks;
  }

  /** Lock of a mutex that another task holds parks its task in the list of its core, if the list has room. */
  lemma LockParks(w: World, p: nat, core: nat)
    requires Inv(w) && p in w.tasks && w.locked && !w.tasks[p].holds && w.tasks[p].pc == LoadLocked(Lock)
    requires core < |w.runLock| && w.runLock[core] == None && |w.blocked[core]| < MAX_BLOCKED_PER_GROUP
    ensures Exec(w, Alone(p, core, 6)) ==
      Goto(w.(blocked := w.blocked[core := w.blocked[core] + [p]]), p, Parked(core))
  {
    StrangerIsNotNamed(w, p);
    LosesTwice(w, p, core);
    AloneNext(w, p, core, 6);
    ParksLast(w, SetRunLock(w, core, Some(p)), p, core);
  }

  lemma LosesTwice(w: World, p: nat, core: nat)
    requires WellShaped(w) && p in w.tasks && w.locked && w.owner != Some(p) && w.tasks[p].pc == LoadLocked(Lock)
    requires core < |w.runLock| && w.runLock[core] == None
    ensures Exec(w, Alone(p, core, 5)) == Goto(SetRunLock(w, core, Some(p)), p, EnterBlock(core))
  {
    StrangerReachesCas(w, p, core, Lock);
    AloneNext(w, p, core, 3);
    GotoTwice(w, p, FastCas(Lock), WantRunLock);
    assert Exec(w, Alone(p, core, 3)) == Goto(w, p, WantRunLock);
    AloneNext(w, p, core, 4);
    var v := SetRunLock(w, core, Some(p));
    GotoTwice(v, p, WantRunLock, Recheck(core));
    assert Exec(w, Alone(p, core, 4)) == Goto(v, p, Recheck(core));
    AloneNext(w, p, core, 5);
    GotoTwice(v, p, Recheck(core), EnterBlock(core));
  }

  lemma ParksLast(w: World, v: World, p: nat, core: nat)
    requires WellShaped(w) && p in w.tasks && core < |w.runLock| && w.runLock[core] == None
    requires |w.blocked[core]| < MAX_BLOCKED_PER_GROUP && v == SetRunLock(w, core, Some(p))
    ensures Apply(Goto(v, p, EnterBlock(core)), Step(p, core)) ==
      Goto(w.(blocked := w.blocked[core := w.blocked[core] + [p]]), p, Parked(core))
  {
    assert w.runLock[core := Some(p)][core := None] == w.runLock;
    GotoTwice(w.(blocked := w.blocked[core := w.blocked[core] + [p]]), p, EnterBlock(core), Parked(core));
  }
}
