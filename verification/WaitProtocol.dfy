/**
`Wait` and `Exit` of wait.cpp and exit.cpp with the cross-core `Wakeup` of wakeup.cpp, for any
number of tasks and cores and every interleaving.

`Exit` turns its task into a zombie under the run-queue lock of its own core, `Wait` scans the task
table under the run-queue lock of its own core and the table lock; the two exclude each other only
when they share a core. So the scan is modelled as one transition per table entry, in any order,
and a child may become a zombie between being looked at and its parent blocking.

The list of tasks blocked on `ResourceId(kChildExit, p)` can hold no task but p, so membership in
it is the program counter `Parked`. Reparenting, signals and `untraced` are not modelled: a thread
group leader exits only when the table holds no child of it.
*/
module WaitProtocol {
  import opened KernelConfig
  import opened Options

  /** `Pid` is unsigned, so the branch for negative arguments of `Wait` is never taken. */
  datatype Selector = AnyChild | SameGroup | Exactly(pid: nat)

  datatype Request = Request(sel: Selector, noHang: bool)

  datatype Status = Alive | Blocked | Zombie | Exited

  datatype Pc =
    | User
    | WantRunLock(req: Request)
    | WantTable(req: Request, core: nat)
    | Looking(req: Request, core: nat, seen: set<nat>, matched: bool)  // both locks held
    | Parked(req: Request, core: nat)
    | ReadCode(req: Request, child: nat)   // target found, locks released
    | Erase(req: Request, child: nat, code: int)  // status word written
    | WantExitLock(code: int)
    | StoreCode(code: int, core: nat)      // run-queue lock held
    | TurnZombie(core: nat)                // run-queue lock held, exit_code stored
    | Waking(core: nat)                    // Wakeup(parent) about to visit that core
    | Gone
  {
    /** Inside Wait. */
    predicate Waits() { WantRunLock? || WantTable? || Looking? || Parked? || ReadCode? || Erase? }
    predicate HasRunLock() { WantTable? || Looking? || StoreCode? || TurnZombie? }
    predicate Dead() { Waking? || Gone? }
  }

  datatype Task = Task(parent: nat, group: nat, leader: bool, status: Status, exitCode: int, pc: Pc)

  /**
  `tasks` keeps reaped tasks as a record. `passed`, `asked`, `returned` and `refused` are records too: the argument
  each task gave to `Exit`, the last request it made of `Wait`, every child that `Wait` handed out, and every
  return of `Wait` without one.
  */
  datatype World = World(
    tasks: map<nat, Task>,
    table: set<nat>,
    nextPid: nat,
    runLock: seq<Option<nat>>,
    tableLock: Option<nat>,
    passed: map<nat, int>,
    asked: map<nat, Request>,
    returned: seq<Reaped>,
    refused: seq<Refusal>)

  datatype Reaped = Reaped(parent: nat, child: nat, code: int, req: Request)

  /** kTaskNoChildFound, or 0 for a request that must not wait. */
  datatype Refusal = NoChild(parent: nat, req: Request) | NotYet(parent: nat, req: Request)

  datatype Label =
    | Spawn(pid: nat, group: nat, leader: bool)
    | BeginWait(pid: nat, req: Request)
    | BeginExit(pid: nat, code: int)
    | Step(pid: nat, arg: nat)   // arg: the core the task runs on, or the table entry looked at next

  /** One root task, pid 1, without a parent. */
  function Init(cores: nat): World {
    World(map[1 := Task(0, 0, true, Alive, 0, User)], {1}, 2, seq(cores, _ => None), None, map[], map[], [], [])
  }

  function Goto(w: World, p: nat, pc: Pc): World
    requires p in w.tasks
  {
    w.(tasks := w.tasks[p := w.tasks[p].(pc := pc)])
  }

  function SetRunLock(w: World, c: nat, who: Option<nat>): World {
    if c < |w.runLock| then w.(runLock := w.runLock[c := who]) else w
  }

  function Free(w: World, c: nat): bool {
    c < |w.runLock| && w.runLock[c] == None
  }

  /** Leave the scan: both locks are released. */
  function Leave(w: World, p: nat, c: nat, pc: Pc): World
    requires p in w.tasks
  {
    Goto(SetRunLock(w.(tableLock := None), c, None), p, pc)
  }

  predicate Matches(w: World, p: nat, q: nat, sel: Selector) {
    && p in w.tasks && q in w.tasks && w.tasks[q].parent == p
    && (sel.AnyChild? || (sel.SameGroup? && w.tasks[q].group == w.tasks[p].group) || (sel.Exactly? && sel.pid == q))
  }

  predicate Ended(t: Task) { t.status == Zombie || t.status == Exited }

  /** One iteration of the table scan, or its end once every entry has been looked at. */
  function Look(w: World, p: nat, q: nat): World
    requires p in w.tasks && w.tasks[p].pc.Looking?
  {
    var Looking(req, c, seen, matched) := w.tasks[p].pc;
    if q in w.table && q !in seen then
      if !Matches(w, p, q, req.sel) then Goto(w, p, Looking(req, c, seen + {q}, matched))
      else if Ended(w.tasks[q]) then Leave(w, p, c, ReadCode(req, q))
      else Goto(w, p, Looking(req, c, seen + {q}, true))
    else if w.table <= seen then
      if !matched then Leave(w.(refused := w.refused + [NoChild(p, req)]), p, c, User)
      else if req.noHang then Leave(w.(refused := w.refused + [NotYet(p, req)]), p, c, User)
      else
        var r := Leave(w, p, c, Parked(req, c));
        r.(tasks := r.tasks[p := r.tasks[p].(status := Blocked)])
    else w
  }

  /** Where a wakeup is after its visit of core c. */
  function NextVisit(w: World, c: nat): Pc { if c + 1 < |w.runLock| then Waking(c + 1) else Gone }

  /** One iteration of Wakeup(ResourceId(kChildExit, parent)). */
  function Visit(w: World, p: nat, c: nat): World
    requires p in w.tasks
  {
    var q := w.tasks[p].parent;
    if c >= |w.runLock| then Goto(w, p, Gone)
    else if w.runLock[c] != None then w
    else
      var r := Goto(w, p, NextVisit(w, c));
      if q in r.tasks && q != p && r.tasks[q].pc.Parked? && r.tasks[q].pc.core == c
      then r.(tasks := r.tasks[q := r.tasks[q].(pc := WantRunLock(r.tasks[q].pc.req), status := Alive)]) else r
  }

  function Advance(w: World, p: nat, arg: nat): World
    requires p in w.tasks
  {
    match w.tasks[p].pc
    case WantRunLock(req) => if Free(w, arg) then Goto(SetRunLock(w, arg, Some(p)), p, WantTable(req, arg)) else w
    case WantTable(req, c) =>
      if w.tableLock == None then Goto(w.(tableLock := Some(p)), p, Looking(req, c, {}, false)) else w
    case Looking(_, _, _, _) => Look(w, p, arg)
    case ReadCode(req, q) => Goto(w, p, Erase(req, q, if q in w.tasks then w.tasks[q].exitCode else 0))
    case Erase(req, q, code) =>
      if w.tableLock == None
      then Goto(w.(table := w.table - {q}, returned := w.returned + [Reaped(p, q, code, req)]), p, User) else w
    case WantExitLock(code) => if Free(w, arg) then Goto(SetRunLock(w, arg, Some(p)), p, StoreCode(code, arg)) else w
    case StoreCode(code, c) => w.(tasks := w.tasks[p := w.tasks[p].(pc := TurnZombie(c), exitCode := code)])
    case TurnZombie(c) =>
      var t := w.tasks[p];
      SetRunLock(w, c, None).(tasks := w.tasks[p :=
        if t.parent != 0 then t.(pc := Waking(0), status := Zombie) else t.(pc := Gone, status := Exited)])
    case Waking(c) => Visit(w, p, c)
    case _ => w
  }

  predicate HasChildInTable(w: World, p: nat) {
    exists q | q in w.table :: q in w.tasks && w.tasks[q].parent == p
  }

  function Apply(w: World, l: Label): World {
    if l.pid !in w.tasks then w
    else
      match l
      case Spawn(p, group, leader) =>
        if w.tasks[p].pc != User || w.tableLock != None || |w.table| >= MAX_TASKS then w
        else w.(tasks := w.tasks[w.nextPid := Task(p, group, leader, Alive, 0, User)],
                table := w.table + {w.nextPid}, nextPid := w.nextPid + 1)
      case BeginWait(p, req) =>
        if w.tasks[p].pc != User then w else Goto(w.(asked := w.asked[p := req]), p, WantRunLock(req))
      case BeginExit(p, code) =>
        if w.tasks[p].pc != User || (w.tasks[p].leader && HasChildInTable(w, p)) then w
        else Goto(w.(passed := w.passed[p := code]), p, WantExitLock(code))
      case Step(p, arg) => Advance(w, p, arg)
  }

  function Exec(w: World, ls: seq<Label>): World {
    if ls == [] then w else Apply(Exec(w, ls[..|ls| - 1]), ls[|ls| - 1])
  }

  // ---------------------------------------------------------------------------------------------
  // The invariant
  // ---------------------------------------------------------------------------------------------

  ghost predicate Pids(w: World) {
    && 0 !in w.tasks && w.nextPid > 0
    && (forall p | p in w.tasks :: p < w.nextPid)
    && w.table <= w.tasks.Keys
    && w.passed.Keys <= w.tasks.Keys && w.asked.Keys <= w.tasks.Keys
  }

  ghost predicate Locks(w: World) {
    && (forall p | p in w.tasks && w.tasks[p].pc.HasRunLock() ::
          w.tasks[p].pc.core < |w.runLock| && w.runLock[w.tasks[p].pc.core] == Some(p))
    && (forall p | p in w.tasks && w.tasks[p].pc.Looking? :: w.tableLock == Some(p))
    && (forall p | p in w.tasks && w.tasks[p].pc.Parked? :: w.tasks[p].pc.core < |w.runLock|)
  }

  /** Status and exit code follow the program counter. */
  ghost predicate TaskOk(w: World, p: nat)
    requires p in w.tasks
  {
    var t := w.tasks[p];
    && (t.status == Blocked <==> t.pc.Parked?)
    && (Ended(t) <==> t.pc.Dead())
    && (t.status == Exited ==> t.parent == 0)
    && (t.pc.WantExitLock? || t.pc.StoreCode? ==> p in w.passed && w.passed[p] == t.pc.code)
    && (t.pc.TurnZombie? || t.pc.Dead() ==> p in w.passed && w.passed[p] == t.exitCode)
    && (t.pc.ReadCode? || t.pc.Erase?
        ==> t.pc.child in w.table && t.pc.child in w.tasks
            && w.tasks[t.pc.child].parent == p && w.tasks[t.pc.child].pc.Dead())
    && (t.pc.Erase? ==> t.pc.child in w.passed && w.passed[t.pc.child] == t.pc.code)
    && (t.pc.Waits() ==> p in w.asked && w.asked[p] == t.pc.req)
    && (t.pc.ReadCode? || t.pc.Erase? ==> AskedFor(w, p, t.pc.child, t.pc.req.sel))
  }

  /** What a request asks for, of the children of p: any of them, one of its group, or the one with that pid. */
  predicate AskedFor(w: World, p: nat, q: nat, sel: Selector) {
    && p in w.tasks && q in w.tasks && w.tasks[q].parent == p
    && match sel
      case AnyChild => true
      case SameGroup => w.tasks[q].group == w.tasks[p].group
      case Exactly(pid) => q == pid
  }

  ghost predicate Tasks(w: World) {
    forall p | p in w.tasks :: TaskOk(w, p)
  }

  /** The wakeup that ended child q owes its parent still has core c to visit. */
  predicate WakeupDue(w: World, q: nat, c: nat) {
    q in w.tasks && w.tasks[q].pc.Waking? && w.tasks[q].pc.core <= c
  }

  ghost predicate NoLostWakeup(w: World) {
    forall p, q | p in w.tasks && q in w.table && q in w.tasks && Ended(w.tasks[q]) ::
      && (w.tasks[p].pc.Parked? && Matches(w, p, q, w.tasks[p].pc.req.sel) ==> WakeupDue(w, q, w.tasks[p].pc.core))
      && (w.tasks[p].pc.Looking? && q in w.tasks[p].pc.seen && Matches(w, p, q, w.tasks[p].pc.req.sel)
          ==> WakeupDue(w, q, w.tasks[p].pc.core))
  }

  ghost predicate ReturnOk(w: World, a: Reaped) {
    && a.parent in w.tasks && a.child in w.tasks && a.child !in w.table && AskedFor(w, a.parent, a.child, a.req.sel)
    && a.child in w.passed && w.passed[a.child] == a.code && w.tasks[a.child].pc.Dead()
  }

  ghost predicate Returns(w: World) {
    && (forall i | 0 <= i < |w.returned| :: ReturnOk(w, w.returned[i]))
    && (forall i, j | 0 <= i < j < |w.returned| :: w.returned[i].child != w.returned[j].child)
  }

  ghost predicate Inv(w: World) {
    Pids(w) && Locks(w) && Tasks(w) && NoLostWakeup(w) && Returns(w)
  }

  // ---------------------------------------------------------------------------------------------
  // Every transition keeps the invariant
  // ---------------------------------------------------------------------------------------------

  lemma InitInv(cores: nat)
    ensures Inv(Init(cores))
  {
  }

  /** A transition of p that moves no other task. */
  ghost predicate OwnStep(w: World, r: World, p: nat) {
    && p in w.tasks && p in r.tasks && r.tasks == w.tasks[p := r.tasks[p]]
    && r.tasks[p].parent == w.tasks[p].parent && r.tasks[p].group == w.tasks[p].group
    && |r.runLock| == |w.runLock| && r.nextPid == w.nextPid
  }

  predicate IsOwn(w: World, l: Label) {
    l.BeginWait? || l.BeginExit? || (l.Step? && l.pid in w.tasks && !w.tasks[l.pid].pc.Waking?)
  }

  lemma OwnSteps(w: World, l: Label)
    requires l.pid in w.tasks && IsOwn(w, l)
    ensures OwnStep(w, Apply(w, l), l.pid)
  {
    if l.Step? && w.tasks[l.pid].pc.Looking? { LookIsOwn(w, l.pid, l.arg); } else { PlainIsOwn(w, l); }
  }

  lemma LookIsOwn(w: World, p: nat, q: nat)
    requires p in w.tasks && w.tasks[p].pc.Looking?
    ensures OwnStep(w, Look(w, p, q), p)
  {
  }

  lemma PlainIsOwn(w: World, l: Label)
    requires l.pid in w.tasks && IsOwn(w, l) && !(l.Step? && w.tasks[l.pid].pc.Looking?)
    ensures OwnStep(w, Apply(w, l), l.pid)
  {
  }

  // Locks ---------------------------------------------------------------------------------------

  /** How one transition of p may change the locks. */
  ghost predicate LockStep(w: World, r: World, p: nat)
    requires p in w.tasks && p in r.tasks
  {
    var t, t' := w.tasks[p].pc, r.tasks[p].pc;
    && (|| (r.runLock == w.runLock && (t'.HasRunLock() ==> t.HasRunLock() && t'.core == t.core))
        || (&& t'.HasRunLock() && t'.core < |w.runLock| && w.runLock[t'.core] == None
            && r.runLock == w.runLock[t'.core := Some(p)])
        || (t.HasRunLock() && !t'.HasRunLock() && t.core < |w.runLock| && r.runLock == w.runLock[t.core := None]))
    && (|| (r.tableLock == w.tableLock && (t'.Looking? ==> t.Looking?))
        || (w.tableLock == None && r.tableLock == Some(p))
        || (t.Looking? && !t'.Looking? && r.tableLock == None))
    && (t'.Parked? ==> t'.core < |w.runLock|)
  }

  lemma StepLocks(w: World, l: Label)
    requires l.pid in w.tasks && IsOwn(w, l)
    requires var t := w.tasks[l.pid].pc; t.HasRunLock() || t.Parked? ==> t.core < |w.runLock|
    ensures l.pid in Apply(w, l).tasks && LockStep(w, Apply(w, l), l.pid)
  {
    if l.Step? && w.tasks[l.pid].pc.Looking? { LookLocks(w, l.pid, l.arg); } else { PlainLocks(w, l); }
  }

  lemma LookLocks(w: World, p: nat, q: nat)
    requires p in w.tasks && w.tasks[p].pc.Looking? && w.tasks[p].pc.core < |w.runLock|
    ensures p in Look(w, p, q).tasks && LockStep(w, Look(w, p, q), p)
  {
  }

  lemma PlainLocks(w: World, l: Label)
    requires l.pid in w.tasks && IsOwn(w, l) && !(l.Step? && w.tasks[l.pid].pc.Looking?)
    requires var t := w.tasks[l.pid].pc; t.HasRunLock() || t.Parked? ==> t.core < |w.runLock|
    ensures l.pid in Apply(w, l).tasks && LockStep(w, Apply(w, l), l.pid)
  {
    if l.Step? {
      var t := w.tasks[l.pid].pc;
      if t.WantRunLock? || t.WantTable? || t.WantExitLock? {
        AcquireLocks(w, l.pid, l.arg);
      } else {
        OtherLocks(w, l.pid, l.arg);
      }
    }
  }

  lemma AcquireLocks(w: World, p: nat, arg: nat)
    requires p in w.tasks && (w.tasks[p].pc.WantRunLock? || w.tasks[p].pc.WantTable? || w.tasks[p].pc.WantExitLock?)
    ensures p in Advance(w, p, arg).tasks && LockStep(w, Advance(w, p, arg), p)
  {
  }

  lemma OtherLocks(w: World, p: nat, arg: nat)
    requires p in w.tasks && !w.tasks[p].pc.Looking? && !w.tasks[p].pc.Waking?
    requires !(w.tasks[p].pc.WantRunLock? || w.tasks[p].pc.WantTable? || w.tasks[p].pc.WantExitLock?)
    requires var t := w.tasks[p].pc; t.HasRunLock() || t.Parked? ==> t.core < |w.runLock|
    ensures p in Advance(w, p, arg).tasks && LockStep(w, Advance(w, p, arg), p)
  {
  }

  lemma LocksKept(w: World, r: World, p: nat)
    requires Locks(w) && OwnStep(w, r, p) && LockStep(w, r, p)
    ensures Locks(r)
  {
  }

  // Status, exit codes and the table ------------------------------------------------------------

  /** How one transition of p may change what other tasks rely on. */
  ghost predicate RecordStep(w: World, r: World, p: nat)
    requires p in w.tasks && p in r.tasks
  {
    var t, t' := w.tasks[p], r.tasks[p];
    && TaskOk(r, p)
    && (t.pc.Dead() ==> t' == t)
    && (r.passed == w.passed || (p in r.passed && r.passed == w.passed[p := r.passed[p]] && !t.pc.Dead()))
    && (|| (r.table == w.table && r.returned == w.returned)
        || (&& t.pc.Erase? && r.table == w.table - {t.pc.child}
            && r.returned == w.returned + [Reaped(p, t.pc.child, t.pc.code, t.pc.req)]))
    && (r.asked == w.asked || (p in r.asked && r.asked == w.asked[p := r.asked[p]]))
  }

  lemma StepRecords(w: World, l: Label)
    requires l.pid in w.tasks && IsOwn(w, l) && Pids(w) && Tasks(w)
    ensures l.pid in Apply(w, l).tasks && RecordStep(w, Apply(w, l), l.pid)
  {
    OwnSteps(w, l);
    assert TaskOk(w, l.pid);
    var pc := w.tasks[l.pid].pc;
    if pc.ReadCode? || pc.Erase? { assert TaskOk(w, pc.child); }
    if l.Step? && pc.Looking? {
      if l.arg in w.tasks { assert TaskOk(w, l.arg); }
      LookRecords(w, l.pid, l.arg);
    } else {
      PlainRecords(w, l);
    }
  }

  lemma LookRecords(w: World, p: nat, q: nat)
    requires p in w.tasks && w.tasks[p].pc.Looking? && TaskOk(w, p)
    requires q in w.tasks ==> TaskOk(w, q)
    ensures p in Look(w, p, q).tasks && RecordStep(w, Look(w, p, q), p)
  {
    var pc := w.tasks[p].pc;
    if q in w.table && q !in pc.seen && Matches(w, p, q, pc.req.sel) && Ended(w.tasks[q]) {
      FindRecords(w, p, q);
    } else if q in w.table && q !in pc.seen {
      PassRecords(w, p, q);
    } else {
      EndRecords(w, p, q);
    }
  }

  lemma FindRecords(w: World, p: nat, q: nat)
    requires p in w.tasks && w.tasks[p].pc.Looking? && TaskOk(w, p) && q in w.tasks && TaskOk(w, q)
    requires q in w.table && q !in w.tasks[p].pc.seen && Matches(w, p, q, w.tasks[p].pc.req.sel) && Ended(w.tasks[q])
    ensures p in Look(w, p, q).tasks && RecordStep(w, Look(w, p, q), p)
  {
  }

  lemma PassRecords(w: World, p: nat, q: nat)
    requires p in w.tasks && w.tasks[p].pc.Looking? && TaskOk(w, p) && q in w.table && q !in w.tasks[p].pc.seen
    requires !(Matches(w, p, q, w.tasks[p].pc.req.sel) && Ended(w.tasks[q]))
    ensures p in Look(w, p, q).tasks && RecordStep(w, Look(w, p, q), p)
  {
  }

  lemma EndRecords(w: World, p: nat, q: nat)
    requires p in w.tasks && w.tasks[p].pc.Looking? && TaskOk(w, p) && !(q in w.table && q !in w.tasks[p].pc.seen)
    ensures p in Look(w, p, q).tasks && RecordStep(w, Look(w, p, q), p)
  {
  }

  lemma PlainRecords(w: World, l: Label)
    requires l.pid in w.tasks && IsOwn(w, l) && !(l.Step? && w.tasks[l.pid].pc.Looking?) && TaskOk(w, l.pid)
    requires var pc := w.tasks[l.pid].pc; pc.ReadCode? ==> TaskOk(w, pc.child)
    ensures l.pid in Apply(w, l).tasks && RecordStep(w, Apply(w, l), l.pid)
  {
    if !l.Step? {
      BeginRecords(w, l);
    } else if w.tasks[l.pid].pc.Waits() {
      WaitRecords(w, l.pid, l.arg);
    } else {
      ExitRecords(w, l.pid, l.arg);
    }
  }

  lemma BeginRecords(w: World, l: Label)
    requires l.pid in w.tasks && (l.BeginWait? || l.BeginExit?) && TaskOk(w, l.pid)
    ensures l.pid in Apply(w, l).tasks && RecordStep(w, Apply(w, l), l.pid)
  {
  }

  lemma WaitRecords(w: World, p: nat, arg: nat)
    requires p in w.tasks && w.tasks[p].pc.Waits() && !w.tasks[p].pc.Looking? && TaskOk(w, p)
    requires w.tasks[p].pc.ReadCode? ==> TaskOk(w, w.tasks[p].pc.child)
    ensures p in Advance(w, p, arg).tasks && RecordStep(w, Advance(w, p, arg), p)
  {
  }

  lemma ExitRecords(w: World, p: nat, arg: nat)
    requires p in w.tasks && !w.tasks[p].pc.Waits() && !w.tasks[p].pc.Waking? && TaskOk(w, p)
    ensures p in Advance(w, p, arg).tasks && RecordStep(w, Advance(w, p, arg), p)
  {
  }

  lemma RecordsKept(w: World, r: World, p: nat)
    requires Pids(w) && Tasks(w) && Returns(w) && OwnStep(w, r, p) && RecordStep(w, r, p)
    ensures Pids(r) && Tasks(r) && Returns(r)
  {
    TasksKept(w, r, p);
    ReturnsKept(w, r, p);
  }

  lemma TasksKept(w: World, r: World, p: nat)
    requires Tasks(w) && OwnStep(w, r, p) && RecordStep(w, r, p)
    ensures Tasks(r)
  {
    assert TaskOk(w, p) && TaskOk(r, p);
    forall q | q in r.tasks ensures TaskOk(r, q) {
      if q != p {
        assert TaskOk(w, q);
        var pc := w.tasks[q].pc;
        if pc.ReadCode? || pc.Erase? { assert TaskOk(w, pc.child); }
      }
    }
  }

  lemma ReturnsKept(w: World, r: World, p: nat)
    requires Pids(w) && Tasks(w) && Returns(w) && OwnStep(w, r, p) && RecordStep(w, r, p)
    ensures Returns(r)
  {
    assert TaskOk(w, p);
    if w.tasks[p].pc.Erase? {
      assert TaskOk(w, w.tasks[p].pc.child);
    }
    forall i | 0 <= i < |r.returned| ensures ReturnOk(r, r.returned[i]) {
      if i < |w.returned| { assert ReturnOk(w, w.returned[i]); }
    }
  }

  // Wakeups -------------------------------------------------------------------------------------

  /** How one transition of p may create a new waiter or a new zombie. */
  ghost predicate WaitStep(w: World, r: World, p: nat)
    requires p in w.tasks && p in r.tasks
  {
    var t, t' := w.tasks[p].pc, r.tasks[p].pc;
    && r.table <= w.table
    && (Ended(r.tasks[p]) ==> r.tasks[p] == w.tasks[p] || t' == Waking(0) || r.tasks[p].parent == 0)
    && (t'.Parked? ==> t' == t || (t.Looking? && t.req == t'.req && t.core == t'.core && w.table <= t.seen))
    && (t'.Looking? ==> || t' == t
                        || t'.seen == {}
                        || (&& t.Looking? && t.req == t'.req && t.core == t'.core
                            && (forall q | q in t'.seen && q !in t.seen ::
                                  !Matches(w, p, q, t.req.sel) || !Ended(w.tasks[q]))))
  }

  lemma StepWaits(w: World, l: Label)
    requires l.pid in w.tasks && IsOwn(w, l) && TaskOk(w, l.pid)
    ensures l.pid in Apply(w, l).tasks && WaitStep(w, Apply(w, l), l.pid)
  {
    if l.Step? && w.tasks[l.pid].pc.Looking? { LookWaits(w, l.pid, l.arg); }
  }

  lemma LookWaits(w: World, p: nat, q: nat)
    requires p in w.tasks && w.tasks[p].pc.Looking? && TaskOk(w, p)
    ensures p in Look(w, p, q).tasks && WaitStep(w, Look(w, p, q), p)
  {
  }

  lemma OwnStepLosesNoWakeup(w: World, r: World, p: nat)
    requires Pids(w) && NoLostWakeup(w) && OwnStep(w, r, p) && WaitStep(w, r, p)
    ensures NoLostWakeup(r)
  {
    forall a, q | a in r.tasks && q in r.table && q in r.tasks && Ended(r.tasks[q])
      ensures r.tasks[a].pc.Parked? && Matches(r, a, q, r.tasks[a].pc.req.sel) ==> WakeupDue(r, q, r.tasks[a].pc.core)
      ensures r.tasks[a].pc.Looking? && q in r.tasks[a].pc.seen && Matches(r, a, q, r.tasks[a].pc.req.sel)
        ==> WakeupDue(r, q, r.tasks[a].pc.core)
    {
      assert a in w.tasks && q in w.table && q in w.tasks;
      assert forall sel :: Matches(r, a, q, sel) == Matches(w, a, q, sel);
    }
  }

  // The visit of one core by Wakeup -------------------------------------------------------------

  /** What a visit changes: the visitor moves on, and its parent is woken if it waits on that core. */
  ghost predicate VisitStep(w: World, r: World, p: nat) {
    && p in w.tasks && w.tasks[p].pc.Waking? && p in r.tasks && r.tasks.Keys == w.tasks.Keys
    && r == w.(tasks := r.tasks)
    && var c := w.tasks[p].pc.core;
    && r.tasks[p] == w.tasks[p].(pc := r.tasks[p].pc)
    && (r.tasks[p].pc == w.tasks[p].pc || r.tasks[p].pc == NextVisit(w, c))
    && (forall q | q in w.tasks && q != p ::
          || (r.tasks[q] == w.tasks[q]
              && (r.tasks[p].pc == NextVisit(w, c) && c < |w.runLock| && q == w.tasks[p].parent ==>
                    !(w.tasks[q].pc.Parked? && w.tasks[q].pc.core == c)))
          || (w.tasks[q].pc.Parked? && r.tasks[q] == w.tasks[q].(pc := WantRunLock(w.tasks[q].pc.req),
                                                                 status := Alive)))
    && (r.tasks[p].pc == NextVisit(w, c) && c < |w.runLock| ==> w.runLock[c] == None)
  }

  lemma VisitsStep(w: World, p: nat)
    requires p in w.tasks && w.tasks[p].pc.Waking?
    ensures VisitStep(w, Visit(w, p, w.tasks[p].pc.core), p)
  {
  }

  lemma VisitKeepsLocks(w: World, r: World, p: nat)
    requires Pids(w) && Locks(w) && Returns(w) && VisitStep(w, r, p)
    ensures Pids(r) && Locks(r) && Returns(r)
  {
  }

  lemma VisitKeepsTasks(w: World, r: World, p: nat)
    requires Tasks(w) && VisitStep(w, r, p)
    ensures Tasks(r)
  {
    forall q | q in r.tasks ensures TaskOk(r, q) {
      assert TaskOk(w, q);
    }
  }

  lemma VisitLosesNoWakeup(w: World, r: World, p: nat)
    requires Pids(w) && Locks(w) && NoLostWakeup(w) && VisitStep(w, r, p)
    ensures NoLostWakeup(r)
  {
    forall a, q | a in r.tasks && q in r.table && q in r.tasks && Ended(r.tasks[q])
      ensures r.tasks[a].pc.Parked? && Matches(r, a, q, r.tasks[a].pc.req.sel) ==> WakeupDue(r, q, r.tasks[a].pc.core)
      ensures r.tasks[a].pc.Looking? && q in r.tasks[a].pc.seen && Matches(r, a, q, r.tasks[a].pc.req.sel)
        ==> WakeupDue(r, q, r.tasks[a].pc.core)
    {
      assert forall sel :: Matches(r, a, q, sel) == Matches(w, a, q, sel);
    }
  }

  // A new task ----------------------------------------------------------------------------------

  ghost predicate SpawnStep(w: World, r: World, p: nat) {
    && p in w.tasks && w.tasks[p].pc == User && w.tableLock == None && w.nextPid !in w.tasks
    && exists g, b :: r == w.(tasks := w.tasks[w.nextPid := Task(p, g, b, Alive, 0, User)],
                              table := w.table + {w.nextPid}, nextPid := w.nextPid + 1)
  }

  lemma SpawnKeepsInv(w: World, r: World, p: nat)
    requires Inv(w) && SpawnStep(w, r, p)
    ensures Inv(r)
  {
    SpawnKeepsTasks(w, r, p);
    SpawnLosesNoWakeup(w, r, p);
  }

  lemma SpawnKeepsTasks(w: World, r: World, p: nat)
    requires Pids(w) && Tasks(w) && SpawnStep(w, r, p)
    ensures Tasks(r)
  {
    forall q | q in r.tasks ensures TaskOk(r, q) {
      if q != w.nextPid { assert TaskOk(w, q); }
    }
  }

  lemma SpawnLosesNoWakeup(w: World, r: World, p: nat)
    requires Pids(w) && NoLostWakeup(w) && SpawnStep(w, r, p)
    ensures NoLostWakeup(r)
  {
    forall a, q | a in r.tasks && q in r.table && q in r.tasks && Ended(r.tasks[q])
      ensures r.tasks[a].pc.Parked? && Matches(r, a, q, r.tasks[a].pc.req.sel) ==> WakeupDue(r, q, r.tasks[a].pc.core)
      ensures r.tasks[a].pc.Looking? && q in r.tasks[a].pc.seen && Matches(r, a, q, r.tasks[a].pc.req.sel)
        ==> WakeupDue(r, q, r.tasks[a].pc.core)
    {
      if a != w.nextPid { assert forall sel :: Matches(r, a, q, sel) == Matches(w, a, q, sel); }
    }
  }

  lemma ApplyKeepsInv(w: World, l: Label)
    requires Inv(w)
    ensures Inv(Apply(w, l))
  {
    if l.pid in w.tasks {
      var r := Apply(w, l);
      if IsOwn(w, l) {
        OwnSteps(w, l);
        assert TaskOk(w, l.pid);
        StepLocks(w, l);
        LocksKept(w, r, l.pid);
        StepRecords(w, l);
        RecordsKept(w, r, l.pid);
        StepWaits(w, l);
        OwnStepLosesNoWakeup(w, r, l.pid);
      } else if l.Step? {
        VisitsStep(w, l.pid);
        VisitKeepsLocks(w, r, l.pid);
        VisitKeepsTasks(w, r, l.pid);
        VisitLosesNoWakeup(w, r, l.pid);
      } else if r != w {
        assert SpawnStep(w, r, l.pid);
        SpawnKeepsInv(w, r, l.pid);
      }
    }
  }

  lemma {:induction false} ExecInv(cores: nat, ls: seq<Label>)
    ensures Inv(Exec(Init(cores), ls))
  {
    if ls == [] {
      InitInv(cores);
    } else {
      ExecInv(cores, ls[..|ls| - 1]);
      ApplyKeepsInv(Exec(Init(cores), ls[..|ls| - 1]), ls[|ls| - 1]);
    }
  }

  // ---------------------------------------------------------------------------------------------
  // What holds after every run
  // ---------------------------------------------------------------------------------------------

  /**
  No lost wakeup: a parent blocked in Wait on core c with a matching ended child in the table can
  count on that child's wakeup, which has not visited c yet.
  */
  lemma WaitLosesNoWakeup(cores: nat, ls: seq<Label>, p: nat, q: nat)
    requires var w := Exec(Init(cores), ls);
      p in w.tasks && w.tasks[p].pc.Parked? && q in w.table && Matches(w, p, q, w.tasks[p].pc.req.sel)
    requires Ended(Exec(Init(cores), ls).tasks[q])
    ensures var w := Exec(Init(cores), ls); WakeupDue(w, q, w.tasks[p].pc.core)
  {
    ExecInv(cores, ls);
  }

  /** So a parent whose children have all finished exiting is never left blocked beside a zombie. */
  lemma NoParentIsStranded(cores: nat, ls: seq<Label>, p: nat, q: nat)
    requires var w := Exec(Init(cores), ls);
      p in w.tasks && w.tasks[p].pc.Parked? && q in w.table && Matches(w, p, q, w.tasks[p].pc.req.sel)
    requires !Exec(Init(cores), ls).tasks[q].pc.Waking?
    ensures !Ended(Exec(Init(cores), ls).tasks[q])
  {
    ExecInv(cores, ls);
  }

  /**
  Every child that Wait returned is a child of the caller and one the request asked for, with exactly the code
  it passed to Exit; no child is returned twice; a returned child has left the table.
  */
  lemma WaitReturnsEachChildOnce(cores: nat, ls: seq<Label>)
    ensures var w := Exec(Init(cores), ls);
      && (forall i | 0 <= i < |w.returned| ::
            var Reaped(p, q, code, req) := w.returned[i];
            && p in w.tasks && q in w.tasks && q !in w.table && w.tasks[q].parent == p
            && (req.sel.SameGroup? ==> w.tasks[q].group == w.tasks[p].group)
            && (req.sel.Exactly? ==> q == req.sel.pid)
            && q in w.passed && w.passed[q] == code)
      && (forall i, j | 0 <= i < j < |w.returned| :: w.returned[i].child != w.returned[j].child)
  {
    ExecInv(cores, ls);
    var w := Exec(Init(cores), ls);
    assert forall i | 0 <= i < |w.returned| :: ReturnOk(w, w.returned[i]);
  }

  // ---------------------------------------------------------------------------------------------
  // How a call of Wait leaves the scan
  // ---------------------------------------------------------------------------------------------

  /** The scan has met a child that was asked for, or none of those it has looked at was. */
  ghost predicate ScanOk(w: World, p: nat)
    requires p in w.tasks
  {
    w.tasks[p].pc.Looking? ==>
      var Looking(req, _, seen, matched) := w.tasks[p].pc;
      if matched then exists q :: q in seen && q in w.table && AskedFor(w, p, q, req.sel)
      else forall q | q in seen && q in w.table :: !AskedFor(w, p, q, req.sel)
  }

  ghost predicate Scans(w: World) { forall p | p in w.tasks :: ScanOk(w, p) }

  lemma LookScans(w: World, p: nat, q: nat)
    requires Pids(w) && p in w.tasks && w.tasks[p].pc.Looking? && ScanOk(w, p)
    ensures var r := Look(w, p, q); p in r.tasks && ScanOk(r, p)
  {
    var Looking(req, c, seen, matched) := w.tasks[p].pc;
    var r := Look(w, p, q);
    if r.tasks[p].pc.Looking? {
      assert forall x :: AskedFor(r, p, x, req.sel) == AskedFor(w, p, x, req.sel);
      if r.tasks[p].pc.matched {
        if matched {
          var x :| x in seen && x in w.table && AskedFor(w, p, x, req.sel);
          assert x in r.tasks[p].pc.seen;
        } else {
          assert q in r.tasks[p].pc.seen && AskedFor(r, p, q, req.sel);
        }
      }
    }
  }

  /** While a task scans, the table stays as it is. */
  lemma TableStays(w: World, l: Label, p: nat)
    requires Pids(w) && Locks(w) && p in w.tasks && w.tasks[p].pc.Looking? && l.pid != p
    ensures var r := Apply(w, l);
      && p in r.tasks && r.tasks[p] == w.tasks[p] && r.table == w.table
      && forall q :: AskedFor(r, p, q, w.tasks[p].pc.req.sel) == AskedFor(w, p, q, w.tasks[p].pc.req.sel)
  {
    if l.pid in w.tasks {
      if IsOwn(w, l) {
        OwnSteps(w, l);
      } else if l.Step? {
        VisitsStep(w, l.pid);
      }
    }
  }

  lemma ApplyScans(w: World, l: Label)
    requires Inv(w) && Scans(w)
    ensures Scans(Apply(w, l))
  {
    var r := Apply(w, l);
    forall p | p in r.tasks ensures ScanOk(r, p) {
      if r.tasks[p].pc.Looking? { ScanKept(w, l, p); }
    }
  }

  lemma ScanKept(w: World, l: Label, p: nat)
    requires Inv(w) && Scans(w) && p in Apply(w, l).tasks && Apply(w, l).tasks[p].pc.Looking?
    ensures ScanOk(Apply(w, l), p)
  {
    if p in w.tasks && w.tasks[p].pc.Looking? {
      assert ScanOk(w, p);
      if l.pid != p {
        TableStays(w, l, p);
      } else if l.Step? {
        LookScans(w, p, l.arg);
      }
    } else {
      FreshScan(w, l, p);
    }
  }

  /** A scan starts with nothing looked at. */
  lemma FreshScan(w: World, l: Label, p: nat)
    requires p in Apply(w, l).tasks && Apply(w, l).tasks[p].pc.Looking?
    requires !(p in w.tasks && w.tasks[p].pc.Looking?)
    ensures Apply(w, l).tasks[p].pc.seen == {} && !Apply(w, l).tasks[p].pc.matched
  {
    if l.pid in w.tasks {
      if IsOwn(w, l) {
        OwnSteps(w, l);
        if l.pid == p { OwnFreshScan(w, l); }
      } else if l.Step? {
        VisitsStep(w, l.pid);
      }
    }
  }

  lemma OwnFreshScan(w: World, l: Label)
    requires l.pid in w.tasks && IsOwn(w, l) && !w.tasks[l.pid].pc.Looking?
    requires l.pid in Apply(w, l).tasks && Apply(w, l).tasks[l.pid].pc.Looking?
    ensures Apply(w, l).tasks[l.pid].pc.seen == {} && !Apply(w, l).tasks[l.pid].pc.matched
  {
  }

  lemma {:induction false} ExecScans(cores: nat, ls: seq<Label>)
    ensures Inv(Exec(Init(cores), ls)) && Scans(Exec(Init(cores), ls))
  {
    ExecInv(cores, ls);
    if ls != [] {
      ExecScans(cores, ls[..|ls| - 1]);
      ApplyScans(Exec(Init(cores), ls[..|ls| - 1]), ls[|ls| - 1]);
    }
  }

  /** A child that was asked for and lives, or whose wakeup has still to come to the core. */
  ghost predicate WorthWaiting(w: World, p: nat, q: nat, req: Request, c: nat) {
    q in w.table && AskedFor(w, p, q, req.sel) && (!Ended(w.tasks[q]) || WakeupDue(w, q, c))
  }

  /** One look of p at entry q, or the end of its scan, as its request demands. */
  ghost predicate LooksRightly(w: World, p: nat, q: nat, r: World)
    requires p in w.tasks && w.tasks[p].pc.Looking?
  {
    var Looking(req, c, seen, _) := w.tasks[p].pc;
    && p in w.asked && req == w.asked[p] && p in r.tasks && r.returned == w.returned
    && var pc := r.tasks[p].pc;
    if q in w.table && q !in seen then
      && r.refused == w.refused
      && if AskedFor(w, p, q, req.sel) && Ended(w.tasks[q]) then pc == ReadCode(req, q)
         else pc.Looking? && pc.req == req && pc.core == c && pc.seen == seen + {q}
    else if !(w.table <= seen) then r == w
    else if forall x | x in w.table :: !AskedFor(w, p, x, req.sel) then
      pc == User && r.refused == w.refused + [NoChild(p, req)]
    else if req.noHang then pc == User && r.refused == w.refused + [NotYet(p, req)]
    else pc == Parked(req, c) && r.refused == w.refused && exists x :: x in seen && WorthWaiting(w, p, x, req, c)
  }

  /**
  In every run a scan goes through the table and stops at the first ended child that was asked for; at its end
  Wait reports NoChild exactly when the table holds no child that was asked for, NotYet exactly when it does and
  the request must not wait, and otherwise blocks, beside a child worth waiting for.
  */
  lemma ScanIsRight(cores: nat, ls: seq<Label>, p: nat, q: nat)
    requires var w := Exec(Init(cores), ls); p in w.tasks && w.tasks[p].pc.Looking?
    ensures var w := Exec(Init(cores), ls); LooksRightly(w, p, q, Apply(w, Step(p, q)))
  {
    ExecScans(cores, ls);
    var w := Exec(Init(cores), ls);
    assert TaskOk(w, p) && ScanOk(w, p);
    LookIsRight(w, p, q);
  }

  lemma LookIsRight(w: World, p: nat, q: nat)
    requires Pids(w) && NoLostWakeup(w) && p in w.tasks && w.tasks[p].pc.Looking? && TaskOk(w, p) && ScanOk(w, p)
    ensures LooksRightly(w, p, q, Look(w, p, q))
  {
    var Looking(req, c, seen, matched) := w.tasks[p].pc;
    if matched {
      var x :| x in seen && x in w.table && AskedFor(w, p, x, req.sel);
      assert Matches(w, p, x, req.sel);
      assert WorthWaiting(w, p, x, req, c);
    }
  }

  // ---------------------------------------------------------------------------------------------
  // A child may be reaped before its Exit is over
  // ---------------------------------------------------------------------------------------------

  lemma {:induction false} ExecConcat(w: World, a: seq<Label>, b: seq<Label>)
    ensures Exec(w, a + b) == Exec(Exec(w, a), b)
    decreases |b|
  {
    if b == [] {
      assert a + b == a;
    } else {
      ExecConcat(w, a, b[..|b| - 1]);
      assert (a + b)[..|a + b| - 1] == a + b[..|b| - 1];
    }
  }

  lemma ExecSnoc(w: World, ls: seq<Label>, l: Label)
    ensures Exec(w, ls + [l]) == Apply(Exec(w, ls), l)
  {
    assert (ls + [l])[..|ls|] == ls;
  }

  lemma ExecThree(w: World, a: Label, b: Label, c: Label)
    ensures Exec(w, [a, b, c]) == Apply(Apply(Apply(w, a), b), c)
  {
    assert [] + [a] == [a] && [a] + [b] == [a, b] && [a, b] + [c] == [a, b, c];
    ExecSnoc(w, [], a);
    ExecSnoc(w, [a], b);
    ExecSnoc(w, [a, b], c);
  }

  const EarlyReturn: Reaped := Reaped(1, 2, 7, Request(AnyChild, false))

  /** Parent 1 and child 2, nobody holds a lock the run needs. */
  predicate TwoTasks(w: World) {
    && w.tasks.Keys == {1, 2} && w.table == {1, 2} && |w.runLock| > 0 && w.returned == []
    && w.tasks[1].parent == 0 && w.tasks[2].parent == 1
  }

  /** The child has taken the run-queue lock of core 0 for its Exit(7). */
  predicate Exiting(w: World) {
    && TwoTasks(w) && w.tableLock == None && w.runLock[0] == Some(2)
    && w.tasks[1].pc == User && w.tasks[2].pc == StoreCode(7, 0)
  }

  /** The child is a zombie and the parent has begun to wait; all of the child's wakeup is to come. */
  predicate EndedEarly(w: World) {
    && TwoTasks(w) && w.tableLock == None && w.runLock[0] == None
    && w.tasks[1].pc == WantRunLock(Request(AnyChild, false))
    && w.tasks[2].status == Zombie && w.tasks[2].pc == Waking(0) && w.tasks[2].exitCode == 7
  }

  /** The parent has found the child. */
  predicate Found(w: World) {
    && TwoTasks(w) && w.tableLock == None && w.tasks[1].pc == ReadCode(Request(AnyChild, false), 2)
    && w.tasks[2].pc == Waking(0) && w.tasks[2].exitCode == 7
  }

  lemma ChildExits(cores: nat)
    requires cores > 0
    ensures Exiting(Exec(Init(cores), [Spawn(1, 0, true), BeginExit(2, 7), Step(2, 0)]))
  {
    ExecThree(Init(cores), Spawn(1, 0, true), BeginExit(2, 7), Step(2, 0));
    var w := Apply(Init(cores), Spawn(1, 0, true));
    assert w.tasks.Keys == {1, 2} && w.table == {1, 2};
    assert !HasChildInTable(w, 2);
  }

  lemma ChildEnds(w: World)
    requires Exiting(w)
    ensures EndedEarly(Exec(w, [Step(2, 0), Step(2, 0), BeginWait(1, Request(AnyChild, false))]))
  {
    ExecThree(w, Step(2, 0), Step(2, 0), BeginWait(1, Request(AnyChild, false)));
  }

  lemma ParentFinds(w: World)
    requires EndedEarly(w)
    ensures Found(Exec(w, [Step(1, 0), Step(1, 0), Step(1, 2)]))
  {
    ExecThree(w, Step(1, 0), Step(1, 0), Step(1, 2));
    var v := Apply(w, Step(1, 0));
    assert v.tasks[1].pc == WantTable(Request(AnyChild, false), 0);
  }

  lemma ParentReaps(w: World)
    requires Found(w)
    ensures var r := Exec(w, [Step(1, 0), Step(1, 0), Step(1, 0)]);
      r.returned == [EarlyReturn] && r.table == {1} && 2 in r.tasks && r.tasks[2].pc == Waking(0)
  {
    ExecThree(w, Step(1, 0), Step(1, 0), Step(1, 0));
  }

  function ExitRun(): seq<Label> {
    [Spawn(1, 0, true), BeginExit(2, 7), Step(2, 0)] + [Step(2, 0), Step(2, 0), BeginWait(1, Request(AnyChild, false))]
  }

  function ReapRun(): seq<Label> { [Step(1, 0), Step(1, 0), Step(1, 2)] + [Step(1, 0), Step(1, 0), Step(1, 0)] }

  lemma FirstHalf(cores: nat)
    requires cores > 0
    ensures EndedEarly(Exec(Init(cores), ExitRun()))
  {
    var a := [Spawn(1, 0, true), BeginExit(2, 7), Step(2, 0)];
    ChildExits(cores);
    ChildEnds(Exec(Init(cores), a));
    ExecConcat(Init(cores), a, [Step(2, 0), Step(2, 0), BeginWait(1, Request(AnyChild, false))]);
  }

  lemma SecondHalf(w: World)
    requires EndedEarly(w)
    ensures var r := Exec(w, ReapRun());
      r.returned == [EarlyReturn] && r.table == {1} && 2 in r.tasks && r.tasks[2].pc == Waking(0)
  {
    var a := [Step(1, 0), Step(1, 0), Step(1, 2)];
    ParentFinds(w);
    ParentReaps(Exec(w, a));
    ExecConcat(w, a, [Step(1, 0), Step(1, 0), Step(1, 0)]);
  }

  /** On any number of cores Wait can return and erase a child that is still inside Exit. */
  lemma ReapedWhileExiting(cores: nat)
    requires cores > 0
    ensures var w := Exec(Init(cores), ExitRun() + ReapRun());
      w.returned == [EarlyReturn] && 2 !in w.table && 2 in w.tasks && w.tasks[2].pc.Waking?
  {
    FirstHalf(cores);
    SecondHalf(Exec(Init(cores), ExitRun()));
    ExecConcat(Init(cores), ExitRun(), ReapRun());
  }

  // ---------------------------------------------------------------------------------------------
  // When a returned child is out of its wakeup
  // ---------------------------------------------------------------------------------------------

  predicate ReturnedAreGone(w: World) {
    forall i | 0 <= i < |w.returned| :: w.returned[i].child in w.tasks && w.tasks[w.returned[i].child].pc == Gone
  }

  /** Without a core nobody gets beyond asking for a run-queue lock. */
  predicate NobodyRuns(w: World) {
    && w.runLock == [] && w.returned == []
    && forall p | p in w.tasks :: w.tasks[p].pc.User? || w.tasks[p].pc.WantRunLock? || w.tasks[p].pc.WantExitLock?
  }

  lemma {:induction false} NoCoresNoReturn(ls: seq<Label>)
    ensures NobodyRuns(Exec(Init(0), ls))
  {
    if ls != [] {
      NoCoresNoReturn(ls[..|ls| - 1]);
    }
  }

  /**
  Over all runs Wait returns only children that are out of their wakeup if and only if there is no core
  to wake on.
  */
  lemma ReturnedAreGoneIff(cores: nat)
    ensures (forall ls :: ReturnedAreGone(Exec(Init(cores), ls))) <==> cores == 0
  {
    if cores == 0 {
      forall ls ensures ReturnedAreGone(Exec(Init(cores), ls)) {
        NoCoresNoReturn(ls);
      }
    } else {
      ReapedWhileExiting(cores);
      var w := Exec(Init(cores), ExitRun() + ReapRun());
      assert w.returned[0].child == 2 && !ReturnedAreGone(w);
    }
  }

  /** The core that a label makes the wakeup of q visit: its run-queue lock is free at that moment. */
  function VisitedBy(w: World, l: Label, q: nat): set<nat> {
    if l.Step? && l.pid == q && q in w.tasks && w.tasks[q].pc.Waking? && Free(w, w.tasks[q].pc.core)
    then {w.tasks[q].pc.core} else {}
  }

  /** The cores that the wakeup of q has visited in the course of a run. */
  function VisitedCores(cores: nat, ls: seq<Label>, q: nat): set<nat> {
    if ls == [] then {}
    else
      var before := ls[..|ls| - 1];
      VisitedCores(cores, before, q) + VisitedBy(Exec(Init(cores), before), ls[|ls| - 1], q)
  }

  ghost predicate AllBelow(visited: set<nat>, n: nat) { forall c: nat :: c in visited <==> c < n }

  /** What a task's program counter says about its visits. */
  ghost predicate VisitsShow(t: Task, visited: set<nat>, cores: nat) {
    && (t.pc.Waking? ==> t.parent != 0 && t.pc.core < cores && AllBelow(visited, t.pc.core))
    && (t.pc.Gone? && t.parent != 0 ==> AllBelow(visited, cores))
    && (!t.pc.Dead() || t.parent == 0 ==> visited == {})
  }

  ghost predicate Shows(w: World, q: nat, visited: set<nat>) {
    if q in w.tasks then VisitsShow(w.tasks[q], visited, |w.runLock|) else visited == {}
  }

  /** A step of q itself other than a visit: only Exit leads into the wakeup, with no core visited yet. */
  lemma OwnStepShows(w: World, l: Label, visited: set<nat>)
    requires l.pid in w.tasks && IsOwn(w, l) && TaskOk(w, l.pid) && Shows(w, l.pid, visited)
    requires w.tasks[l.pid].pc.TurnZombie? ==> w.tasks[l.pid].pc.core < |w.runLock|
    ensures Shows(Apply(w, l), l.pid, visited)
  {
    OwnSteps(w, l);
    if l.Step? && w.tasks[l.pid].pc.Looking? { LookWaits(w, l.pid, l.arg); }
  }

  lemma VisitShows(w: World, p: nat, q: nat, arg: nat, visited: set<nat>)
    requires Tasks(w) && p in w.tasks && q in w.tasks && w.tasks[p].pc.Waking? && Shows(w, q, visited)
    ensures Shows(Advance(w, p, arg), q, visited + VisitedBy(w, Step(p, arg), q))
  {
    VisitsStep(w, p);
    if p != q {
      assert TaskOk(w, q);
    }
  }

  lemma ApplyShows(w: World, l: Label, q: nat, visited: set<nat>)
    requires Inv(w) && Shows(w, q, visited)
    ensures |Apply(w, l).runLock| == |w.runLock|
    ensures Shows(Apply(w, l), q, visited + VisitedBy(w, l, q))
  {
    assert visited + {} == visited;
    if l.pid in w.tasks {
      if IsOwn(w, l) {
        OwnKeepsShown(w, l, q, visited);
      } else if l.Step? {
        VisitsStep(w, l.pid);
        if q in w.tasks { VisitShows(w, l.pid, q, l.arg, visited); }
      } else {
        SpawnKeepsShown(w, l, q, visited);
      }
    }
  }

  lemma OwnKeepsShown(w: World, l: Label, q: nat, visited: set<nat>)
    requires Locks(w) && Tasks(w) && l.pid in w.tasks && IsOwn(w, l) && Shows(w, q, visited)
    ensures |Apply(w, l).runLock| == |w.runLock| && Shows(Apply(w, l), q, visited) && VisitedBy(w, l, q) == {}
  {
    OwnSteps(w, l);
    assert TaskOk(w, l.pid);
    if l.pid == q { OwnStepShows(w, l, visited); }
  }

  lemma SpawnKeepsShown(w: World, l: Label, q: nat, visited: set<nat>)
    requires Pids(w) && l.Spawn? && Shows(w, q, visited)
    ensures |Apply(w, l).runLock| == |w.runLock| && Shows(Apply(w, l), q, visited) && VisitedBy(w, l, q) == {}
  {
  }

  lemma {:induction false} ExecShows(cores: nat, ls: seq<Label>, q: nat)
    ensures var w := Exec(Init(cores), ls);
      |w.runLock| == cores && Inv(w) && Shows(w, q, VisitedCores(cores, ls, q))
  {
    ExecInv(cores, ls);
    if ls != [] {
      ExecShows(cores, ls[..|ls| - 1], q);
      ApplyShows(Exec(Init(cores), ls[..|ls| - 1]), ls[|ls| - 1], q, VisitedCores(cores, ls[..|ls| - 1], q));
    }
  }

  /**
  In every run a child that Wait has returned is out of its wakeup if and only if the steps of that
  run took the wakeup to every core; otherwise it has been to the first few cores only.
  */
  lemma ReturnedIsGoneIff(cores: nat, ls: seq<Label>, i: nat)
    requires i < |Exec(Init(cores), ls).returned|
    ensures var w := Exec(Init(cores), ls);
      var q := w.returned[i].child;
      q in w.tasks && (w.tasks[q].pc.Gone? <==> forall c | 0 <= c < cores :: c in VisitedCores(cores, ls, q))
  {
    var w := Exec(Init(cores), ls);
    var q := w.returned[i].child;
    ExecShows(cores, ls, q);
    if w.tasks[q].pc.Waking? {
      assert w.tasks[q].pc.core !in VisitedCores(cores, ls, q);
    }
  }

  lemma GoneKept(w: World, l: Label, q: nat)
    requires Inv(w) && q in w.tasks && w.tasks[q].pc == Gone
    ensures var r := Apply(w, l); q in r.tasks && r.tasks[q] == w.tasks[q]
  {
    if l.pid in w.tasks {
      if IsOwn(w, l) {
        OwnSteps(w, l);
      } else if l.Step? {
        VisitsStep(w, l.pid);
      }
    }
  }

  /** What has left its wakeup stays so: a child that is Gone when the scan finds it is Gone when it is returned. */
  lemma {:induction false} GoneStays(w: World, ls: seq<Label>, q: nat)
    requires Inv(w) && q in w.tasks && w.tasks[q].pc == Gone
    ensures var r := Exec(w, ls); Inv(r) && q in r.tasks && r.tasks[q] == w.tasks[q]
  {
    if ls != [] {
      GoneStays(w, ls[..|ls| - 1], q);
      GoneKept(Exec(w, ls[..|ls| - 1]), ls[|ls| - 1], q);
      ApplyKeepsInv(Exec(w, ls[..|ls| - 1]), ls[|ls| - 1]);
    }
  }
}
