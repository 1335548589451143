/** exit, wait, reparent and wakeup1 (kernel/proc.c) as a step system: any number of process
    slots, a lock per slot, and a program counter per process. Between two steps of one
    process any steps of others may happen.

    A lock that the scheduler holds while it switches to or from a process counts as held by
    that process. */
module ExitWait {
  datatype RunState = UNUSED | SLEEPING | RUNNABLE | RUNNING | ZOMBIE

  /** Where a process is in exit or wait; `op` is exit's original_parent. */
  datatype Pc =
    | Idle                                 // the slot is unused
    | User                                 // outside exit and wait
    | Parked                               // asleep on some other channel
    | XRead(status: int)                   // about to read p->parent
    | XLockParent(status: int, op: nat)    // about to lock the parent read
    | XLockSelf(status: int, op: nat)
    | XScan(status: int, op: nat, k: nat)  // reparent, at slot k
    | XGive(status: int, op: nat, k: nat)  // slot k is a child, about to give it to init
    | XWake(status: int, op: nat)
    | XZombie(status: int, op: nat)
    | XRelease(op: nat)
    | XSwitch                              // in sched, about to leave the CPU
    | Dead
    | WScan(k: nat, kids: bool)            // wait's scan, at slot k
    | WTake(k: nat, kids: bool)            // slot k is a child, about to lock it
    | WDecide(kids: bool)
    | WSwitch                              // asleep in wait, about to leave the CPU
    | WAsleep

  datatype Proc = Proc(st: RunState, parent: int, killed: bool, xstate: int, pid: nat, pc: Pc, eid: nat)

  /** The pid and status with which a process exited. */
  datatype Exit = Exit(slot: nat, pid: nat, status: int)

  /** What wait reported, and to whom. */
  datatype Reap = Reap(parent: nat, slot: nat, pid: nat, status: int)

  datatype State = State(
    procs: seq<Proc>,
    lock: seq<int>,                        // the process that holds a slot's lock, or FREE
    nextPid: nat,
    exits: seq<Exit>,                      // history: every exit so far
    reaps: map<nat, Reap>)                 // history: which exits wait has reported

  const FREE: int := -1
  const INIT: nat := 0

  datatype Action =
    | Fork(i: nat, j: nat)
    | Preempt(i: nat) | Dispatch(i: nat)
    | SleepElse(i: nat) | WakeElse(i: nat) | Kill(i: nat)
    | ExitStart(i: nat, status: int) | WaitStart(i: nat)
    | Step(i: nat)
    | Refuse(i: nat)                       // wait's copyout fails

  predicate InUse(p: Proc) { p.st != UNUSED }

  /** chan == p: asleep in wait, or not yet back from that sleep. */
  predicate InWait(pc: Pc) { pc.WSwitch? || pc.WAsleep? }

  /** The process holds its own lock. */
  predicate Own(pc: Pc) {
    pc.XScan? || pc.XGive? || pc.XWake? || pc.XZombie? || pc.XRelease? || pc.XSwitch?
    || pc.WScan? || pc.WTake? || pc.WDecide? || pc.WSwitch?
  }

  /** The other lock that the process holds, or FREE. */
  function Other(pc: Pc): int {
    match pc
    case XLockSelf(_, op) => op
    case XScan(_, op, _) => op
    case XGive(_, op, _) => op
    case XWake(_, op) => op
    case XZombie(_, op) => op
    case XRelease(op) => op
    case _ => FREE
  }

  function WithProc(s: State, i: nat, p: Proc): State
    requires i < |s.procs|
  {
    s.(procs := s.procs[i := p])
  }

  function At(s: State, i: nat, pc: Pc): State
    requires i < |s.procs|
  {
    WithProc(s, i, s.procs[i].(pc := pc))
  }

  /** wakeup1 */
  function Woken(p: Proc): Proc {
    if InWait(p.pc) && p.st == SLEEPING then p.(st := RUNNABLE) else p
  }

  // ----- The steps -----

  predicate CanRun(s: State, i: nat) { i < |s.procs| && s.procs[i].st == RUNNING }

  predicate Unlocked(s: State, i: nat) { i < |s.lock| && s.lock[i] == FREE }

  /** The thread of process i can take its next step inside exit or wait. */
  predicate StepEnabled(s: State, i: nat)
    requires i < |s.procs|
  {
    var n := |s.procs|;
    match s.procs[i].pc
    case XRead(_) => Unlocked(s, i)
    case XLockParent(_, op) => Unlocked(s, op)
    case XLockSelf(_, _) => Unlocked(s, i)
    case XScan(_, _, _) => true
    case XGive(_, _, k) => Unlocked(s, k) && k < n
    case XWake(_, op) => op < n
    case XZombie(_, _) => true
    case XRelease(op) => op < |s.lock|
    case XSwitch => true
    case WScan(_, _) => true
    case WTake(k, _) => Unlocked(s, k) && k < n
    case WDecide(_) => true
    case WSwitch => true
    case _ => false
  }

  predicate StepReady(s: State, i: nat) {
    && |s.lock| == |s.procs| && i < |s.procs| && StepEnabled(s, i)
    && (CanRun(s, i) || s.procs[i].pc.XRelease? || s.procs[i].pc.XSwitch? || s.procs[i].pc.WSwitch?)
  }

  predicate Enabled(s: State, a: Action) {
    |s.lock| == |s.procs| && |s.procs| > 0 &&
    match a
    case Fork(i, j) => CanRun(s, i) && s.procs[i].pc.User? && j < |s.procs| && s.procs[j].st == UNUSED && Unlocked(s, j)
    case Preempt(i) => CanRun(s, i)
        && (s.procs[i].pc.User? || s.procs[i].pc.XRead? || s.procs[i].pc.XLockParent?) && Unlocked(s, i)
    case Dispatch(i) => i < |s.procs| && s.procs[i].st == RUNNABLE && Unlocked(s, i)
    case SleepElse(i) => CanRun(s, i) && s.procs[i].pc.User? && Unlocked(s, i)
    case WakeElse(i) => i < |s.procs| && s.procs[i].st == SLEEPING && s.procs[i].pc.Parked? && Unlocked(s, i)
    case Kill(i) => i < |s.procs| && InUse(s.procs[i]) && Unlocked(s, i)
    case ExitStart(i, _) => CanRun(s, i) && s.procs[i].pc.User? && i != INIT && Unlocked(s, INIT)
    case WaitStart(i) => CanRun(s, i) && s.procs[i].pc.User? && Unlocked(s, i)
    case Step(i) => StepReady(s, i)
    case Refuse(i) =>
      && CanRun(s, i) && s.procs[i].pc.WTake? && Unlocked(s, s.procs[i].pc.k) && s.procs[i].pc.k < |s.procs|
      && s.procs[s.procs[i].pc.k].st == ZOMBIE
  }

  /** freeproc, and wait's report. */
  function Reaped(s: State, i: nat, k: nat): State
    requires i < |s.procs| && k < |s.procs| && |s.lock| == |s.procs|
  {
    var z := s.procs[k];
    s.(procs := s.procs[k := Proc(UNUSED, FREE, false, 0, 0, Idle, 0)][i := s.procs[i].(pc := User)],
       lock := s.lock[i := FREE], reaps := s.reaps[z.eid := Reap(i, k, z.pid, z.xstate)])
  }

  /** exit, up to where it holds both locks. */
  function EnterStep(s: State, i: nat): State
    requires i < |s.procs| && |s.lock| == |s.procs| && StepEnabled(s, i)
  {
    var p := s.procs[i];
    match p.pc
    case XRead(st) => At(s, i, XLockParent(st, if p.parent >= 0 then p.parent else INIT))
    case XLockParent(st, op) => At(s, i, XLockSelf(st, op)).(lock := s.lock[op := i])
    case XLockSelf(st, op) => At(s, i, XScan(st, op, 0)).(lock := s.lock[i := i])
    case _ => s
  }

  /** reparent */
  function GiveStep(s: State, i: nat): State
    requires i < |s.procs| && |s.lock| == |s.procs| && StepEnabled(s, i)
  {
    match s.procs[i].pc
    case XScan(st, op, k) =>
      if k >= |s.procs| then At(s, i, XWake(st, op))
      else if s.procs[k].parent == i then At(s, i, XGive(st, op, k))
      else At(s, i, XScan(st, op, k + 1))
    case XGive(st, op, k) => At(WithProc(s, k, s.procs[k].(parent := INIT)), i, XScan(st, op, k + 1))
    case _ => s
  }

  /** exit, from waking the parent on. */
  function LeaveStep(s: State, i: nat): State
    requires i < |s.procs| && |s.lock| == |s.procs| && StepEnabled(s, i)
  {
    var p := s.procs[i];
    match p.pc
    case XWake(st, op) => At(WithProc(s, op, Woken(s.procs[op])), i, XZombie(st, op))
    case XZombie(st, op) =>
      var dead := p.(st := ZOMBIE, xstate := st, pc := XRelease(op), eid := |s.exits|);
      WithProc(s, i, dead).(exits := s.exits + [Exit(i, p.pid, st)])
    case XRelease(op) => At(s, i, XSwitch).(lock := s.lock[op := FREE])
    case XSwitch => At(s, i, Dead).(lock := s.lock[i := FREE])
    case _ => s
  }

  /** wait */
  function WaitStep(s: State, i: nat): State
    requires i < |s.procs| && |s.lock| == |s.procs| && StepEnabled(s, i)
  {
    var p := s.procs[i];
    match p.pc
    case WScan(k, kids) =>
      if k >= |s.procs| then At(s, i, WDecide(kids))
      else if s.procs[k].parent == i then At(s, i, WTake(k, kids))
      else At(s, i, WScan(k + 1, kids))
    case WTake(k, _) =>
      if s.procs[k].st == ZOMBIE then Reaped(s, i, k) else At(s, i, WScan(k + 1, true))
    case WDecide(kids) =>
      if !kids || p.killed then At(s, i, User).(lock := s.lock[i := FREE])
      else WithProc(s, i, p.(st := SLEEPING, pc := WSwitch))
    case WSwitch => At(s, i, WAsleep).(lock := s.lock[i := FREE])
    case _ => s
  }

  predicate Entering(pc: Pc) { pc.XRead? || pc.XLockParent? || pc.XLockSelf? }

  predicate Giving(pc: Pc) { pc.XScan? || pc.XGive? }

  predicate Leaving(pc: Pc) { pc.XWake? || pc.XZombie? || pc.XRelease? || pc.XSwitch? }

  function StepOf(s: State, i: nat): State
    requires i < |s.procs| && |s.lock| == |s.procs| && StepEnabled(s, i)
  {
    var pc := s.procs[i].pc;
    if Entering(pc) then EnterStep(s, i) else if Giving(pc) then GiveStep(s, i)
    else if Leaving(pc) then LeaveStep(s, i) else WaitStep(s, i)
  }

  function Next(s: State, a: Action): State
    requires Enabled(s, a)
  {
    match a
    case Fork(i, j) =>
      WithProc(s, j, Proc(RUNNABLE, i, false, 0, s.nextPid, User, 0)).(nextPid := s.nextPid + 1)
    case Preempt(i) => WithProc(s, i, s.procs[i].(st := RUNNABLE))
    case Dispatch(i) =>
      if s.procs[i].pc.WAsleep? then
        WithProc(s, i, s.procs[i].(st := RUNNING, pc := WScan(0, false))).(lock := s.lock[i := i])
      else WithProc(s, i, s.procs[i].(st := RUNNING, pc := if s.procs[i].pc.Parked? then User else s.procs[i].pc))
    case SleepElse(i) => WithProc(s, i, s.procs[i].(st := SLEEPING, pc := Parked))
    case WakeElse(i) => WithProc(s, i, s.procs[i].(st := RUNNABLE))
    case Kill(i) =>
      var st := if s.procs[i].st == SLEEPING then RUNNABLE else s.procs[i].st;
      WithProc(s, i, s.procs[i].(killed := true, st := st))
    case ExitStart(i, status) => At(WithProc(s, INIT, Woken(s.procs[INIT])), i, XRead(status))
    case WaitStart(i) => At(s, i, WScan(0, false)).(lock := s.lock[i := i])
    case Step(i) => StepOf(s, i)
    case Refuse(i) => At(s, i, User).(lock := s.lock[i := FREE])
  }

  /** Only init exists. */
  ghost predicate Init(s: State) {
    && |s.procs| == |s.lock| && |s.procs| > 0 && s.exits == [] && s.reaps == map[] && s.nextPid > 0
    && s.procs[INIT].st == RUNNING && s.procs[INIT].pc == User && s.procs[INIT].parent == FREE
    && (forall i :: 0 <= i < |s.lock| ==> s.lock[i] == FREE)
    && forall i :: 0 < i < |s.procs| ==> s.procs[i] == Proc(UNUSED, FREE, false, 0, 0, Idle, 0)
  }

  ghost predicate IsRun(ss: seq<State>, acts: seq<Action>) {
    && |ss| == |acts| + 1 && Init(ss[0])
    && forall x {:trigger acts[x]} :: 0 <= x < |acts| ==> Enabled(ss[x], acts[x]) && ss[x + 1] == Next(ss[x], acts[x])
  }
}
