/** Spinlocks, interrupts and the CPU hand-off (kernel/spinlock.c; scheduler, sched, yield, sleep
    in kernel/proc.c; kerneltrap in kernel/trap.c) as a step system: any number of CPUs run
    scheduler threads and process threads, every push_off, lock word, pop_off and swtch is a step
    of its own, and steps of all CPUs interleave. Between its calls a process may lock and unlock
    as it likes; it calls sleep holding only the lock it passes and yield holding none. */
module CpuHandoff {
  const FREE: int := -1
  const NOPROC: int := -1
  const NOLOCK: int := -1

  datatype RunState = UNUSED | SLEEPING | RUNNABLE | RUNNING | ZOMBIE

  /** What a thread does once sched returns. */
  datatype Cont = Release | Reacquire(lk: nat) | Keep | Never

  datatype Pc =
    | Free                             // in code of its own
    | Take(l: nat, next: Pc)           // acquire: past push_off, spinning for lock l
    | Pop(next: Pc)                    // release: lock word cleared, before pop_off
    | SleepRel(lk: nat)                // sleep: holds p->lock, about to release lk
    | SetState(st: RunState, cont: Cont) // holds only p->lock, about to leave RUNNING
    | Ready(cont: Cont)                // at sched's checks
    | Resumed(cont: Cont)              // past swtch in sched
    | Forkret
    | SchedGot(k: nat)                 // scheduler: holds p->lock of process k
    | SchedWait(k: nat)                // scheduler: inside swtch to process k
    | SchedBack(k: nat)                // scheduler: past swtch

  /** trap: inside kerneltrap. was: whether interrupts were on when the thread took its outermost
      lock. owes: the lock that sleep has still to take again, or NOLOCK. */
  datatype Thread = Thread(pc: Pc, trap: bool, was: bool, owes: int)

  /** run: the thread that executes, a process or NOPROC for the scheduler. */
  datatype Cpu = Cpu(noff: nat, intena: bool, intr: bool, proc: int, run: int, held: set<nat>, sched: Thread)

  /** saved: the local variable of sched. on: the CPU that executes on the kernel stack. */
  datatype Proc = Proc(state: RunState, on: int, saved: bool, thread: Thread)

  /** Lock k is p->lock of process k; the others follow. */
  datatype State = State(cpus: seq<Cpu>, procs: seq<Proc>, locks: seq<int>)

  datatype Action =
    | Acquire(c: nat, l: nat)
    | Unlock(c: nat, l: nat)
    | Sleep(c: nat, lk: nat)
    | Yield(c: nat)
    | Exit(c: nat, l: nat)             // holding p->lock and the parent's lock l
    | Look(c: nat, k: nat)             // the scheduler tries process k
    | Go(c: nat)                       // the next step of a call
    | Trap(c: nat)                     // a device or timer interrupt in the kernel
    | TrapReturn(c: nat)
    | IntrOn(c: nat)
    | IntrOff(c: nat)
    | Wake(c: nat, k: nat)             // wakeup, wakeup1, kill
    | Create(c: nat, k: nat)           // allocproc, userinit and fork
    | Reap(c: nat, k: nat)             // freeproc

  // ----- Parts of a state -----

  function Cur(s: State, c: nat): Thread
    requires c < |s.cpus|
  {
    var r := s.cpus[c].run;
    if 0 <= r < |s.procs| then s.procs[r].thread else s.cpus[c].sched
  }

  function WithCur(s: State, c: nat, t: Thread): State
    requires c < |s.cpus|
  {
    var r := s.cpus[c].run;
    if 0 <= r < |s.procs| then s.(procs := s.procs[r := s.procs[r].(thread := t)])
    else s.(cpus := s.cpus[c := s.cpus[c].(sched := t)])
  }

  function GoTo(s: State, c: nat, pc: Pc): State
    requires c < |s.cpus|
  {
    WithCur(s, c, Cur(s, c).(pc := pc))
  }

  function WithCpu(s: State, c: nat, cpu: Cpu): State
    requires c < |s.cpus|
  {
    s.(cpus := s.cpus[c := cpu])
  }

  function WithState(s: State, k: nat, st: RunState): State
    requires k < |s.procs|
  {
    s.(procs := s.procs[k := s.procs[k].(state := st)])
  }

  // ----- spinlock.c -----

  /** push_off, at the start of acquire(l). */
  function PushOff(s: State, c: nat, l: nat, next: Pc): State
    requires c < |s.cpus|
  {
    var cpu := s.cpus[c];
    var was := if cpu.noff == 0 then cpu.intr else Cur(s, c).was;
    var s1 := WithCur(s, c, Cur(s, c).(pc := Take(l, next), was := was));
    var intena := if cpu.noff == 0 then cpu.intr else cpu.intena;
    WithCpu(s1, c, s1.cpus[c].(intr := false, intena := intena, noff := cpu.noff + 1))
  }

  /** The swap that takes the lock. */
  function TakeLock(s: State, c: nat, l: nat, next: Pc): State
    requires c < |s.cpus| && l < |s.locks|
  {
    var s1 := GoTo(s, c, next);
    WithCpu(s1, c, s1.cpus[c].(held := s1.cpus[c].held + {l})).(locks := s.locks[l := c])
  }

  /** release(l), up to its pop_off. */
  function Clear(s: State, c: nat, l: nat, next: Pc): State
    requires c < |s.cpus| && l < |s.locks|
  {
    var s1 := GoTo(s, c, Pop(next));
    WithCpu(s1, c, s1.cpus[c].(held := s1.cpus[c].held - {l})).(locks := s.locks[l := FREE])
  }

  /** pop_off, where it does not panic. */
  function PopOff(s: State, c: nat, next: Pc): State
    requires c < |s.cpus|
    requires s.cpus[c].noff > 0
  {
    var s1 := GoTo(s, c, next);
    var cpu := s1.cpus[c];
    WithCpu(s1, c, cpu.(noff := cpu.noff - 1, intr := cpu.intr || (cpu.noff == 1 && cpu.intena)))
  }

  // ----- proc.c -----

  /** scheduler's swtch to process k. */
  function SwitchTo(s: State, c: nat, k: nat): State
    requires c < |s.cpus| && k < |s.procs|
  {
    var p := s.procs[k];
    var was := if p.thread.pc.Forkret? then s.cpus[c].intena else p.thread.was;
    s.(cpus := s.cpus[c := s.cpus[c].(proc := k, run := k, sched := s.cpus[c].sched.(pc := SchedWait(k)))],
       procs := s.procs[k := p.(state := RUNNING, on := c, thread := p.thread.(was := was))])
  }

  /** sched's swtch to the scheduler. */
  function SwitchBack(s: State, c: nat, k: nat, cont: Cont): State
    requires c < |s.cpus| && k < |s.procs|
  {
    var p := s.procs[k];
    var cpu := s.cpus[c];
    s.(cpus := s.cpus[c := cpu.(run := NOPROC, sched := cpu.sched.(pc := SchedBack(k), was := cpu.intena))],
       procs := s.procs[k := p.(on := NOPROC, saved := cpu.intena, thread := p.thread.(pc := Resumed(cont)))])
  }

  /** After sched: restore intena, then finish yield or sleep. */
  function Resume(s: State, c: nat, k: nat, cont: Cont): State
    requires c < |s.cpus| && k < |s.procs| && k < |s.locks|
  {
    var s1 := WithCpu(s, c, s.cpus[c].(intena := s.procs[k].saved));
    match cont
    case Release => Clear(s1, c, k, Free)
    case Reacquire(lk) => Clear(WithCur(s1, c, Cur(s1, c).(owes := lk)), c, k, Free)
    case Keep => GoTo(s1, c, Free)
    case Never => s1
  }

  // ----- Guards and steps -----

  predicate GoEnabled(s: State, c: nat)
    requires c < |s.cpus|
  {
    var r := s.cpus[c].run;
    match Cur(s, c).pc
    case Free => false
    case Take(l, _) => l < |s.locks| && s.locks[l] == FREE
    case Pop(_) => s.cpus[c].noff > 0
    case SleepRel(lk) => 0 <= r < |s.procs| && lk < |s.locks|
    case SetState(_, _) => 0 <= r < |s.procs|
    case Ready(_) => 0 <= r < |s.procs|
    case Resumed(_) => 0 <= r < |s.procs| <= |s.locks|
    case Forkret => 0 <= r < |s.procs| <= |s.locks|
    case SchedGot(k) => k < |s.procs| <= |s.locks|
    case SchedWait(_) => false
    case SchedBack(k) => k < |s.procs| <= |s.locks|
  }

  ghost predicate Enabled(s: State, a: Action) {
    && a.c < |s.cpus| && |s.procs| <= |s.locks|
    && var cpu := s.cpus[a.c];
    && var isProc := 0 <= cpu.run < |s.procs|;
    && var t := Cur(s, a.c);
    match a
    case Acquire(_, l) =>
      && t.pc.Free? && l < |s.locks| && l !in cpu.held && (isProc || t.trap)
      && (t.trap || t.owes in {NOLOCK, l})
    case Unlock(_, l) => t.pc.Free? && l in cpu.held && l < |s.locks|
    case Sleep(_, lk) => t.pc.Free? && isProc && !t.trap && lk < |s.locks| && cpu.held == {lk}
    case Yield(_) => t.pc.Free? && isProc && cpu.held == {} && (t.trap || t.owes == NOLOCK)
    case Exit(_, l) =>
      t.pc.Free? && isProc && !t.trap && l < |s.locks| && l != cpu.run && cpu.held == {cpu.run as nat, l}
    case Look(_, k) => t.pc.Free? && !isProc && !t.trap && cpu.held == {} && k < |s.procs|
    case Go(_) => GoEnabled(s, a.c)
    case Trap(_) => t.pc.Free? && cpu.intr
    case TrapReturn(_) => t.pc.Free? && t.trap && cpu.held == {}
    case IntrOn(_) => t.pc.Free? && !t.trap && cpu.held == {} && t.owes == NOLOCK
    case IntrOff(_) => t.pc.Free? && !t.trap && t.owes == NOLOCK
    case Wake(_, k) => t.pc.Free? && k < |s.procs| && k in cpu.held && s.procs[k].state == SLEEPING
    case Create(_, k) => t.pc.Free? && k < |s.procs| && k in cpu.held && s.procs[k].state == UNUSED
    case Reap(_, k) => t.pc.Free? && k < |s.procs| && k in cpu.held && s.procs[k].state == ZOMBIE
  }

  function GoNext(s: State, c: nat): State
    requires c < |s.cpus| && GoEnabled(s, c)
  {
    var r := s.cpus[c].run;
    match Cur(s, c).pc
    case Take(l, next) => TakeLock(s, c, l, next)
    case Pop(next) => PopOff(s, c, next)
    case SleepRel(lk) => Clear(s, c, lk, SetState(SLEEPING, Reacquire(lk)))
    case SetState(st, cont) => GoTo(WithState(s, r, st), c, Ready(cont))
    case Ready(cont) => SwitchBack(s, c, r, cont)
    case Resumed(cont) => Resume(s, c, r, cont)
    case Forkret => Clear(s, c, r, Free)
    case SchedGot(k) => if s.procs[k].state == RUNNABLE then SwitchTo(s, c, k) else Clear(s, c, k, Free)
    case SchedBack(k) => Clear(WithCpu(s, c, s.cpus[c].(proc := NOPROC)), c, k, Free)
    case _ => s
  }

  ghost function Next(s: State, a: Action): State
    requires Enabled(s, a)
  {
    var cpu := s.cpus[a.c];
    match a
    case Acquire(c, l) =>
      var t := Cur(s, c);
      PushOff(WithCur(s, c, t.(owes := if t.trap then t.owes else NOLOCK)), c, l, Free)
    case Unlock(c, l) => Clear(s, c, l, Free)
    case Sleep(c, lk) =>
      if lk != cpu.run then PushOff(s, c, cpu.run, SleepRel(lk)) else GoTo(s, c, SetState(SLEEPING, Keep))
    case Yield(c) => PushOff(s, c, cpu.run, SetState(RUNNABLE, Release))
    case Exit(c, l) => Clear(WithState(s, cpu.run, ZOMBIE), c, l, Ready(Never))
    case Look(c, k) => PushOff(s, c, k, SchedGot(k))
    case Go(c) => GoNext(s, c)
    case Trap(c) => WithCur(WithCpu(s, c, cpu.(intr := false)), c, Cur(s, c).(trap := true))
    case TrapReturn(c) => WithCur(WithCpu(s, c, cpu.(intr := true)), c, Cur(s, c).(trap := false))
    case IntrOn(c) => WithCpu(s, c, cpu.(intr := true))
    case IntrOff(c) => WithCpu(s, c, cpu.(intr := false))
    case Wake(c, k) => WithState(s, k, RUNNABLE)
    case Create(c, k) =>
      var born := Thread(Forkret, false, false, NOLOCK);
      s.(procs := s.procs[k := s.procs[k].(state := RUNNABLE, thread := born)])
    case Reap(c, k) => WithState(s, k, UNUSED)
  }

  /** All CPUs in their schedulers, no lock held, no process running. */
  ghost predicate Init(s: State) {
    && |s.procs| <= |s.locks|
    && (forall c :: 0 <= c < |s.cpus| ==>
          s.cpus[c] == Cpu(0, false, false, NOPROC, NOPROC, {}, Thread(Free, false, false, NOLOCK)))
    && (forall k :: 0 <= k < |s.procs| ==>
          && s.procs[k].state in {UNUSED, RUNNABLE}
          && s.procs[k].on == NOPROC && s.procs[k].thread == Thread(Forkret, false, false, NOLOCK))
    && (forall l :: 0 <= l < |s.locks| ==> s.locks[l] == FREE)
  }

  ghost predicate IsRun(ss: seq<State>, acts: seq<Action>) {
    && |ss| == |acts| + 1 && Init(ss[0])
    && forall x {:trigger acts[x]} :: 0 <= x < |acts| ==>
         Enabled(ss[x], acts[x]) && ss[x + 1] == Next(ss[x], acts[x])
  }
}
