/** What every step of the CPU hand-off keeps, and its theorems. */
module CpuProof {
  import opened CpuHandoff

  // ----- The invariant -----

  function Pushed(pc: Pc): nat { if pc.Take? || pc.Pop? then 1 else 0 }

  /** A process thread that executes: its locks and its state fit its program counter. */
  ghost predicate ProcShape(pc: Pc, k: nat, held: set<nat>, st: RunState) {
    match pc
    case Free => st == RUNNING
    case Take(l, next) =>
      && st == RUNNING && l !in held
      && (match next
          case Free => true
          case SleepRel(lk) => l == k && lk != k && held == {lk}
          case SetState(st', cont) => l == k && held == {} && st' != RUNNING && Leaves(st', cont)
          case _ => false)
    case Pop(next) =>
      (match next
       case Free => st == RUNNING
       case SetState(st', cont) => st == RUNNING && held == {k} && st' != RUNNING && Leaves(st', cont)
       case Ready(cont) => st != RUNNING && held == {k} && Leaves(st, cont)
       case _ => false)
    case SleepRel(lk) => st == RUNNING && lk != k && held == {lk, k}
    case SetState(st', cont) => st == RUNNING && held == {k} && st' != RUNNING && Leaves(st', cont)
    case Ready(cont) => st != RUNNING && held == {k} && Leaves(st, cont)
    case Resumed(cont) => st == RUNNING && held == {k} && !cont.Never?
    case Forkret => st == RUNNING && held == {k}
    case _ => false
  }

  /** Only a zombie never comes back. */
  predicate Leaves(st: RunState, cont: Cont) { cont.Never? <==> st == ZOMBIE }

  ghost predicate SchedShape(s: State, cpu: Cpu) {
    match cpu.sched.pc
    case Free => cpu.proc == NOPROC
    case Take(l, next) =>
      && cpu.proc == NOPROC && l !in cpu.held
      && (next.Free? || (next == SchedGot(l) && cpu.held == {} && l < |s.procs| && !cpu.sched.trap))
    case Pop(next) => cpu.proc == NOPROC && next.Free?
    case SchedGot(k) => cpu.proc == NOPROC && k < |s.procs| && cpu.held == {k} && !cpu.sched.trap
    case SchedBack(k) =>
      && k < |s.procs| && cpu.proc == k && cpu.held == {k} && !cpu.sched.trap
      && s.procs[k].state != RUNNING
    case _ => false
  }

  ghost predicate CpuOk(s: State, c: nat)
    requires c < |s.cpus|
  {
    var cpu := s.cpus[c];
    var t := Cur(s, c);
    && cpu.noff == |cpu.held| + Pushed(t.pc)
    && (cpu.intr ==> cpu.noff == 0 && !t.trap)
    && (cpu.noff > 0 && !t.pc.Resumed? ==> cpu.intena == t.was)
    && (cpu.noff > 0 && t.trap ==> !t.was)
    && (forall l :: l in cpu.held ==> l < |s.locks| && s.locks[l] == c)
    && (if cpu.run == NOPROC then SchedShape(s, cpu)
        else
          && 0 <= cpu.run < |s.procs| && s.procs[cpu.run].on == c && cpu.proc == cpu.run
          && cpu.sched.pc == SchedWait(cpu.run) && !cpu.sched.trap
          && ProcShape(t.pc, cpu.run, cpu.held, s.procs[cpu.run].state))
  }

  ghost predicate ProcOk(s: State, k: nat)
    requires k < |s.procs|
  {
    var p := s.procs[k];
    if p.on == NOPROC then
      && p.state != RUNNING
      && (p.state in {RUNNABLE, SLEEPING} ==>
           p.thread.pc.Forkret? || (p.thread.pc.Resumed? && !p.thread.pc.cont.Never?))
      && (p.thread.pc.Resumed? ==> p.saved == p.thread.was)
      && (p.thread.trap ==> p.thread.pc.Resumed? && !p.thread.was)
    else
      0 <= p.on < |s.cpus| && s.cpus[p.on].run == k
      && (p.thread.pc.Resumed? ==> p.saved == p.thread.was)
  }

  ghost predicate LockOk(s: State, l: nat)
    requires l < |s.locks|
  {
    s.locks[l] == FREE || (0 <= s.locks[l] < |s.cpus| && l in s.cpus[s.locks[l]].held)
  }

  ghost predicate Base(s: State) {
    && |s.procs| <= |s.locks|
    && (forall c {:trigger CpuOk(s, c)} :: 0 <= c < |s.cpus| ==> CpuOk(s, c))
    && (forall k {:trigger ProcOk(s, k)} :: 0 <= k < |s.procs| ==> ProcOk(s, k))
    && (forall l {:trigger LockOk(s, l)} :: 0 <= l < |s.locks| ==> LockOk(s, l))
  }

  // ----- Frames -----

  /** Everything that CPU d relies on is as before. */
  ghost predicate SameFor(s: State, d: nat, s': State)
    requires d < |s.cpus|
  {
    && |s'.cpus| == |s.cpus| && |s'.procs| == |s.procs| && |s'.locks| == |s.locks|
    && s'.cpus[d] == s.cpus[d]
    && (0 <= s.cpus[d].run < |s.procs| ==> s'.procs[s.cpus[d].run] == s.procs[s.cpus[d].run])
    && (s.cpus[d].sched.pc.SchedBack? && s.cpus[d].run == NOPROC && s.cpus[d].sched.pc.k < |s.procs| ==>
          s'.procs[s.cpus[d].sched.pc.k].state != RUNNING)
    && (forall l :: l in s.cpus[d].held && l < |s.locks| ==> s'.locks[l] == s.locks[l])
  }

  lemma SameCpu(s: State, d: nat, s': State)
    requires d < |s.cpus| && CpuOk(s, d) && SameFor(s, d, s')
    ensures CpuOk(s', d)
  {
  }

  /** A step of CPU c that stays on its thread and touches at most lock l, if l is one. */
  ghost predicate Inner(s: State, c: nat, l: int, s': State) {
    && c < |s.cpus| == |s'.cpus| && |s'.procs| == |s.procs| && |s'.locks| == |s.locks|
    && (forall d :: 0 <= d < |s.cpus| && d != c ==> s'.cpus[d] == s.cpus[d])
    && (forall k :: 0 <= k < |s.procs| && k != s.cpus[c].run ==> s'.procs[k] == s.procs[k])
    && (forall m :: 0 <= m < |s.locks| && m != l ==> s'.locks[m] == s.locks[m])
    && s'.cpus[c].run == s.cpus[c].run
    && (0 <= l < |s.locks| ==> s.locks[l] in {FREE, c} && s'.locks[l] in {FREE, c})
    && (forall m :: 0 <= m < |s.locks| && m != l ==> (m in s'.cpus[c].held <==> m in s.cpus[c].held))
    && (0 <= s.cpus[c].run < |s.procs| ==>
          var p, p' := s.procs[s.cpus[c].run], s'.procs[s.cpus[c].run];
          p'.on == p.on && (p'.state == p.state || p'.state != RUNNING))
  }

  /** What is left to show for such a step. */
  ghost predicate Lands(s: State, c: nat, l: int, s': State) {
    && Inner(s, c, l, s') && CpuOk(s', c) && (0 <= l < |s.locks| ==> LockOk(s', l))
    && (0 <= s.cpus[c].run < |s.procs| ==> ProcOk(s', s.cpus[c].run))
  }

  lemma InnerCpu(s: State, c: nat, l: int, s': State, d: nat)
    requires Base(s) && Inner(s, c, l, s') && d < |s.cpus| && d != c
    ensures CpuOk(s', d)
  {
    assert CpuOk(s, c) && CpuOk(s, d);
    hide SchedShape, ProcShape, CpuOk;
    assert SameFor(s, d, s') by { InnerSame(s, c, l, s', d); }
    SameCpu(s, d, s');
  }

  lemma InnerSame(s: State, c: nat, l: int, s': State, d: nat)
    requires Base(s) && Inner(s, c, l, s') && d < |s.cpus| && d != c
    ensures SameFor(s, d, s')
  {
    hide ProcOk, LockOk;
    assert CpuOk(s, c) && CpuOk(s, d);
  }

  lemma InnerBase(s: State, c: nat, l: int, s': State)
    requires Base(s) && Lands(s, c, l, s')
    ensures Base(s')
  {
    hide CpuOk;
    forall d {:trigger CpuOk(s', d)} | 0 <= d < |s'.cpus| ensures CpuOk(s', d) {
      if d != c { InnerCpu(s, c, l, s', d); }
    }
    forall k {:trigger ProcOk(s', k)} | 0 <= k < |s'.procs| ensures ProcOk(s', k) {
      assert ProcOk(s, k);
    }
    forall m {:trigger LockOk(s', m)} | 0 <= m < |s'.locks| ensures LockOk(s', m) {
      assert LockOk(s, m);
    }
  }

  // ----- Locks -----

  /** The shape that the thread of CPU c needs at program counter pc. */
  ghost predicate Fits(s: State, c: nat, pc: Pc, held: set<nat>)
    requires c < |s.cpus|
  {
    var cpu := s.cpus[c];
    if 0 <= cpu.run < |s.procs| then ProcShape(pc, cpu.run, held, s.procs[cpu.run].state)
    else SchedShape(s, cpu.(held := held, sched := cpu.sched.(pc := pc)))
  }

  lemma PushLands(s: State, c: nat, l: nat, next: Pc, s': State)
    requires Base(s) && c < |s.cpus| && Cur(s, c).pc.Free? && l < |s.locks| && s' == PushOff(s, c, l, next)
    requires Fits(s, c, Take(l, next), s.cpus[c].held)
    ensures Lands(s, c, NOLOCK, s')
  {
    hide ProcShape;
    assert CpuOk(s, c);
    assert 0 <= s.cpus[c].run < |s.procs| ==> ProcOk(s, s.cpus[c].run);
  }

  lemma TakeLands(s: State, c: nat, s': State)
    requires Base(s) && c < |s.cpus| && Cur(s, c).pc.Take? && GoEnabled(s, c) && s' == GoNext(s, c)
    ensures Lands(s, c, Cur(s, c).pc.l, s')
  {
    assert CpuOk(s, c);
    assert 0 <= s.cpus[c].run < |s.procs| ==> ProcOk(s, s.cpus[c].run);
  }

  lemma PopLands(s: State, c: nat, s': State)
    requires Base(s) && c < |s.cpus| && Cur(s, c).pc.Pop? && GoEnabled(s, c) && s' == GoNext(s, c)
    ensures Lands(s, c, NOLOCK, s')
  {
    assert CpuOk(s, c);
    assert 0 <= s.cpus[c].run < |s.procs| ==> ProcOk(s, s.cpus[c].run);
  }

  lemma ClearLands(s: State, c: nat, l: nat, next: Pc, s': State)
    requires Base(s) && c < |s.cpus| && Pushed(Cur(s, c).pc) == 0 && l in s.cpus[c].held && l < |s.locks|
    requires Cur(s, c).pc.Resumed? ==> s.cpus[c].intena == Cur(s, c).was
    requires s' == Clear(s, c, l, next)
    requires Fits(s, c, Pop(next), s.cpus[c].held - {l})
    ensures Lands(s, c, l, s')
  {
    hide ProcShape;
    assert CpuOk(s, c);
    assert 0 <= s.cpus[c].run < |s.procs| ==> ProcOk(s, s.cpus[c].run);
    assert |s'.cpus[c].held| == |s.cpus[c].held| - 1;
  }

  // ----- Calls that start -----

  lemma AcquireKeeps(s: State, c: nat, l: nat, s': State)
    requires Base(s) && Enabled(s, Acquire(c, l)) && s' == Next(s, Acquire(c, l))
    ensures Base(s')
  {
    var t := Cur(s, c);
    var owes := if t.trap then t.owes else NOLOCK;
    var s1 := WithCur(s, c, t.(owes := owes));
    OweKeeps(s, c, owes, s1);
    assert CpuOk(s1, c);
    hide Base, CpuOk, ProcOk, LockOk, Inner;
    PushLands(s1, c, l, Free, s');
    InnerBase(s1, c, NOLOCK, s');
  }

  lemma SleepKeeps(s: State, c: nat, lk: nat, s': State)
    requires Base(s) && Enabled(s, Sleep(c, lk)) && s' == Next(s, Sleep(c, lk))
    ensures Base(s')
  {
    assert CpuOk(s, c) && ProcOk(s, s.cpus[c].run);
    hide LockOk, PushOff;
    if lk != s.cpus[c].run {
      PushLands(s, c, s.cpus[c].run, SleepRel(lk), s');
    }
    InnerBase(s, c, NOLOCK, s');
  }

  lemma YieldKeeps(s: State, c: nat, s': State)
    requires Base(s) && Enabled(s, Yield(c)) && s' == Next(s, Yield(c))
    ensures Base(s')
  {
    assert CpuOk(s, c);
    hide LockOk, PushOff, ProcOk, Inner;
    PushLands(s, c, s.cpus[c].run, SetState(RUNNABLE, Release), s');
    InnerBase(s, c, NOLOCK, s');
  }

  lemma LookKeeps(s: State, c: nat, k: nat, s': State)
    requires Base(s) && Enabled(s, Look(c, k)) && s' == Next(s, Look(c, k))
    ensures Base(s')
  {
    assert CpuOk(s, c);
    hide LockOk, PushOff, ProcOk, Inner;
    PushLands(s, c, k, SchedGot(k), s');
    InnerBase(s, c, NOLOCK, s');
  }

  lemma ExitKeeps(s: State, c: nat, l: nat, s': State)
    requires Base(s) && Enabled(s, Exit(c, l)) && s' == Next(s, Exit(c, l))
    ensures Base(s')
  {
    assert CpuOk(s, c) && ProcOk(s, s.cpus[c].run);
    assert s'.cpus[c].held == {s.cpus[c].run as nat};
    assert |s'.cpus[c].held| == |s.cpus[c].held| - 1;
    InnerBase(s, c, l, s');
  }

  lemma UnlockKeeps(s: State, c: nat, l: nat, s': State)
    requires Base(s) && Enabled(s, Unlock(c, l)) && s' == Next(s, Unlock(c, l))
    ensures Base(s')
  {
    assert CpuOk(s, c);
    hide LockOk, Clear, ProcOk, Inner;
    ClearLands(s, c, l, Free, s');
    InnerBase(s, c, l, s');
  }

  lemma TrapKeeps(s: State, a: Action, s': State)
    requires Base(s) && Enabled(s, a) && s' == Next(s, a)
    requires a.Trap? || a.TrapReturn? || a.IntrOn? || a.IntrOff?
    ensures Base(s')
  {
    assert CpuOk(s, a.c);
    assert 0 <= s.cpus[a.c].run < |s.procs| ==> ProcOk(s, s.cpus[a.c].run);
    hide LockOk, ProcShape;
    InnerBase(s, a.c, NOLOCK, s');
  }

  // ----- Calls that go on -----

  lemma StateLands(s: State, c: nat, s': State)
    requires Base(s) && c < |s.cpus| && Cur(s, c).pc.SetState? && GoEnabled(s, c) && s' == GoNext(s, c)
    ensures Lands(s, c, NOLOCK, s')
  {
    assert CpuOk(s, c) && ProcOk(s, s.cpus[c].run);
  }

  lemma SleepRelLands(s: State, c: nat, s': State)
    requires Base(s) && c < |s.cpus| && Cur(s, c).pc.SleepRel? && GoEnabled(s, c) && s' == GoNext(s, c)
    ensures Lands(s, c, Cur(s, c).pc.lk, s')
  {
    assert CpuOk(s, c);
    hide Clear, Lands;
    var lk := Cur(s, c).pc.lk;
    assert s.cpus[c].held - {lk} == {s.cpus[c].run as nat};
    ClearLands(s, c, lk, SetState(SLEEPING, Reacquire(lk)), s');
  }

  lemma ForkretLands(s: State, c: nat, s': State)
    requires Base(s) && c < |s.cpus| && Cur(s, c).pc.Forkret? && GoEnabled(s, c) && s' == GoNext(s, c)
    ensures Lands(s, c, s.cpus[c].run, s')
  {
    assert CpuOk(s, c);
    hide Clear, Lands;
    ClearLands(s, c, s.cpus[c].run, Free, s');
  }

  /** sched's last line: the thread's own interrupt flag is back. */
  lemma RestoreKeeps(s: State, c: nat, s': State)
    requires Base(s) && c < |s.cpus| && Cur(s, c).pc.Resumed? && 0 <= s.cpus[c].run < |s.procs|
    requires s' == WithCpu(s, c, s.cpus[c].(intena := s.procs[s.cpus[c].run].saved))
    ensures Base(s') && s'.cpus[c].intena == Cur(s', c).was && Cur(s', c) == Cur(s, c)
  {
    hide LockOk, ProcShape;
    assert CpuOk(s, c) && ProcOk(s, s.cpus[c].run);
    InnerBase(s, c, NOLOCK, s');
  }

  lemma OweKeeps(s: State, c: nat, owes: int, s': State)
    requires Base(s) && c < |s.cpus| && s' == WithCur(s, c, Cur(s, c).(owes := owes))
    ensures Base(s') && Cur(s', c) == Cur(s, c).(owes := owes) && s'.cpus[c].run == s.cpus[c].run
    ensures s'.cpus[c].intena == s.cpus[c].intena
  {
    hide LockOk, ProcShape;
    assert CpuOk(s, c);
    assert 0 <= s.cpus[c].run < |s.procs| ==> ProcOk(s, s.cpus[c].run);
    InnerBase(s, c, NOLOCK, s');
  }

  /** Releasing the process's own lock after sched, as yield and sleep do. */
  lemma ResumeClear(s: State, c: nat, s': State)
    requires Base(s) && c < |s.cpus| && Cur(s, c).pc.Resumed? && 0 <= s.cpus[c].run < |s.procs|
    requires s.cpus[c].intena == Cur(s, c).was && s' == Clear(s, c, s.cpus[c].run, Free)
    ensures Base(s')
  {
    assert CpuOk(s, c);
    hide Clear, Lands;
    ClearLands(s, c, s.cpus[c].run, Free, s');
    InnerBase(s, c, s.cpus[c].run, s');
  }

  lemma ResumeKeeps(s: State, c: nat, s': State)
    requires Base(s) && c < |s.cpus| && Cur(s, c).pc.Resumed? && GoEnabled(s, c) && s' == GoNext(s, c)
    ensures Base(s')
  {
    var r := s.cpus[c].run;
    var cont := Cur(s, c).pc.cont;
    var s1 := WithCpu(s, c, s.cpus[c].(intena := s.procs[r].saved));
    RestoreKeeps(s, c, s1);
    if cont.Release? {
      hide Base, Clear;
      ResumeClear(s1, c, s');
    } else if cont.Reacquire? {
      hide Base, Clear;
      var s2 := WithCur(s1, c, Cur(s1, c).(owes := cont.lk));
      OweKeeps(s1, c, cont.lk, s2);
      ResumeClear(s2, c, s');
    } else {
      KeepKeeps(s1, c, s');
    }
  }

  lemma KeepKeeps(s: State, c: nat, s': State)
    requires Base(s) && c < |s.cpus| && Cur(s, c).pc.Resumed? && 0 <= s.cpus[c].run < |s.procs|
    requires s.cpus[c].intena == Cur(s, c).was
    requires s' == if Cur(s, c).pc.cont.Keep? then GoTo(s, c, Free) else s
    ensures Base(s')
  {
    hide LockOk;
    assert CpuOk(s, c) && ProcOk(s, s.cpus[c].run);
    InnerBase(s, c, NOLOCK, s');
  }

  lemma BackLands(s: State, c: nat, s': State)
    requires Base(s) && c < |s.cpus| && Cur(s, c).pc.SchedBack? && GoEnabled(s, c) && s' == GoNext(s, c)
    ensures Lands(s, c, Cur(s, c).pc.k, s')
  {
    assert CpuOk(s, c);
    assert |s.cpus[c].held - {Cur(s, c).pc.k}| == |s.cpus[c].held| - 1;
  }

  lemma PassLands(s: State, c: nat, s': State)
    requires Base(s) && c < |s.cpus| && Cur(s, c).pc.SchedGot? && GoEnabled(s, c) && s' == GoNext(s, c)
    requires s.procs[Cur(s, c).pc.k].state != RUNNABLE
    ensures Lands(s, c, Cur(s, c).pc.k, s')
  {
    assert CpuOk(s, c);
    hide Clear, Lands;
    ClearLands(s, c, Cur(s, c).pc.k, Free, s');
  }

  // ----- swtch -----

  /** CPU c changes its thread, from or to process k, whose lock it holds. */
  ghost predicate Switches(s: State, c: nat, k: nat, s': State) {
    && c < |s.cpus| == |s'.cpus| && k < |s.procs| == |s'.procs| && s'.locks == s.locks
    && (forall d :: 0 <= d < |s.cpus| && d != c ==> s'.cpus[d] == s.cpus[d])
    && (forall j :: 0 <= j < |s.procs| && j != k ==> s'.procs[j] == s.procs[j])
    && s.cpus[c].held == s'.cpus[c].held && k in s.cpus[c].held
    && {s.cpus[c].run, s'.cpus[c].run} == {NOPROC, k}
  }

  lemma SwitchSame(s: State, c: nat, k: nat, s': State, d: nat)
    requires Base(s) && Switches(s, c, k, s') && s.procs[k].on in {NOPROC, c} && d < |s.cpus| && d != c
    ensures SameFor(s, d, s')
  {
    hide ProcOk, LockOk;
    assert CpuOk(s, c) && CpuOk(s, d);
  }

  lemma SwitchBase(s: State, c: nat, k: nat, s': State)
    requires Base(s) && Switches(s, c, k, s') && s.procs[k].on in {NOPROC, c} && CpuOk(s', c) && ProcOk(s', k)
    ensures Base(s')
  {
    assert CpuOk(s, c);
    hide CpuOk;
    forall d {:trigger CpuOk(s', d)} | 0 <= d < |s'.cpus| ensures CpuOk(s', d) {
      if d != c {
        assert CpuOk(s, d);
        SwitchSame(s, c, k, s', d);
        SameCpu(s, d, s');
      }
    }
    forall j {:trigger ProcOk(s', j)} | 0 <= j < |s'.procs| ensures ProcOk(s', j) {
      assert ProcOk(s, j);
    }
    forall m {:trigger LockOk(s', m)} | 0 <= m < |s'.locks| ensures LockOk(s', m) {
      assert LockOk(s, m);
    }
  }

  /** A runnable process whose lock the scheduler holds is on no CPU. */
  lemma Parked(s: State, c: nat, k: nat)
    requires Base(s) && c < |s.cpus| && k < |s.procs| && k in s.cpus[c].held && s.cpus[c].run != k
    requires s.procs[k].state != RUNNING
    ensures s.procs[k].on == NOPROC
  {
    assert CpuOk(s, c) && ProcOk(s, k);
    assert s.procs[k].on == NOPROC || CpuOk(s, s.procs[k].on);
  }

  lemma SwitchToKeeps(s: State, c: nat, s': State)
    requires Base(s) && c < |s.cpus| && Cur(s, c).pc.SchedGot? && GoEnabled(s, c) && s' == GoNext(s, c)
    requires s.procs[Cur(s, c).pc.k].state == RUNNABLE
    ensures Base(s')
  {
    var k := Cur(s, c).pc.k;
    assert CpuOk(s, c) && ProcOk(s, k);
    Parked(s, c, k);
    hide Base, LockOk;
    SwitchBase(s, c, k, s');
  }

  lemma SwitchBackKeeps(s: State, c: nat, s': State)
    requires Base(s) && c < |s.cpus| && Cur(s, c).pc.Ready? && GoEnabled(s, c) && s' == GoNext(s, c)
    ensures Base(s')
  {
    var k := s.cpus[c].run;
    assert CpuOk(s, c) && ProcOk(s, k);
    hide Base, LockOk;
    SwitchBase(s, c, k, s');
  }

  // ----- Other processes' states -----

  lemma StateKeeps(s: State, a: Action, s': State)
    requires Base(s) && Enabled(s, a) && s' == Next(s, a) && (a.Wake? || a.Create? || a.Reap?)
    ensures Base(s')
  {
    assert CpuOk(s, a.c) && ProcOk(s, a.k);
    assert s.cpus[a.c].run != a.k;
    Parked(s, a.c, a.k);
    forall d {:trigger CpuOk(s', d)} | 0 <= d < |s'.cpus| ensures CpuOk(s', d) {
      assert CpuOk(s, d);
      hide CpuOk;
      SameCpu(s, d, s');
    }
    forall j {:trigger ProcOk(s', j)} | 0 <= j < |s'.procs| ensures ProcOk(s', j) {
      assert ProcOk(s, j);
    }
    forall m {:trigger LockOk(s', m)} | 0 <= m < |s'.locks| ensures LockOk(s', m) {
      assert LockOk(s, m);
    }
  }

  // ----- Every step -----

  lemma GoKeeps(s: State, c: nat, s': State)
    requires Base(s) && Enabled(s, Go(c)) && s' == GoNext(s, c)
    ensures Base(s')
  {
    assert CpuOk(s, c);
    hide Base, CpuOk, Lands, GoNext;
    match Cur(s, c).pc
    case Take(l, _) => TakeLands(s, c, s'); InnerBase(s, c, l, s');
    case Pop(_) => PopLands(s, c, s'); InnerBase(s, c, NOLOCK, s');
    case SleepRel(lk) => SleepRelLands(s, c, s'); InnerBase(s, c, lk, s');
    case SetState(_, _) => StateLands(s, c, s'); InnerBase(s, c, NOLOCK, s');
    case Ready(_) => SwitchBackKeeps(s, c, s');
    case Resumed(_) => ResumeKeeps(s, c, s');
    case Forkret => ForkretLands(s, c, s'); InnerBase(s, c, s.cpus[c].run, s');
    case SchedGot(k) =>
      if s.procs[k].state == RUNNABLE {
        SwitchToKeeps(s, c, s');
      } else {
        PassLands(s, c, s');
        InnerBase(s, c, k, s');
      }
    case SchedBack(k) => BackLands(s, c, s'); InnerBase(s, c, k, s');
  }

  lemma BaseKept(s: State, a: Action, s': State)
    requires Base(s) && Enabled(s, a) && s' == Next(s, a)
    ensures Base(s')
  {
    hide Base, GoNext;
    match a
    case Acquire(c, l) => AcquireKeeps(s, c, l, s');
    case Unlock(c, l) => UnlockKeeps(s, c, l, s');
    case Sleep(c, lk) => SleepKeeps(s, c, lk, s');
    case Yield(c) => YieldKeeps(s, c, s');
    case Exit(c, l) => ExitKeeps(s, c, l, s');
    case Look(c, k) => LookKeeps(s, c, k, s');
    case Go(c) => GoKeeps(s, c, s');
    case Wake(_, _) => StateKeeps(s, a, s');
    case Create(_, _) => StateKeeps(s, a, s');
    case Reap(_, _) => StateKeeps(s, a, s');
    case _ => TrapKeeps(s, a, s');
  }

  lemma InitOk(s: State)
    requires Init(s)
    ensures Base(s)
  {
  }

  lemma {:induction false} Always(ss: seq<State>, acts: seq<Action>, x: nat)
    requires IsRun(ss, acts) && x < |ss|
    ensures Base(ss[x])
  {
    hide Base, Init, Enabled, Next;
    if x == 0 {
      InitOk(ss[0]);
    } else {
      Always(ss, acts, x - 1);
      BaseKept(ss[x - 1], acts[x - 1], ss[x]);
    }
  }

  // ----- Theorems -----

  /** At most one CPU executes on a process's kernel stack. */
  lemma OneStack(ss: seq<State>, acts: seq<Action>, x: nat, c: nat, d: nat)
    requires IsRun(ss, acts) && x < |ss| && c < |ss[x].cpus| && d < |ss[x].cpus|
    requires ss[x].cpus[c].run == ss[x].cpus[d].run != NOPROC
    ensures c == d
  {
    hide IsRun;
    Always(ss, acts, x);
    assert CpuOk(ss[x], c) && CpuOk(ss[x], d);
  }

  /** c->proc is process k. */
  ghost predicate Current(s: State, c: nat, k: nat)
    requires c < |s.cpus|
  {
    s.cpus[c].proc == k
  }

  /** A process whose lock is free is RUNNING exactly when it is c->proc of a CPU, which then
      executes it; and there is one such CPU. */
  lemma UnlockedRunning(ss: seq<State>, acts: seq<Action>, x: nat, k: nat)
    requires IsRun(ss, acts) && x < |ss| && k < |ss[x].procs|
    ensures k < |ss[x].locks|
    ensures ss[x].locks[k] == FREE ==>
              (ss[x].procs[k].state == RUNNING <==> exists c :: 0 <= c < |ss[x].cpus| && Current(ss[x], c, k))
    ensures ss[x].locks[k] == FREE ==>
              forall c, d :: 0 <= c < |ss[x].cpus| && 0 <= d < |ss[x].cpus| && Current(ss[x], c, k) ==>
                ss[x].cpus[c].run == k && (Current(ss[x], d, k) ==> c == d)
  {
    hide IsRun;
    Always(ss, acts, x);
    var s := ss[x];
    assert ProcOk(s, k);
    if s.locks[k] == FREE {
      forall c | 0 <= c < |s.cpus| && Current(s, c, k)
        ensures s.cpus[c].run == k && s.procs[k].on == c && s.procs[k].state == RUNNING
      {
        assert CpuOk(s, c);
      }
      if s.procs[k].state == RUNNING {
        assert CpuOk(s, s.procs[k].on);
        assert Current(s, s.procs[k].on, k);
      }
    }
  }

  /** The checks that would panic: in sched, in acquire, release and pop_off, and the return of
      sched in exit. */
  ghost predicate NoPanic(s: State, c: nat)
    requires c < |s.cpus|
  {
    var cpu := s.cpus[c];
    match Cur(s, c).pc
    case Ready(_) =>
      && 0 <= cpu.run < |s.procs| <= |s.locks|
      && s.locks[cpu.run] == c && cpu.noff == 1 && s.procs[cpu.run].state != RUNNING && !cpu.intr
    case Take(l, _) => l < |s.locks| ==> s.locks[l] != c
    case Pop(_) => cpu.noff >= 1 && !cpu.intr
    case SleepRel(lk) => lk < |s.locks| && s.locks[lk] == c
    case Resumed(cont) => 0 <= cpu.run < |s.procs| <= |s.locks| && s.locks[cpu.run] == c && !cont.Never?
    case Forkret => 0 <= cpu.run < |s.procs| <= |s.locks| && s.locks[cpu.run] == c
    case SchedGot(k) => k < |s.procs| <= |s.locks| && s.locks[k] == c
    case SchedBack(k) => k < |s.procs| <= |s.locks| && s.locks[k] == c
    case _ => true
  }

  lemma NeverPanics(ss: seq<State>, acts: seq<Action>, x: nat, c: nat)
    requires IsRun(ss, acts) && x < |ss| && c < |ss[x].cpus|
    ensures NoPanic(ss[x], c)
  {
    hide IsRun;
    Always(ss, acts, x);
    assert CpuOk(ss[x], c);
    var pc := Cur(ss[x], c).pc;
    assert pc.Take? && pc.l < |ss[x].locks| ==> LockOk(ss[x], pc.l);
  }

  /** noff counts the locks held, and while it is positive interrupts are off. So an interrupt in
      the kernel finds no lock held, and a timer interrupt either a scheduler without a process or
      a RUNNING process: the conditions under which kerneltrap calls yield always hold there. */
  lemma Interruptible(ss: seq<State>, acts: seq<Action>, x: nat, c: nat)
    requires IsRun(ss, acts) && x < |ss| && c < |ss[x].cpus|
    ensures var cpu := ss[x].cpus[c];
            && (cpu.noff > 0 ==> !cpu.intr)
            && (Cur(ss[x], c).pc.Free? ==> cpu.noff == |cpu.held|)
            && (cpu.intr ==> cpu.held == {} && Cur(ss[x], c).pc.Free? && !Cur(ss[x], c).trap)
            && (cpu.intr ==> if cpu.run == NOPROC then cpu.proc == NOPROC else
                  0 <= cpu.run < |ss[x].procs| && cpu.proc == cpu.run && ss[x].procs[cpu.run].state == RUNNING)
  {
    hide IsRun;
    Always(ss, acts, x);
    assert CpuOk(ss[x], c);
  }

  /** Giving up the last lock puts interrupts back to what they were when the process took its
      first one, even when it has moved to another CPU in between. (The scheduler instead goes on
      with the flag of the process that switched to it, until its next intr_on.) */
  lemma FlagRestored(ss: seq<State>, acts: seq<Action>, x: nat, c: nat)
    requires IsRun(ss, acts) && x < |acts| && acts[x] == Go(c)
    requires c < |ss[x].cpus| && Cur(ss[x], c).pc.Pop? && ss[x].cpus[c].noff == 1
    ensures c < |ss[x + 1].cpus| && ss[x + 1].cpus[c].intr == Cur(ss[x], c).was
  {
    Always(ss, acts, x);
    hide Base, Init;
    assert CpuOk(ss[x], c) by { BaseCpu(ss[x], c); }
  }

  lemma BaseCpu(s: State, c: nat)
    requires Base(s) && c < |s.cpus|
    ensures CpuOk(s, c)
  {
  }
}
