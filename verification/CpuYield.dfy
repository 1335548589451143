/** A process that gives up the CPU by yield stays ready to run until a scheduler takes it; one that
    gives it up by sleep sleeps until it is woken. */
module CpuYield {
  import opened CpuHandoff
  import opened CpuProof

  /** Inside yield: on a CPU on the way to sched or back from it, or parked and RUNNABLE. */
  ghost predicate Yielding(s: State, k: nat) {
    && k < |s.procs|
    && var p := s.procs[k];
    if p.on == NOPROC then p.thread.pc == Resumed(Release) && p.state == RUNNABLE
    else if p.thread.pc == Ready(Release) then p.state == RUNNABLE
    else
      && p.thread.pc in {Take(k, SetState(RUNNABLE, Release)), SetState(RUNNABLE, Release), Resumed(Release), Pop(Free)}
      && p.state == RUNNING
  }

  /** What CPU c's next step does to the process that it runs. */
  lemma OwnStep(s: State, c: nat, s': State, k: nat)
    requires Base(s) && Enabled(s, Go(c)) && s' == GoNext(s, c) && Yielding(s, k) && s.cpus[c].run == k
    ensures k < |s'.procs| && (s'.procs[k].thread.pc == Free || Yielding(s', k))
  {
    assert CpuOk(s, c) && ProcOk(s, k);
    hide Base, CpuOk, ProcOk, ProcShape, SchedShape;
  }

  /** Another thread's call touches a process only when the scheduler takes it. */
  lemma GoOther(s: State, c: nat, s': State, k: nat)
    requires c < |s.cpus| && GoEnabled(s, c) && s' == GoNext(s, c) && k < |s.procs| && s.cpus[c].run != k
    ensures |s'.procs| == |s.procs| && (s'.procs[k] == s.procs[k] || s.procs[k].state == RUNNABLE)
    ensures s'.procs[k] == s.procs[k] || s'.procs[k] == s.procs[k].(state := RUNNING, on := c,
              thread := s.procs[k].thread.(was := s'.procs[k].thread.was))
  {
    if Cur(s, c).pc.Resumed? {
      ResumeOther(s, c, s.cpus[c].run, Cur(s, c).pc.cont, s', k);
    } else {
      hide Resume;
    }
  }

  lemma ResumeOther(s: State, c: nat, r: nat, cont: Cont, s': State, k: nat)
    requires c < |s.cpus| && r < |s.procs| && r < |s.locks| && s.cpus[c].run == r != k && k < |s.procs|
    requires s' == Resume(s, c, r, cont)
    ensures |s'.procs| == |s.procs| && s'.procs[k] == s.procs[k]
  {
  }

  /** So does any other action, unless it wakes, creates or frees the process. */
  lemma ActOther(s: State, a: Action, s': State, k: nat)
    requires Enabled(s, a) && s' == Next(s, a) && k < |s.procs| && s.cpus[a.c].run != k && !a.Go?
    ensures |s'.procs| == |s.procs|
    ensures s'.procs[k] == s.procs[k] || s.procs[k].state in {UNUSED, ZOMBIE}
            || (a == Wake(a.c, k) && s.procs[k].state == SLEEPING)
  {
    hide GoNext;
  }

  /** The step of another thread, unless it is the scheduler's that takes the process. */
  lemma OtherStep(s: State, a: Action, s': State, k: nat)
    requires Enabled(s, a) && s' == Next(s, a) && k < |s.procs| && s.cpus[a.c].run != k
    requires s.procs[k].state == RUNNABLE || s.procs[k].state == RUNNING
    ensures |s'.procs| == |s.procs|
    ensures s'.procs[k] == s.procs[k]
            || (a.Go? && s.procs[k].state == RUNNABLE && s'.procs[k] == s.procs[k].(state := RUNNING, on := a.c,
                  thread := s.procs[k].thread.(was := s'.procs[k].thread.was)))
  {
    hide GoNext;
    if a.Go? { GoOther(s, a.c, s', k); } else { ActOther(s, a, s', k); }
  }

  /** The scheduler takes only a parked process. */
  lemma TakesParked(s: State, c: nat, s': State, k: nat)
    requires Base(s) && Enabled(s, Go(c)) && s' == GoNext(s, c) && k < |s.procs| == |s'.procs| && s.cpus[c].run != k
    requires s.procs[k].state == RUNNABLE && s'.procs[k].state == RUNNING
    ensures s.procs[k].on == NOPROC
  {
    assert CpuOk(s, c);
    assert Cur(s, c).pc == SchedGot(k) && k in s.cpus[c].held by { hide Base, CpuOk, ProcShape; TakesGot(s, c, s', k); }
    Parked(s, c, k);
  }

  lemma TakesGot(s: State, c: nat, s': State, k: nat)
    requires c < |s.cpus| && CpuOk(s, c) && GoEnabled(s, c) && s' == GoNext(s, c) && k < |s.procs| == |s'.procs|
    requires s.cpus[c].run != k && s.procs[k].state == RUNNABLE && s'.procs[k].state == RUNNING
    ensures Cur(s, c).pc == SchedGot(k) && k in s.cpus[c].held
  {
  }

  lemma YieldStep(s: State, a: Action, s': State, k: nat)
    requires Base(s) && Enabled(s, a) && s' == Next(s, a) && Yielding(s, k)
    ensures k < |s'.procs| && (s'.procs[k].thread.pc == Free || Yielding(s', k))
  {
    if s.cpus[a.c].run == k {
      assert a.Go? by { hide Base; }
      hide GoNext, Base;
      OwnStep(s, a.c, s', k);
    } else {
      hide GoNext, Base;
      OtherStep(s, a, s', k);
      if s'.procs[k] != s.procs[k] {
        TakesParked(s, a.c, s', k);
      }
    }
  }

  lemma YieldStarts(s: State, c: nat, s': State)
    requires Base(s) && Enabled(s, Yield(c)) && s' == Next(s, Yield(c))
    ensures s.cpus[c].run >= 0 && Yielding(s', s.cpus[c].run)
  {
    assert CpuOk(s, c) && ProcOk(s, s.cpus[c].run);
  }

  /** A process calls yield at step w and has not returned from it in state x: it is RUNNING or
      RUNNABLE, and whenever no CPU executes it, it is RUNNABLE. */
  lemma {:induction false} YieldedIsReady(ss: seq<State>, acts: seq<Action>, w: nat, x: nat, c: nat, k: nat)
    requires IsRun(ss, acts) && w < x < |ss| && acts[w] == Yield(c) && c < |ss[w].cpus| && ss[w].cpus[c].run == k
    requires forall y :: w < y <= x ==> k < |ss[y].procs| && ss[y].procs[k].thread.pc != Free
    ensures Yielding(ss[x], k)
    ensures ss[x].procs[k].state in {RUNNABLE, RUNNING}
    ensures ss[x].procs[k].on == NOPROC ==> ss[x].procs[k].state == RUNNABLE
    decreases x
  {
    hide Init, Enabled, Next, Base;
    Always(ss, acts, x - 1);
    assert Enabled(ss[x - 1], acts[x - 1]) && ss[(x - 1) + 1] == Next(ss[x - 1], acts[x - 1]);
    if x == w + 1 {
      YieldStarts(ss[w], c, ss[x]);
    } else {
      YieldedIsReady(ss, acts, w, x - 1, c, k);
      YieldStep(ss[x - 1], acts[x - 1], ss[x], k);
    }
  }

  // ----- sleep -----

  /** Inside sleep, before anyone has woken the process: on a CPU on the way to sched, or parked
      and SLEEPING. */
  ghost predicate Dozing(s: State, k: nat, lk: nat) {
    && k < |s.procs|
    && var p := s.procs[k]; var cont := if lk == k then Keep else Reacquire(lk);
    if p.on == NOPROC then p.thread.pc == Resumed(cont) && p.state == SLEEPING
    else if p.thread.pc == Ready(cont) then p.state == SLEEPING
    else
      && p.thread.pc in {Take(k, SleepRel(lk)), SleepRel(lk), Pop(SetState(SLEEPING, cont)), SetState(SLEEPING, cont)}
      && p.state == RUNNING
  }

  lemma DozeOwn(s: State, c: nat, s': State, k: nat, lk: nat)
    requires Base(s) && Enabled(s, Go(c)) && s' == GoNext(s, c) && Dozing(s, k, lk) && s.cpus[c].run == k
    ensures Dozing(s', k, lk)
  {
    assert CpuOk(s, c) && ProcOk(s, k);
    assert !s.procs[k].thread.pc.Resumed? && s.procs[k].on == c;
    hide Base, CpuOk, ProcOk, SchedShape, ProcShape;
  }

  lemma DozeOther(s: State, a: Action, s': State, k: nat)
    requires Enabled(s, a) && s' == Next(s, a) && k < |s.procs| && s.cpus[a.c].run != k
    requires s.procs[k].state == SLEEPING || s.procs[k].state == RUNNING
    ensures |s'.procs| == |s.procs| && (s'.procs[k] == s.procs[k] || a == Wake(a.c, k))
  {
    hide GoNext;
    if a.Go? { GoOther(s, a.c, s', k); } else { ActOther(s, a, s', k); }
  }

  lemma DozeStep(s: State, a: Action, s': State, k: nat, lk: nat)
    requires Base(s) && Enabled(s, a) && s' == Next(s, a) && Dozing(s, k, lk) && a != Wake(a.c, k)
    ensures Dozing(s', k, lk)
  {
    if s.cpus[a.c].run == k {
      DozeGoes(s, a, k, lk);
      hide GoNext, Base, Dozing;
      DozeOwn(s, a.c, s', k, lk);
    } else {
      hide GoNext, Base;
      DozeOther(s, a, s', k);
    }
  }

  lemma DozeGoes(s: State, a: Action, k: nat, lk: nat)
    requires Base(s) && Enabled(s, a) && Dozing(s, k, lk) && s.cpus[a.c].run == k
    ensures a.Go?
  {
    assert CpuOk(s, a.c) && ProcOk(s, k);
    hide Base;
  }

  lemma DozeStarts(s: State, c: nat, lk: nat, s': State)
    requires Base(s) && Enabled(s, Sleep(c, lk)) && s' == Next(s, Sleep(c, lk))
    ensures s.cpus[c].run >= 0 && Dozing(s', s.cpus[c].run, lk)
  {
    assert CpuOk(s, c) && ProcOk(s, s.cpus[c].run);
  }

  /** A process calls sleep at step w, and nobody has woken it by state x: it has not returned, and
      whenever no CPU executes it, it is SLEEPING, so that no scheduler takes it. */
  lemma {:induction false} SleepsUntilWoken(ss: seq<State>, acts: seq<Action>, w: nat, x: nat, c: nat, lk: nat, k: nat)
    requires IsRun(ss, acts) && w < x < |ss| && acts[w] == Sleep(c, lk) && c < |ss[w].cpus| && ss[w].cpus[c].run == k
    requires forall y :: w < y < x ==> acts[y] != Wake(acts[y].c, k)
    ensures Dozing(ss[x], k, lk) && ss[x].procs[k].thread.pc != Free
    ensures ss[x].procs[k].on == NOPROC ==> ss[x].procs[k].state == SLEEPING
    decreases x
  {
    hide Init, Enabled, Next, Base;
    Always(ss, acts, x - 1);
    assert Enabled(ss[x - 1], acts[x - 1]) && ss[(x - 1) + 1] == Next(ss[x - 1], acts[x - 1]);
    if x == w + 1 {
      DozeStarts(ss[w], c, lk, ss[x]);
    } else {
      SleepsUntilWoken(ss, acts, w, x - 1, c, lk, k);
      DozeStep(ss[x - 1], acts[x - 1], ss[x], k, lk);
    }
  }
}
