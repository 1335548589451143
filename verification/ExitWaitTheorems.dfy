/** What holds in every state of every run of exit and wait. */
module ExitWaitTheorems {
  import opened ExitWait
  import opened ExitWaitProof

  // ----- Where scans stopped -----

  /** What PointInv looks at is as it was. */
  ghost predicate PointsSame(s: State, s': State) {
    && |s'.procs| == |s.procs|
    && forall c :: 0 <= c < |s.procs| ==> SamePoint(s.procs[c], s'.procs[c])
  }

  predicate Asleep(p: Proc) { InWait(p.pc) && p.st == SLEEPING }

  predicate SamePoint(p: Proc, p': Proc) {
    && p'.parent == p.parent && (Asleep(p') ==> Asleep(p))
    && (p'.pc.XGive? || p'.pc.WTake? || p'.pc.XZombie? ==> p'.pc == p.pc)
  }

  lemma PointsKept(s: State, s': State)
    requires PointInv(s) && PointsSame(s, s')
    ensures PointInv(s')
  {
    forall i | 0 <= i < |s'.procs|
      ensures PointOk(s', i)
    {
      assert PointOk(s, i) && SamePoint(s.procs[i], s'.procs[i]);
    }
  }

  lemma GivePoints(s: State, i: nat, s': State)
    requires PointInv(s) && StateInv(s) && StepReady(s, i) && Giving(s.procs[i].pc) && s' == GiveStep(s, i)
    ensures PointInv(s')
  {
    assert PointOk(s, i) && StateOk(s.procs[i]);
    forall j | 0 <= j < |s'.procs|
      ensures PointOk(s', j)
    {
      assert PointOk(s, j);
    }
  }

  lemma LeavePoints(s: State, i: nat, s': State)
    requires PointInv(s) && LockInv(s) && StateInv(s) && StepReady(s, i) && Leaving(s.procs[i].pc)
    requires s' == LeaveStep(s, i)
    ensures PointInv(s')
  {
    if s.procs[i].pc.XWake? {
      assert HolderOk(s, i) && StateOk(s.procs[i]);
      forall j | 0 <= j < |s'.procs|
        ensures PointOk(s', j)
      {
        assert PointOk(s, j);
      }
    } else {
      assert StateOk(s.procs[i]);
      hide LockInv, StateInv, PointInv;
      PointsKept(s, s');
    }
  }

  /** A process goes to sleep in wait holding its own lock, so no child is between waking it
      and becoming a zombie. */
  lemma SleepPoints(s: State, i: nat, s': State)
    requires PointInv(s) && LockInv(s) && i < |s.procs| && s.procs[i].pc.WDecide?
    requires s' == WithProc(s, i, s.procs[i].(st := SLEEPING, pc := WSwitch))
    ensures PointInv(s')
  {
    assert HolderOk(s, i);
    forall j | 0 <= j < |s'.procs|
      ensures PointOk(s', j)
    {
      assert PointOk(s, j) && HolderOk(s, j);
    }
  }

  lemma ScanPoints(s: State, i: nat, pc: Pc, s': State)
    requires PointInv(s) && i < |s.procs| && s' == At(s, i, pc) && !InWait(pc) && !pc.XGive? && !pc.XZombie?
    requires pc.WTake? ==> pc.k < |s.procs| && s.procs[pc.k].parent == i
    ensures PointInv(s')
  {
    forall j | 0 <= j < |s'.procs|
      ensures PointOk(s', j)
    {
      assert PointOk(s, j);
    }
  }

  /** The slot that wait frees is a child of the freeing process, so no other scan stopped there. */
  lemma ReapPoints(s: State, i: nat, k: nat, s': State)
    requires PointInv(s) && i < |s.procs| && k < |s.procs| && |s.lock| == |s.procs| && s' == Reaped(s, i, k)
    requires s.procs[k].parent == i && s.procs[i].pc.WTake?
    ensures PointInv(s')
  {
    forall j | 0 <= j < |s'.procs|
      ensures PointOk(s', j)
    {
      assert PointOk(s, j);
    }
  }

  lemma WaitPoints(s: State, i: nat, s': State)
    requires PointInv(s) && LockInv(s) && StepReady(s, i) && s' == WaitStep(s, i)
    requires !Entering(s.procs[i].pc) && !Giving(s.procs[i].pc) && !Leaving(s.procs[i].pc)
    ensures PointInv(s')
  {
    assert PointOk(s, i);
    hide LockInv, PointInv;
    match s.procs[i].pc
    case WScan(_, _) => ScanPoints(s, i, s'.procs[i].pc, s');
    case WTake(k, _) =>
      if s.procs[k].st == ZOMBIE {
        ReapPoints(s, i, k, s');
      } else {
        ScanPoints(s, i, s'.procs[i].pc, s');
      }
    case WDecide(kids) =>
      if !kids || s.procs[i].killed {
        PointsKept(s, s');
      } else {
        SleepPoints(s, i, s');
      }
    case _ => PointsKept(s, s');
  }

  lemma QuietPoints(s: State, a: Action, s': State)
    requires PointInv(s) && StateInv(s) && Enabled(s, a) && !a.Step? && s' == Next(s, a)
    ensures PointInv(s')
  {
    hide StepOf, StepEnabled;
    if a.Fork? {
      assert StateOk(s.procs[a.j]);
      forall i | 0 <= i < |s'.procs|
        ensures PointOk(s', i)
      {
        assert PointOk(s, i);
      }
    } else {
      hide PointInv, StateInv;
      PointsKept(s, s');
    }
  }

  lemma KeepPoints(s: State, a: Action, s': State)
    requires PointInv(s) && LockInv(s) && StateInv(s) && Enabled(s, a) && s' == Next(s, a)
    ensures PointInv(s')
  {
    hide PointInv, StateInv, LockInv, GiveStep, LeaveStep, WaitStep, StepEnabled;
    if a.Step? {
      if Entering(s.procs[a.i].pc) {
        PointsKept(s, s');
      } else if Giving(s.procs[a.i].pc) {
        GivePoints(s, a.i, s');
      } else if Leaving(s.procs[a.i].pc) {
        LeavePoints(s, a.i, s');
      } else {
        WaitPoints(s, a.i, s');
      }
    } else {
      QuietPoints(s, a, s');
    }
  }

  // ----- History -----

  predicate SameZombie(p: Proc, p': Proc) {
    && (p'.st == ZOMBIE <==> p.st == ZOMBIE) && p'.eid == p.eid && p'.pid == p.pid && p'.xstate == p.xstate
  }

  ghost predicate ZombiesSame(s: State, s': State) {
    && |s'.procs| == |s.procs| && s'.exits == s.exits && s'.reaps == s.reaps
    && forall c :: 0 <= c < |s.procs| ==>
        SameZombie(s.procs[c], s'.procs[c]) || (s.procs[c].st != ZOMBIE && s'.procs[c].st != ZOMBIE)
  }

  lemma HistKept(s: State, s': State)
    requires HistInv(s) && ZombiesSame(s, s')
    ensures HistInv(s')
  {
    forall c | 0 <= c < |s'.procs| && s'.procs[c].st == ZOMBIE
      ensures ZombieOk(s', c)
    {
      assert ZombieOk(s, c);
    }
    forall e | 0 <= e < |s'.exits|
      ensures ExitOk(s', e)
    {
      assert ExitOk(s, e);
    }
  }

  /** The exit that i makes is the newest. */
  lemma ZombieHist(s: State, i: nat, s': State)
    requires HistInv(s) && StateInv(s) && StepReady(s, i) && s.procs[i].pc.XZombie? && s' == LeaveStep(s, i)
    ensures HistInv(s')
  {
    assert StateOk(s.procs[i]);
    forall c | 0 <= c < |s'.procs| && s'.procs[c].st == ZOMBIE
      ensures ZombieOk(s', c)
    {
      assert c != i ==> ZombieOk(s, c);
    }
    forall e | 0 <= e < |s'.exits|
      ensures ExitOk(s', e)
    {
      assert e < |s.exits| ==> ExitOk(s, e);
    }
  }

  /** wait reports the exit that its zombie remembers, and no other zombie remembers it. */
  lemma ReapHist(s: State, i: nat, k: nat, s': State)
    requires HistInv(s) && i < |s.procs| && k < |s.procs| && |s.lock| == |s.procs| && s' == Reaped(s, i, k)
    requires s.procs[k].st == ZOMBIE && s.procs[i].st == RUNNING
    ensures HistInv(s')
  {
    assert ZombieOk(s, k);
    forall c | 0 <= c < |s'.procs| && s'.procs[c].st == ZOMBIE
      ensures ZombieOk(s', c)
    {
      assert ZombieOk(s, c);
    }
    forall e | 0 <= e < |s'.exits|
      ensures ExitOk(s', e)
    {
      assert ExitOk(s, e);
    }
  }

  lemma KeepHist(s: State, a: Action, s': State)
    requires HistInv(s) && StateInv(s) && Enabled(s, a) && s' == Next(s, a)
    ensures HistInv(s')
  {
    if a.Step? {
      StepHist(s, a.i, s');
    } else {
      hide HistInv, StepOf, StepEnabled;
      QuietHist(s, a, s');
    }
  }

  lemma QuietHist(s: State, a: Action, s': State)
    requires HistInv(s) && StateInv(s) && Enabled(s, a) && !a.Step? && s' == Next(s, a)
    ensures HistInv(s')
  {
    hide HistInv, StateInv, StepOf, StepEnabled;
    HistKept(s, s');
  }

  lemma GiveHist(s: State, i: nat, s': State)
    requires HistInv(s) && StepReady(s, i) && Giving(s.procs[i].pc) && s' == GiveStep(s, i)
    ensures HistInv(s')
  {
    hide HistInv;
    HistKept(s, s');
  }

  lemma LeaveHist(s: State, i: nat, s': State)
    requires HistInv(s) && StateInv(s) && StepReady(s, i) && Leaving(s.procs[i].pc) && s' == LeaveStep(s, i)
    ensures HistInv(s')
  {
    hide HistInv, StateInv;
    if s.procs[i].pc.XZombie? {
      ZombieHist(s, i, s');
    } else {
      HistKept(s, s');
    }
  }

  lemma WaitHist(s: State, i: nat, s': State)
    requires HistInv(s) && StepReady(s, i) && s' == WaitStep(s, i)
    requires !Entering(s.procs[i].pc) && !Giving(s.procs[i].pc) && !Leaving(s.procs[i].pc)
    ensures HistInv(s')
  {
    hide HistInv;
    var pc := s.procs[i].pc;
    if pc.WTake? && s.procs[pc.k].st == ZOMBIE {
      ReapHist(s, i, pc.k, s');
    } else {
      HistKept(s, s');
    }
  }

  lemma StepHist(s: State, i: nat, s': State)
    requires HistInv(s) && StateInv(s) && StepReady(s, i) && s' == StepOf(s, i)
    ensures HistInv(s')
  {
    hide HistInv, StateInv, LeaveStep, WaitStep, StepEnabled;
    if Entering(s.procs[i].pc) {
      HistKept(s, s');
    } else if Giving(s.procs[i].pc) {
      GiveHist(s, i, s');
    } else if Leaving(s.procs[i].pc) {
      LeaveHist(s, i, s');
    } else {
      WaitHist(s, i, s');
    }
  }

  // ----- Every run -----

  lemma InitOk(s: State)
    requires Init(s)
    ensures Inv(s)
  {
    forall i | 0 <= i < |s.procs|
      ensures HolderOk(s, i) && LockOk(s, i) && StateOk(s.procs[i]) && ParentOk(s, i) && PointOk(s, i)
    {
    }
    forall i, c {:trigger PairOk(s, i, c)} | 0 <= i < |s.procs| && 0 <= c < |s.procs|
      ensures PairOk(s, i, c)
    {
    }
  }

  lemma Keep(s: State, a: Action, s': State)
    requires Inv(s) && Enabled(s, a) && s' == Next(s, a)
    ensures Inv(s')
  {
    hide LockInv, StateInv, ParentInv, PairInv, PointInv, HistInv, Enabled;
    KeepLocks(s, a, s');
    KeepStates(s, a, s');
    KeepParents(s, a, s');
    KeepPairs(s, a, s');
    KeepPoints(s, a, s');
    KeepHist(s, a, s');
  }

  lemma {:induction false} Always(ss: seq<State>, acts: seq<Action>, x: nat)
    requires IsRun(ss, acts) && x < |ss|
    ensures Inv(ss[x])
  {
    hide Inv, Init, Enabled;
    if x == 0 {
      InitOk(ss[0]);
    } else {
      Always(ss, acts, x - 1);
      assert ss[(x - 1) + 1] == Next(ss[x - 1], acts[x - 1]);
      Keep(ss[x - 1], acts[x - 1], ss[x]);
    }
  }

  /** In every state of every run, each process but init has a parent that is in use and has
      not exited, so no zombie is without a process that can reap it. */
  lemma NoOrphans(ss: seq<State>, acts: seq<Action>, x: nat, c: nat)
    requires IsRun(ss, acts) && x < |ss| && c < |ss[x].procs| && c != INIT && InUse(ss[x].procs[c])
    ensures var p := ss[x].procs[c].parent;
            0 <= p < |ss[x].procs| && p != c && InUse(ss[x].procs[p]) && ss[x].procs[p].st != ZOMBIE
  {
    hide Init, Enabled;
    Always(ss, acts, x);
    assert ParentOk(ss[x], c);
  }

  /** In every state of every run, each exit has either been reported by wait, with the pid and
      status of the exit, or is remembered by exactly the zombie that made it. */
  lemma ExitsAccounted(ss: seq<State>, acts: seq<Action>, x: nat, e: nat)
    requires IsRun(ss, acts) && x < |ss| && e < |ss[x].exits|
    ensures var s, exit := ss[x], ss[x].exits[e];
            && (e in s.reaps ==>
                 s.reaps[e].slot == exit.slot && s.reaps[e].pid == exit.pid && s.reaps[e].status == exit.status)
            && (e !in s.reaps <==> exists c :: 0 <= c < |s.procs| && s.procs[c].st == ZOMBIE && s.procs[c].eid == e)
            && forall c :: 0 <= c < |s.procs| && s.procs[c].st == ZOMBIE && s.procs[c].eid == e ==>
                 c == exit.slot && s.procs[c].pid == exit.pid && s.procs[c].xstate == exit.status
  {
    hide Init, Enabled;
    Always(ss, acts, x);
    var s := ss[x];
    assert ExitOk(s, e);
    forall c | 0 <= c < |s.procs| && s.procs[c].st == ZOMBIE && s.procs[c].eid == e
      ensures e !in s.reaps && c == s.exits[e].slot && s.procs[c].pid == s.exits[e].pid
      ensures s.procs[c].xstate == s.exits[e].status
    {
      assert ZombieOk(s, c);
    }
  }

  /** A step that reports an exit is a step of wait by the zombie's parent at that moment, and
      reports an exit that had not been reported; reports made earlier stand. */
  lemma ReapedOnceByParent(ss: seq<State>, acts: seq<Action>, x: nat, e: nat)
    requires IsRun(ss, acts) && x + 1 < |ss|
    ensures e in ss[x].reaps ==> e in ss[x + 1].reaps && ss[x + 1].reaps[e] == ss[x].reaps[e]
    ensures e in ss[x + 1].reaps && e !in ss[x].reaps ==>
              var r := ss[x + 1].reaps[e];
              && acts[x] == Step(r.parent) && r.slot < |ss[x].procs| && r.parent < |ss[x].procs|
              && ss[x].procs[r.slot].st == ZOMBIE && ss[x].procs[r.slot].parent == r.parent
              && ss[x].procs[r.slot].pid == r.pid && ss[x].procs[r.slot].xstate == r.status
              && ss[x + 1].procs[r.slot].st == UNUSED
  {
    hide Init, ParentInv, PairInv, StateInv, LockInv;
    Always(ss, acts, x);
    assert ss[x + 1] == Next(ss[x], acts[x]);
    ReapStep(ss[x], acts[x], ss[x + 1], e);
  }

  lemma ReapStep(s: State, a: Action, s': State, e: nat)
    requires PointInv(s) && HistInv(s) && Enabled(s, a) && s' == Next(s, a)
    ensures e in s.reaps ==> e in s'.reaps && s'.reaps[e] == s.reaps[e]
    ensures e in s'.reaps && e !in s.reaps ==>
              var r := s'.reaps[e];
              && a == Step(r.parent) && r.slot < |s.procs| && r.parent < |s.procs|
              && s.procs[r.slot].st == ZOMBIE && s.procs[r.slot].parent == r.parent
              && s.procs[r.slot].pid == r.pid && s.procs[r.slot].xstate == r.status && s'.procs[r.slot].st == UNUSED
  {
    if a.Step? {
      assert PointOk(s, a.i);
      if s.procs[a.i].pc.WTake? && s.procs[s.procs[a.i].pc.k].st == ZOMBIE {
        assert ZombieOk(s, s.procs[a.i].pc.k);
      }
    }
  }

  /** No process but init sleeps in wait while it has a child that has exited. */
  lemma NoMissedZombie(ss: seq<State>, acts: seq<Action>, x: nat, i: nat, c: nat)
    requires IsRun(ss, acts) && x < |ss| && i < |ss[x].procs| && c < |ss[x].procs| && i != INIT
    requires InWait(ss[x].procs[i].pc) && ss[x].procs[i].st == SLEEPING && ss[x].procs[c].parent == i
    ensures ss[x].procs[c].st != ZOMBIE
  {
    hide Init, Enabled;
    Always(ss, acts, x);
    assert PairOk(ss[x], i, c);
  }

  /** wakeup1's panic: exit holds the lock of the process it wakes. */
  lemma WakesWithLock(ss: seq<State>, acts: seq<Action>, x: nat, i: nat)
    requires IsRun(ss, acts) && x < |ss| && i < |ss[x].procs| && ss[x].procs[i].pc.XWake?
    ensures ss[x].procs[i].pc.op < |ss[x].lock| && ss[x].lock[ss[x].procs[i].pc.op] == i
  {
    hide Init, Enabled;
    Always(ss, acts, x);
    assert HolderOk(ss[x], i);
  }
}
