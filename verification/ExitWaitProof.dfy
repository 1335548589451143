/** What every interleaving of exit, wait, fork, kill and preemption keeps. */
module ExitWaitProof {
  import opened ExitWait

  /** Locks are held by those whose program counter says so. */
  ghost predicate LockInv(s: State) {
    && |s.lock| == |s.procs| && |s.procs| > 0
    && (forall h :: 0 <= h < |s.procs| ==> HolderOk(s, h))
    && (forall i :: 0 <= i < |s.lock| ==> LockOk(s, i))
  }

  ghost predicate HolderOk(s: State, h: nat)
    requires h < |s.procs| == |s.lock|
  {
    var pc := s.procs[h].pc;
    && (Own(pc) ==> s.lock[h] == h)
    && (Other(pc) != FREE ==> 0 <= Other(pc) < |s.lock| && Other(pc) != h && s.lock[Other(pc)] == h)
  }

  ghost predicate LockOk(s: State, i: nat)
    requires i < |s.procs| == |s.lock|
  {
    var h := s.lock[i];
    h != FREE ==> 0 <= h < |s.procs| && if h == i then Own(s.procs[i].pc) else Other(s.procs[h].pc) == i
  }

  /** The run state fits the program counter. */
  predicate StateOk(p: Proc) {
    && (p.st == UNUSED <==> p.pc.Idle?) && (p.pc.Idle? ==> p.parent == FREE)
    && (p.st == ZOMBIE <==> p.pc.XRelease? || p.pc.XSwitch? || p.pc.Dead?)
    && (p.st == SLEEPING ==> p.pc.Parked? || InWait(p.pc)) && (p.pc.WSwitch? ==> p.st == SLEEPING)
    && (p.pc.Parked? || p.pc.WAsleep? ==> p.st == SLEEPING || p.st == RUNNABLE)
    && (p.pc.User? || p.pc.XRead? || p.pc.XLockParent? ==> p.st == RUNNING || p.st == RUNNABLE)
    && (p.pc.XLockSelf? || p.pc.XScan? || p.pc.XGive? || p.pc.XWake? || p.pc.XZombie? ==> p.st == RUNNING)
    && (p.pc.WScan? || p.pc.WTake? || p.pc.WDecide? ==> p.st == RUNNING)
  }

  ghost predicate StateInv(s: State) { forall i :: 0 <= i < |s.procs| ==> StateOk(s.procs[i]) }

  /** The parent that exit has read and not yet woken, or FREE. */
  function OpOf(pc: Pc): int {
    match pc
    case XLockParent(_, op) => op
    case XRelease(_) => FREE
    case _ => Other(pc)
  }

  /** Since exit read p->parent, it can only have changed to init. */
  predicate OpOk(p: Proc) { OpOf(p.pc) != FREE ==> p.parent == OpOf(p.pc) || p.parent == INIT }

  predicate Exiting(pc: Pc) {
    pc.XRead? || pc.XLockParent? || pc.XLockSelf? || pc.XScan? || pc.XGive? || pc.XWake? || pc.XZombie?
        || pc.XRelease? || pc.XSwitch? || pc.Dead?
  }

  ghost predicate ParentOk(s: State, c: nat)
    requires c < |s.procs|
  {
    var p := s.procs[c];
    && OpOk(p)
    && (c == INIT ==> InUse(p) && !Exiting(p.pc) && p.parent == FREE)
    && (c != INIT && InUse(p) ==>
          0 <= p.parent < |s.procs| && p.parent != c && InUse(s.procs[p.parent]) && s.procs[p.parent].st != ZOMBIE)
    && (p.pc.XLockParent? ==> p.pc.op < |s.procs| && p.pc.op != c)
  }

  ghost predicate ParentInv(s: State) { forall c :: 0 <= c < |s.procs| ==> ParentOk(s, c) }

  /** Slots below this are known not to be children of an exiting process. */
  function Given(pc: Pc, n: nat): nat {
    match pc
    case XScan(_, _, k) => k
    case XGive(_, _, k) => k
    case XWake(_, _) => n
    case XZombie(_, _) => n
    case _ => 0
  }

  /** Slots below this are known not to be zombie children of a process in wait. */
  function Seen(p: Proc, n: nat): nat {
    match p.pc
    case WScan(k, _) => k
    case WTake(k, _) => k
    case WDecide(_) => n
    case WSwitch => n
    case WAsleep => if p.st == SLEEPING then n else 0
    case _ => 0
  }

  ghost predicate PairOk(s: State, i: nat, c: nat)
    requires i < |s.procs| && c < |s.procs|
  {
    && (c < Given(s.procs[i].pc, |s.procs|) ==> s.procs[c].parent != i)
    && (i != INIT && c < Seen(s.procs[i], |s.procs|) && s.procs[c].parent == i ==> s.procs[c].st != ZOMBIE)
  }

  ghost predicate PairInv(s: State) {
    forall i, c {:trigger PairOk(s, i, c)} :: 0 <= i < |s.procs| && 0 <= c < |s.procs| ==> PairOk(s, i, c)
  }

  /** The slot that a scan stopped at is a child; a process about to become a zombie has
      woken its parent. */
  ghost predicate PointOk(s: State, i: nat)
    requires i < |s.procs|
  {
    match s.procs[i].pc
    case XGive(_, _, k) => k < |s.procs| && s.procs[k].parent == i
    case WTake(k, _) => k < |s.procs| && s.procs[k].parent == i
    case XZombie(_, op) => op < |s.procs| && !(InWait(s.procs[op].pc) && s.procs[op].st == SLEEPING)
    case _ => true
  }

  ghost predicate PointInv(s: State) { forall i :: 0 <= i < |s.procs| ==> PointOk(s, i) }

  /** A zombie remembers its exit, and each exit is reported at most once, as it happened. */
  ghost predicate HistInv(s: State) {
    && (forall c :: 0 <= c < |s.procs| && s.procs[c].st == ZOMBIE ==> ZombieOk(s, c))
    && (forall e :: 0 <= e < |s.exits| ==> ExitOk(s, e))
    && (forall e :: e in s.reaps ==> e < |s.exits|)
  }

  ghost predicate ZombieOk(s: State, c: nat)
    requires c < |s.procs|
  {
    var p := s.procs[c];
    p.eid < |s.exits| && s.exits[p.eid] == Exit(c, p.pid, p.xstate) && p.eid !in s.reaps
  }

  ghost predicate ExitOk(s: State, e: nat)
    requires e < |s.exits|
  {
    var x := s.exits[e];
    if e in s.reaps then s.reaps[e].slot == x.slot && s.reaps[e].pid == x.pid && s.reaps[e].status == x.status
    else x.slot < |s.procs| && s.procs[x.slot].st == ZOMBIE && s.procs[x.slot].eid == e
  }

  ghost predicate Inv(s: State) {
    LockInv(s) && StateInv(s) && ParentInv(s) && PairInv(s) && PointInv(s) && HistInv(s)
  }

  // ----- Locks -----

  /** Apart from process i, everyone holds what they held. */
  ghost predicate SameHolds(s: State, s': State, i: nat) {
    && |s'.procs| == |s.procs| == |s.lock| == |s'.lock| && i < |s.procs|
    && forall x :: 0 <= x < |s.procs| && x != i ==>
        Own(s'.procs[x].pc) == Own(s.procs[x].pc) && Other(s'.procs[x].pc) == Other(s.procs[x].pc)
  }

  lemma NoLock(s: State, s': State, i: nat)
    requires LockInv(s) && SameHolds(s, s', i) && s'.lock == s.lock
    requires Own(s'.procs[i].pc) == Own(s.procs[i].pc) && Other(s'.procs[i].pc) == Other(s.procs[i].pc)
    ensures LockInv(s')
  {
    forall x | 0 <= x < |s.procs|
      ensures HolderOk(s', x) && LockOk(s', x)
    {
      assert HolderOk(s, x) && LockOk(s, x);
    }
  }

  lemma TakeOwn(s: State, s': State, i: nat)
    requires LockInv(s) && SameHolds(s, s', i) && s.lock[i] == FREE && s'.lock == s.lock[i := i]
    requires Own(s'.procs[i].pc) && Other(s'.procs[i].pc) == Other(s.procs[i].pc)
    ensures LockInv(s')
  {
    forall x | 0 <= x < |s.procs|
      ensures HolderOk(s', x) && LockOk(s', x)
    {
      assert HolderOk(s, x) && LockOk(s, x);
    }
  }

  lemma DropOwn(s: State, s': State, i: nat)
    requires LockInv(s) && SameHolds(s, s', i) && Own(s.procs[i].pc) && s'.lock == s.lock[i := FREE]
    requires !Own(s'.procs[i].pc) && Other(s'.procs[i].pc) == Other(s.procs[i].pc)
    ensures LockInv(s')
  {
    assert HolderOk(s, i);
    forall x | 0 <= x < |s.procs|
      ensures HolderOk(s', x) && LockOk(s', x)
    {
      assert HolderOk(s, x) && LockOk(s, x);
    }
  }

  lemma TakeOther(s: State, s': State, i: nat, op: nat)
    requires LockInv(s) && SameHolds(s, s', i) && op < |s.lock| && op != i && s.lock[op] == FREE
    requires s'.lock == s.lock[op := i]
    requires Other(s.procs[i].pc) == FREE && Other(s'.procs[i].pc) == op && Own(s'.procs[i].pc) == Own(s.procs[i].pc)
    ensures LockInv(s')
  {
    forall x | 0 <= x < |s.procs|
      ensures HolderOk(s', x) && LockOk(s', x)
    {
      assert HolderOk(s, x) && LockOk(s, x);
    }
  }

  lemma DropOther(s: State, s': State, i: nat, op: nat)
    requires LockInv(s) && SameHolds(s, s', i) && op < |s.lock| && s'.lock == s.lock[op := FREE]
    requires Other(s.procs[i].pc) == op && Other(s'.procs[i].pc) == FREE && Own(s'.procs[i].pc) == Own(s.procs[i].pc)
    ensures LockInv(s')
  {
    assert HolderOk(s, i);
    forall x | 0 <= x < |s.procs|
      ensures HolderOk(s', x) && LockOk(s', x)
    {
      assert HolderOk(s, x) && LockOk(s, x);
    }
  }

  lemma EnterLocks(s: State, i: nat, s': State)
    requires LockInv(s) && ParentInv(s) && StepReady(s, i) && Entering(s.procs[i].pc) && s' == EnterStep(s, i)
    ensures LockInv(s')
  {
    assert ParentOk(s, i);
    match s.procs[i].pc
    case XLockParent(_, op) => TakeOther(s, s', i, op);
    case XLockSelf(_, _) => TakeOwn(s, s', i);
    case _ => NoLock(s, s', i);
  }

  lemma GiveLocks(s: State, i: nat, s': State)
    requires LockInv(s) && StepReady(s, i) && Giving(s.procs[i].pc) && s' == GiveStep(s, i)
    ensures LockInv(s')
  {
    NoLock(s, s', i);
  }

  lemma LeaveLocks(s: State, i: nat, s': State)
    requires LockInv(s) && StepReady(s, i) && Leaving(s.procs[i].pc) && s' == LeaveStep(s, i)
    ensures LockInv(s')
  {
    match s.procs[i].pc
    case XRelease(op) => DropOther(s, s', i, op);
    case XSwitch => DropOwn(s, s', i);
    case _ => NoLock(s, s', i);
  }

  lemma WaitLocks(s: State, i: nat, s': State)
    requires LockInv(s) && StateInv(s) && StepReady(s, i) && s' == WaitStep(s, i)
    requires !Entering(s.procs[i].pc) && !Giving(s.procs[i].pc) && !Leaving(s.procs[i].pc)
    ensures LockInv(s')
  {
    var pc := s.procs[i].pc;
    if pc.WTake? && s.procs[pc.k].st == ZOMBIE {
      ReapLocks(s, i, s');
    } else {
      hide HolderOk, LockOk, StateInv;
      if pc.WSwitch? || (pc.WDecide? && (!pc.kids || s.procs[i].killed)) {
        DropOwn(s, s', i);
      } else {
        NoLock(s, s', i);
      }
    }
  }

  lemma ReapLocks(s: State, i: nat, s': State)
    requires LockInv(s) && StateInv(s) && StepReady(s, i) && s' == WaitStep(s, i)
    requires s.procs[i].pc.WTake? && s.procs[s.procs[i].pc.k].st == ZOMBIE
    ensures LockInv(s')
  {
    assert StateOk(s.procs[s.procs[i].pc.k]) && StateOk(s.procs[i]) && HolderOk(s, s.procs[i].pc.k);
    DropOwn(s, s', i);
  }

  lemma StepLocks(s: State, i: nat, s': State)
    requires LockInv(s) && StateInv(s) && ParentInv(s) && StepReady(s, i) && s' == StepOf(s, i)
    ensures LockInv(s')
  {
    hide LockInv, StateInv, ParentInv, EnterStep, GiveStep, LeaveStep, WaitStep, StepEnabled;
    if Entering(s.procs[i].pc) {
      EnterLocks(s, i, s');
    } else if Giving(s.procs[i].pc) {
      GiveLocks(s, i, s');
    } else if Leaving(s.procs[i].pc) {
      LeaveLocks(s, i, s');
    } else {
      WaitLocks(s, i, s');
    }
  }

  /** The actions outside exit and wait that touch no lock. */
  predicate Lockless(s: State, a: Action)
    requires Enabled(s, a)
  {
    !a.Step? && !a.WaitStart? && !a.Refuse? && !(a.Dispatch? && s.procs[a.i].pc.WAsleep?)
  }

  lemma LocklessLocks(s: State, a: Action, s': State)
    requires LockInv(s) && StateInv(s) && Enabled(s, a) && Lockless(s, a) && s' == Next(s, a)
    ensures LockInv(s')
  {
    hide StepOf, StepEnabled, LockInv;
    assert StateOk(s.procs[if a.Fork? then a.j else a.i]);
    NoLock(s, s', if a.Fork? then a.j else a.i);
  }

  lemma KeepLocks(s: State, a: Action, s': State)
    requires LockInv(s) && StateInv(s) && ParentInv(s) && Enabled(s, a) && s' == Next(s, a)
    ensures LockInv(s')
  {
    hide StepOf, StepEnabled, ParentInv, HolderOk, LockOk, StateInv;
    if Lockless(s, a) {
      LocklessLocks(s, a, s');
    } else {
      match a
      case Dispatch(i) => TakeOwn(s, s', i);
      case WaitStart(i) => TakeOwn(s, s', i);
      case Step(i) => StepLocks(s, i, s');
      case Refuse(i) => DropOwn(s, s', i);
      case _ =>
    }
  }

  // ----- Run states -----

  lemma KeepStates(s: State, a: Action, s': State)
    requires LockInv(s) && StateInv(s) && PointInv(s) && Enabled(s, a) && s' == Next(s, a)
    ensures StateInv(s')
  {
    hide LockOk, StepOf, StepEnabled;
    if a.Step? {
      StepStates(s, a.i, s');
    } else {
      forall x | 0 <= x < |s'.procs|
        ensures StateOk(s'.procs[x])
      {
        assert StateOk(s.procs[x]) && HolderOk(s, x);
      }
    }
  }

  lemma StepStates(s: State, i: nat, s': State)
    requires LockInv(s) && StateInv(s) && PointInv(s) && StepReady(s, i) && s' == StepOf(s, i)
    ensures StateInv(s')
  {
    hide LockInv, StateInv, PointInv, EnterStep, GiveStep, LeaveStep, WaitStep, StepEnabled;
    if Entering(s.procs[i].pc) {
      EnterStates(s, i, s');
    } else if Giving(s.procs[i].pc) {
      GiveStates(s, i, s');
    } else if Leaving(s.procs[i].pc) {
      LeaveStates(s, i, s');
    } else {
      WaitStates(s, i, s');
    }
  }

  lemma EnterStates(s: State, i: nat, s': State)
    requires StateInv(s) && StepReady(s, i) && Entering(s.procs[i].pc) && s' == EnterStep(s, i)
    ensures StateInv(s')
  {
    assert StateOk(s.procs[i]);
  }

  lemma GiveStates(s: State, i: nat, s': State)
    requires StateInv(s) && PointInv(s) && StepReady(s, i) && Giving(s.procs[i].pc) && s' == GiveStep(s, i)
    ensures StateInv(s')
  {
    assert PointOk(s, i);
    forall x | 0 <= x < |s'.procs|
      ensures StateOk(s'.procs[x])
    {
      assert StateOk(s.procs[x]);
    }
  }

  lemma LeaveStates(s: State, i: nat, s': State)
    requires LockInv(s) && StateInv(s) && StepReady(s, i) && Leaving(s.procs[i].pc) && s' == LeaveStep(s, i)
    ensures StateInv(s')
  {
    hide LockOk;
    assert HolderOk(s, i);
    forall x | 0 <= x < |s'.procs|
      ensures StateOk(s'.procs[x])
    {
      assert StateOk(s.procs[x]) && HolderOk(s, x);
    }
  }

  lemma WaitStates(s: State, i: nat, s': State)
    requires StateInv(s) && StepReady(s, i) && s' == WaitStep(s, i)
    requires !Entering(s.procs[i].pc) && !Giving(s.procs[i].pc) && !Leaving(s.procs[i].pc)
    ensures StateInv(s')
  {
    assert StateOk(s.procs[i]);
  }

  // ----- Parents -----

  /** Nothing that ParentInv looks at changed. */
  ghost predicate SameKin(s: State, s': State) {
    && |s'.procs| == |s.procs|
    && forall c :: 0 <= c < |s.procs| ==> SameFamily(s.procs[c], s'.procs[c])
  }

  predicate SameFamily(p: Proc, p': Proc) {
    && p'.parent == p.parent && (p'.st == UNUSED <==> p.st == UNUSED) && (p'.st == ZOMBIE <==> p.st == ZOMBIE)
    && (Exiting(p'.pc) ==> Exiting(p.pc)) && (OpOk(p) ==> OpOk(p')) && (p'.pc.XLockParent? ==> p'.pc == p.pc)
  }

  lemma KinKept(s: State, s': State)
    requires ParentInv(s) && SameKin(s, s')
    ensures ParentInv(s')
  {
    hide OpOk, Exiting;
    forall c | 0 <= c < |s'.procs|
      ensures ParentOk(s', c)
    {
      assert ParentOk(s, c) && SameFamily(s.procs[c], s'.procs[c]);
      if 0 <= s.procs[c].parent < |s.procs| {
        assert SameFamily(s.procs[s.procs[c].parent], s'.procs[s.procs[c].parent]);
      }
    }
  }

  lemma EnterParents(s: State, i: nat, s': State)
    requires ParentInv(s) && StateInv(s) && StepReady(s, i) && Entering(s.procs[i].pc) && s' == EnterStep(s, i)
    ensures ParentInv(s')
  {
    assert ParentOk(s, i) && StateOk(s.procs[i]);
    forall c | 0 <= c < |s'.procs|
      ensures ParentOk(s', c)
    {
      assert ParentOk(s, c);
    }
  }

  lemma GiveParents(s: State, i: nat, s': State)
    requires ParentInv(s) && StateInv(s) && PointInv(s) && StepReady(s, i) && Giving(s.procs[i].pc)
    requires s' == GiveStep(s, i)
    ensures ParentInv(s')
  {
    if s.procs[i].pc.XScan? {
      KinKept(s, s');
    } else {
      assert PointOk(s, i);
      GiveToInit(s, i, s.procs[i].pc.k, s');
    }
  }

  lemma GiveToInit(s: State, i: nat, k: nat, s': State)
    requires ParentInv(s) && StateInv(s) && i < |s.procs| && k < |s.procs| && s.procs[k].parent == i
    requires s.procs[i].pc.XGive?
    requires var next := XScan(s.procs[i].pc.status, s.procs[i].pc.op, k + 1);
             s' == At(WithProc(s, k, s.procs[k].(parent := INIT)), i, next)
    ensures ParentInv(s')
  {
    assert ParentOk(s, INIT) && StateOk(s.procs[INIT]) && ParentOk(s, i) && ParentOk(s, k) && StateOk(s.procs[k]);
    forall c | 0 <= c < |s'.procs|
      ensures ParentOk(s', c)
    {
      assert ParentOk(s, c);
    }
  }

  lemma LeaveParents(s: State, i: nat, s': State)
    requires ParentInv(s) && StateInv(s) && PairInv(s) && StepReady(s, i) && Leaving(s.procs[i].pc)
    requires s' == LeaveStep(s, i)
    ensures ParentInv(s')
  {
    assert StateOk(s.procs[i]);
    if s.procs[i].pc.XZombie? {
      ZombieParents(s, i, s');
    } else {
      hide PairInv, ParentInv, StateInv;
      KinKept(s, s');
    }
  }

  lemma ZombieParents(s: State, i: nat, s': State)
    requires ParentInv(s) && PairInv(s) && StepReady(s, i) && s.procs[i].pc.XZombie? && StateOk(s.procs[i])
    requires s' == LeaveStep(s, i)
    ensures ParentInv(s')
  {
    assert ParentOk(s, i);
    forall c | 0 <= c < |s'.procs|
      ensures ParentOk(s', c)
    {
      assert ParentOk(s, c) && PairOk(s, i, c);
    }
  }

  /** A zombie has no children, so its slot can be freed. */
  lemma ReapParents(s: State, i: nat, k: nat, s': State)
    requires ParentInv(s) && StateInv(s) && i < |s.procs| && k < |s.procs| && |s.lock| == |s.procs|
    requires s' == Reaped(s, i, k)
    requires s.procs[k].st == ZOMBIE && s.procs[i].st == RUNNING && s.procs[i].pc.WTake?
    ensures ParentInv(s')
  {
    assert ParentOk(s, i) && ParentOk(s, k) && StateOk(s.procs[k]);
    forall c | 0 <= c < |s'.procs|
      ensures ParentOk(s', c)
    {
      assert ParentOk(s, c);
    }
  }

  lemma WaitParents(s: State, i: nat, s': State)
    requires ParentInv(s) && StateInv(s) && StepReady(s, i) && s' == WaitStep(s, i)
    requires !Entering(s.procs[i].pc) && !Giving(s.procs[i].pc) && !Leaving(s.procs[i].pc)
    ensures ParentInv(s')
  {
    assert StateOk(s.procs[i]);
    if s.procs[i].pc.WTake? && s.procs[s.procs[i].pc.k].st == ZOMBIE {
      ReapParents(s, i, s.procs[i].pc.k, s');
    } else {
      KinKept(s, s');
    }
  }

  lemma QuietParents(s: State, a: Action, s': State)
    requires ParentInv(s) && StateInv(s) && Enabled(s, a) && !a.Step? && s' == Next(s, a)
    ensures ParentInv(s')
  {
    if a.Fork? {
      ForkParents(s, a, s');
    } else if a.ExitStart? {
      ExitParents(s, a, s');
    } else {
      hide StepOf, StepEnabled, ParentInv;
      assert StateOk(s.procs[a.i]);
      KinKept(s, s');
    }
  }

  lemma ForkParents(s: State, a: Action, s': State)
    requires ParentInv(s) && StateInv(s) && Enabled(s, a) && a.Fork? && s' == Next(s, a)
    ensures ParentInv(s')
  {
    hide StepOf, StepEnabled;
    assert ParentOk(s, a.i) && StateOk(s.procs[a.j]) && ParentOk(s, INIT);
    forall c | 0 <= c < |s'.procs|
      ensures ParentOk(s', c)
    {
      assert ParentOk(s, c);
    }
  }

  lemma ExitParents(s: State, a: Action, s': State)
    requires ParentInv(s) && StateInv(s) && Enabled(s, a) && a.ExitStart? && s' == Next(s, a)
    ensures ParentInv(s')
  {
    hide StepOf, StepEnabled;
    assert ParentOk(s, a.i) && ParentOk(s, INIT) && StateOk(s.procs[a.i]);
    forall c | 0 <= c < |s'.procs|
      ensures ParentOk(s', c)
    {
      assert ParentOk(s, c);
    }
  }

  lemma KeepParents(s: State, a: Action, s': State)
    requires ParentInv(s) && StateInv(s) && PairInv(s) && PointInv(s) && Enabled(s, a) && s' == Next(s, a)
    ensures ParentInv(s')
  {
    hide ParentInv, StateInv, PairInv, PointInv, EnterStep, GiveStep, LeaveStep, WaitStep, StepEnabled;
    if a.Step? {
      if Entering(s.procs[a.i].pc) {
        EnterParents(s, a.i, s');
      } else if Giving(s.procs[a.i].pc) {
        GiveParents(s, a.i, s');
      } else if Leaving(s.procs[a.i].pc) {
        LeaveParents(s, a.i, s');
      } else {
        WaitParents(s, a.i, s');
      }
    } else {
      QuietParents(s, a, s');
    }
  }

  // ----- Children given away, zombies seen -----

  /** Process p' knows no more about other slots than p did. */
  predicate KnowsLess(p: Proc, p': Proc, n: nat) {
    Given(p'.pc, n) <= Given(p.pc, n) && Seen(p', n) <= Seen(p, n)
  }

  ghost predicate PairsSame(s: State, s': State) {
    && |s'.procs| == |s.procs|
    && forall c :: 0 <= c < |s.procs| ==>
    && KnowsLess(s.procs[c], s'.procs[c], |s.procs|) && s'.procs[c].parent == s.procs[c].parent
    && (s'.procs[c].st == ZOMBIE ==> s.procs[c].st == ZOMBIE)
  }

  lemma PairsKept(s: State, s': State)
    requires PairInv(s) && PairsSame(s, s')
    ensures PairInv(s')
  {
    forall i, c {:trigger PairOk(s', i, c)} | 0 <= i < |s'.procs| && 0 <= c < |s'.procs|
      ensures PairOk(s', i, c)
    {
      assert PairOk(s, i, c);
    }
  }

  /** Process i learned about slot k and nothing else changed. */
  lemma PairsLearned(s: State, s': State, i: nat)
    requires PairInv(s) && i < |s.procs| == |s'.procs| && s' == At(s, i, s'.procs[i].pc)
    requires forall c :: 0 <= c < |s.procs| ==> PairOk(s', i, c)
    ensures PairInv(s')
  {
    forall j, c {:trigger PairOk(s', j, c)} | 0 <= j < |s'.procs| && 0 <= c < |s'.procs|
      ensures PairOk(s', j, c)
    {
      assert PairOk(s, j, c);
    }
  }

  lemma GivePairs(s: State, i: nat, s': State)
    requires PairInv(s) && PointInv(s) && ParentInv(s) && StepReady(s, i) && Giving(s.procs[i].pc)
    requires s' == GiveStep(s, i)
    ensures PairInv(s')
  {
    assert PointOk(s, i) && ParentOk(s, i) && ParentOk(s, INIT);
    if s.procs[i].pc.XScan? {
      forall c | 0 <= c < |s.procs|
        ensures PairOk(s', i, c)
      {
        assert PairOk(s, i, c);
      }
      PairsLearned(s, s', i);
    } else {
      forall j, c {:trigger PairOk(s', j, c)} | 0 <= j < |s'.procs| && 0 <= c < |s'.procs|
        ensures PairOk(s', j, c)
      {
        assert PairOk(s, j, c);
      }
    }
  }

  /** No one is watching when i becomes a zombie: its parent, if not init, is the process
      whose lock i holds, so it is neither scanning nor, having been woken, asleep. */
  lemma ZombiePairs(s: State, i: nat, s': State)
    requires PairInv(s) && PointInv(s) && ParentInv(s) && StateInv(s) && LockInv(s)
    requires StepReady(s, i) && s.procs[i].pc.XZombie? && s' == LeaveStep(s, i)
    ensures PairInv(s')
  {
    assert PointOk(s, i) && ParentOk(s, i) && HolderOk(s, i) && StateOk(s.procs[i]);
    var op := s.procs[i].pc.op;
    assert HolderOk(s, op);
    forall j, c {:trigger PairOk(s', j, c)} | 0 <= j < |s'.procs| && 0 <= c < |s'.procs|
      ensures PairOk(s', j, c)
    {
      assert PairOk(s, j, c);
    }
  }

  lemma LeavePairs(s: State, i: nat, s': State)
    requires PairInv(s) && PointInv(s) && ParentInv(s) && StateInv(s) && LockInv(s)
    requires StepReady(s, i) && Leaving(s.procs[i].pc) && s' == LeaveStep(s, i)
    ensures PairInv(s')
  {
    if s.procs[i].pc.XZombie? {
      ZombiePairs(s, i, s');
    } else {
      hide LockInv, StateInv, ParentInv, PairInv, PointInv;
      PairsKept(s, s');
    }
  }

  /** wait has looked at slot k as well, or has looked at all. */
  lemma ScanPairs(s: State, i: nat, k: nat, pc: Pc, s': State)
    requires PairInv(s) && i < |s.procs| && s' == At(s, i, pc) && Given(pc, |s.procs|) == 0
    requires Seen(s.procs[i], |s.procs|) >= k
    requires Seen(s'.procs[i], |s.procs|) <= k + 1 || k >= |s.procs|
    requires k < |s.procs| && Seen(s'.procs[i], |s.procs|) == k + 1 ==>
               s.procs[k].parent != i || s.procs[k].st != ZOMBIE
    ensures PairInv(s')
  {
    forall c | 0 <= c < |s.procs|
      ensures PairOk(s', i, c)
    {
      assert PairOk(s, i, c);
    }
    PairsLearned(s, s', i);
  }

  lemma WaitPairs(s: State, i: nat, s': State)
    requires PairInv(s) && StateInv(s) && ParentInv(s) && StepReady(s, i) && s' == WaitStep(s, i)
    requires !Entering(s.procs[i].pc) && !Giving(s.procs[i].pc) && !Leaving(s.procs[i].pc)
    ensures PairInv(s')
  {
    assert StateOk(s.procs[i]);
    hide PairInv, StateInv, ParentInv;
    match s.procs[i].pc
    case WScan(k, _) => ScanPairs(s, i, k, s'.procs[i].pc, s');
    case WTake(k, _) =>
      if s.procs[k].st == ZOMBIE {
        ReapPairs(s, i, k, s');
      } else {
        ScanPairs(s, i, k, s'.procs[i].pc, s');
      }
    case _ => PairsKept(s, s');
  }

  lemma ReapPairs(s: State, i: nat, k: nat, s': State)
    requires PairInv(s) && ParentInv(s) && StateInv(s) && i < |s.procs| && k < |s.procs| && |s.lock| == |s.procs|
    requires s' == Reaped(s, i, k) && s.procs[k].st == ZOMBIE
    ensures PairInv(s')
  {
    forall j, c {:trigger PairOk(s', j, c)} | 0 <= j < |s'.procs| && 0 <= c < |s'.procs|
      ensures PairOk(s', j, c)
    {
      assert PairOk(s, j, c) && StateOk(s.procs[k]);
    }
  }

  lemma QuietPairs(s: State, a: Action, s': State)
    requires PairInv(s) && StateInv(s) && ParentInv(s) && Enabled(s, a) && !a.Step? && s' == Next(s, a)
    ensures PairInv(s')
  {
    hide StepOf, StepEnabled;
    if a.Fork? {
      assert StateOk(s.procs[a.j]);
      forall j, c {:trigger PairOk(s', j, c)} | 0 <= j < |s'.procs| && 0 <= c < |s'.procs|
        ensures PairOk(s', j, c)
      {
        assert PairOk(s, j, c);
      }
    } else {
      assert StateOk(s.procs[a.i]);
      hide PairInv, ParentInv, StateInv;
      PairsKept(s, s');
    }
  }

  lemma KeepPairs(s: State, a: Action, s': State)
    requires PairInv(s) && PointInv(s) && ParentInv(s) && StateInv(s) && LockInv(s) && Enabled(s, a) && s' == Next(s, a)
    ensures PairInv(s')
  {
    hide PairInv, PointInv, ParentInv, StateInv, LockInv, GiveStep, LeaveStep, WaitStep, StepEnabled;
    if a.Step? {
      if Entering(s.procs[a.i].pc) {
        PairsKept(s, s');
      } else if Giving(s.procs[a.i].pc) {
        GivePairs(s, a.i, s');
      } else if Leaving(s.procs[a.i].pc) {
        LeavePairs(s, a.i, s');
      } else {
        WaitPairs(s, a.i, s');
      }
    } else {
      QuietPairs(s, a, s');
    }
  }
}
