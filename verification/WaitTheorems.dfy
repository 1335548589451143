/** When wait returns, and when it sleeps. */
module WaitTheorems {
  import opened ExitWait
  import opened ExitWaitProof
  import opened ExitWaitTheorems

  // ----- How children come and go -----

  predicate IsChild(s: State, i: nat, c: nat) { c < |s.procs| && s.procs[c].parent == i }

  /** Inside wait, awake and scanning. */
  predicate Scanning(pc: Pc) { pc.WScan? || pc.WTake? || pc.WDecide? }

  predicate InsideWait(pc: Pc) { Scanning(pc) || InWait(pc) }

  /** Slot c changes parents only when it is forked, given to init by its parent, or freed by it. */
  lemma ParentChange(s: State, i: nat, s': State, c: nat)
    requires PointInv(s) && StepReady(s, i) && s' == StepOf(s, i) && c < |s.procs|
    ensures |s'.procs| == |s.procs|
    ensures s'.procs[c].parent == s.procs[c].parent
            || (s.procs[c].parent == i && s.procs[i].pc.XGive? && s'.procs[c].parent == INIT)
            || (s.procs[c].parent == i && s.procs[i].pc.WTake? && s'.procs[i].pc == User && s'.procs[c].parent == FREE)
  {
    assert PointOk(s, i);
    hide PointInv;
  }

  /** One process is inside wait before and after an action: it lost no child, and unless it is
      init it got none. */
  lemma ChildrenStay(s: State, a: Action, s': State, i: nat, c: nat)
    requires PointInv(s) && Enabled(s, a) && s' == Next(s, a) && i < |s.procs| && c < |s.procs| && StateOk(s.procs[c])
    requires InsideWait(s.procs[i].pc) && InsideWait(s'.procs[i].pc)
    ensures |s'.procs| == |s.procs|
    ensures IsChild(s, i, c) ==> IsChild(s', i, c)
    ensures i != INIT && IsChild(s', i, c) ==> IsChild(s, i, c)
  {
    hide StepOf, PointInv;
    if a.Step? {
      ParentChange(s, a.i, s', c);
    }
  }

  // ----- The scan -----

  /** Slots below this have been looked at. */
  function Done(pc: Pc, n: nat): nat {
    match pc
    case WScan(k, _) => k
    case WTake(k, _) => k
    case _ => n
  }

  predicate Kids(pc: Pc)
    requires Scanning(pc)
  {
    pc.kids
  }

  /** One step of wait's scan. */
  predicate ScanMoves(s: State, i: nat, pc: Pc, pc': Pc) {
    || (pc.WScan? && pc.k >= |s.procs| && pc' == WDecide(pc.kids))
    || (pc.WScan? && IsChild(s, i, pc.k) && pc' == WTake(pc.k, pc.kids))
    || (pc.WScan? && pc.k < |s.procs| && !IsChild(s, i, pc.k) && pc' == WScan(pc.k + 1, pc.kids))
    || (pc.WTake? && pc' == WScan(pc.k + 1, true))
  }

  lemma OwnScan(s: State, i: nat, s': State)
    requires StepReady(s, i) && s' == StepOf(s, i) && Scanning(s'.procs[i].pc)
    ensures Scanning(s.procs[i].pc) && ScanMoves(s, i, s.procs[i].pc, s'.procs[i].pc)
  {
  }

  /** A step of another process leaves a program counter alone, unless it frees the slot. */
  lemma OtherPc(s: State, j: nat, s': State, i: nat)
    requires StepReady(s, j) && s' == StepOf(s, j) && i < |s.procs| && i != j
    ensures |s'.procs| == |s.procs|
    ensures s'.procs[i].pc == s.procs[i].pc || (s.procs[i].st == ZOMBIE && s'.procs[i].pc == Idle)
  {
    var pc := s.procs[j].pc;
    if Entering(pc) || Giving(pc) {
      OtherBefore(s, j, s', i);
    } else if Leaving(pc) {
      OtherAfter(s, j, s', i);
    } else {
      hide EnterStep, GiveStep, LeaveStep;
    }
  }

  lemma OtherBefore(s: State, j: nat, s': State, i: nat)
    requires StepReady(s, j) && s' == StepOf(s, j) && i < |s.procs| && i != j
    requires Entering(s.procs[j].pc) || Giving(s.procs[j].pc)
    ensures |s'.procs| == |s.procs| && s'.procs[i].pc == s.procs[i].pc
  {
    hide LeaveStep, WaitStep;
  }

  lemma OtherAfter(s: State, j: nat, s': State, i: nat)
    requires StepReady(s, j) && s' == StepOf(s, j) && i < |s.procs| && i != j && Leaving(s.procs[j].pc)
    ensures |s'.procs| == |s.procs| && s'.procs[i].pc == s.procs[i].pc
  {
    hide EnterStep, GiveStep, WaitStep;
  }

  /** What an action does to the scan of process i, unless it is the scan's start. */
  lemma ScanStep(s: State, a: Action, s': State, i: nat)
    requires Enabled(s, a) && s' == Next(s, a) && i < |s.procs| == |s'.procs|
    requires Scanning(s'.procs[i].pc) && s'.procs[i].pc != WScan(0, false)
    ensures Scanning(s.procs[i].pc)
    ensures s'.procs[i].pc == s.procs[i].pc || ScanMoves(s, i, s.procs[i].pc, s'.procs[i].pc)
  {
    hide StepOf, ScanMoves;
    if a.Step? {
      if a.i == i { OwnScan(s, i, s'); } else { OtherPc(s, a.i, s', i); }
    }
  }

  /** From state w to state x process i is in one scan, during which its children stay. Unless the
      scan has seen a child, no slot that it has passed was one when the scan began. */
  ghost predicate ScanSince(ss: seq<State>, i: nat, w: nat, x: nat) {
    && w <= x < |ss| && i < |ss[x].procs| == |ss[w].procs| && Scanning(ss[x].procs[i].pc)
    && (forall y {:trigger InScan(ss, i, w, y, |ss[x].procs|)} :: w <= y <= x ==> InScan(ss, i, w, y, |ss[x].procs|))
    && ss[w].procs[i].pc == WScan(0, false)
    && (!Kids(ss[x].procs[i].pc) ==>
          forall c: nat :: c < |ss[x].procs| && c < Done(ss[x].procs[i].pc, |ss[x].procs|) ==> !IsChild(ss[w], i, c))
  }

  ghost predicate InScan(ss: seq<State>, i: nat, w: nat, y: nat, n: nat) {
    && w <= y < |ss| && i < |ss[y].procs| == n && Scanning(ss[y].procs[i].pc)
    && forall c: nat :: c < n ==>
         (IsChild(ss[w], i, c) ==> IsChild(ss[y], i, c))
         && (i != INIT && IsChild(ss[y], i, c) ==> IsChild(ss[w], i, c))
  }

  lemma ScanMore(ss: seq<State>, acts: seq<Action>, i: nat, w: nat, x: nat)
    requires IsRun(ss, acts) && x + 1 < |ss| && ScanSince(ss, i, w, x) && PointInv(ss[x]) && StateInv(ss[x])
    requires |ss[x + 1].procs| == |ss[x].procs|
    requires Scanning(ss[x + 1].procs[i].pc) && ss[x + 1].procs[i].pc != WScan(0, false)
    ensures ScanSince(ss, i, w, x + 1)
  {
    hide Next, Init, Enabled, PointInv, StateOk;
    assert Enabled(ss[x], acts[x]) && ss[x + 1] == Next(ss[x], acts[x]);
    ScanStep(ss[x], acts[x], ss[x + 1], i);
    forall c: nat | c < |ss[x].procs|
      ensures IsChild(ss[x], i, c) ==> IsChild(ss[x + 1], i, c)
      ensures i != INIT && IsChild(ss[x + 1], i, c) ==> IsChild(ss[x], i, c)
    {
      ChildrenStay(ss[x], acts[x], ss[x + 1], i, c);
    }
    assert InScan(ss, i, w, x, |ss[x].procs|);
    assert InScan(ss, i, w, x + 1, |ss[x].procs|);
  }

  lemma SameTable(s: State, a: Action, s': State)
    requires Enabled(s, a) && s' == Next(s, a)
    ensures |s'.procs| == |s.procs|
  {
  }

  lemma {:induction false} ScanBegan(ss: seq<State>, acts: seq<Action>, i: nat, x: nat) returns (w: nat)
    requires IsRun(ss, acts) && x < |ss| && i < |ss[x].procs| && Scanning(ss[x].procs[i].pc)
    ensures ScanSince(ss, i, w, x)
    decreases x
  {
    hide Next, Enabled, PointInv, StateInv, LockInv, ParentInv, PairInv, HistInv;
    if ss[x].procs[i].pc == WScan(0, false) {
      w := x;
    } else {
      assert x > 0;
      hide Init;
      assert Enabled(ss[x - 1], acts[x - 1]) && ss[(x - 1) + 1] == Next(ss[x - 1], acts[x - 1]);
      SameTable(ss[x - 1], acts[x - 1], ss[x]);
      ScanStep(ss[x - 1], acts[x - 1], ss[x], i);
      w := ScanBegan(ss, acts, i, x - 1);
      Always(ss, acts, x - 1);
      ScanMore(ss, acts, i, w, x - 1);
    }
  }

  // ----- Why wait returns -----

  /** The ways out of wait: reporting a child, failing to copy a child's status out, having been
      killed, or a scan that saw no child. */
  lemma LeavesWait(s: State, a: Action, s': State, i: nat)
    requires PointInv(s) && HistInv(s) && StateInv(s) && Enabled(s, a) && s' == Next(s, a)
    requires i < |s.procs| == |s'.procs| && InsideWait(s.procs[i].pc) && !InsideWait(s'.procs[i].pc)
    ensures s'.procs[i].pc == User
    ensures || (a == Step(i) && Reports(s, s', i))
            || (a == Refuse(i) && ZombieChild(s, i))
            || (a == Step(i) && s.procs[i].killed)
            || (a == Step(i) && s.procs[i].pc == WDecide(false))
  {
    assert PointOk(s, i) && StateOk(s.procs[i]);
    if s.procs[i].pc.WTake? && s.procs[s.procs[i].pc.k].st == ZOMBIE {
      assert ZombieOk(s, s.procs[i].pc.k) && IsChild(s, i, s.procs[i].pc.k);
    }
    hide PointInv, HistInv, StateInv, ZombieOk;
    if a.Step? && a.i != i {
      hide StepOf;
      OtherPc(s, a.i, s', i);
    } else if a.Step? {
      OwnLeaves(s, i, s');
    }
  }

  lemma OwnLeaves(s: State, i: nat, s': State)
    requires StepReady(s, i) && PointOk(s, i) && s' == StepOf(s, i)
    requires InsideWait(s.procs[i].pc) && !InsideWait(s'.procs[i].pc)
    requires s.procs[i].pc.WTake? && s.procs[s.procs[i].pc.k].st == ZOMBIE ==> s.procs[s.procs[i].pc.k].eid !in s.reaps
    ensures s'.procs[i].pc == User
    ensures Reports(s, s', i) || s.procs[i].killed || s.procs[i].pc == WDecide(false)
  {
    if s.procs[i].pc.WTake? {
      assert s'.reaps[s.procs[s.procs[i].pc.k].eid].parent == i;
    }
  }

  /** The step reports to process i an exit that had not been reported. */
  ghost predicate Reports(s: State, s': State, i: nat) {
    exists e :: e in s'.reaps && e !in s.reaps && s'.reaps[e].parent == i
  }

  ghost predicate ZombieChild(s: State, i: nat) {
    exists c: nat :: IsChild(s, i, c) && s.procs[c].st == ZOMBIE
  }

  /** wait returns only when it reports a child that exited (ReapedOnceByParent), when such a child's
      status cannot be copied out, when the process was killed, or when it has no children: none
      when its last scan began and, unless it is init, none during that scan. */
  lemma WaitReturns(ss: seq<State>, acts: seq<Action>, x: nat, i: nat) returns (w: nat)
    requires IsRun(ss, acts) && x + 1 < |ss| && i < |ss[x].procs| == |ss[x + 1].procs|
    requires InsideWait(ss[x].procs[i].pc) && !InsideWait(ss[x + 1].procs[i].pc)
    ensures ss[x + 1].procs[i].pc == User
    ensures || (acts[x] == Step(i) && Reports(ss[x], ss[x + 1], i))
            || (acts[x] == Refuse(i) && ZombieChild(ss[x], i))
            || (acts[x] == Step(i) && ss[x].procs[i].killed)
            || (acts[x] == Step(i) && w <= x && Childless(ss, i, w, x))
  {
    hide Next, Init, Enabled, PointInv, HistInv, LockInv, StateInv, ParentInv, PairInv, Reports, ZombieChild;
    Always(ss, acts, x);
    assert Enabled(ss[x], acts[x]) && ss[x + 1] == Next(ss[x], acts[x]);
    LeavesWait(ss[x], acts[x], ss[x + 1], i);
    w := 0;
    if ss[x].procs[i].pc == WDecide(false) {
      w := ScanBegan(ss, acts, i, x);
      SawNone(ss, i, w, x);
    }
  }

  /** From state w, where a scan begins, to state x. */
  ghost predicate Childless(ss: seq<State>, i: nat, w: nat, x: nat)
    requires x < |ss|
  {
    && (forall y :: w <= y <= x ==> i < |ss[y].procs| && Scanning(ss[y].procs[i].pc))
    && (forall c: nat :: w <= x ==> !IsChild(ss[w], i, c))
    && (i != INIT ==> forall y, c: nat :: w <= y <= x ==> !IsChild(ss[y], i, c))
  }

  lemma SawNone(ss: seq<State>, i: nat, w: nat, x: nat)
    requires ScanSince(ss, i, w, x) && ss[x].procs[i].pc == WDecide(false)
    ensures Childless(ss, i, w, x)
  {
    assert InScan(ss, i, w, w, |ss[x].procs|);
    forall y | w <= y <= x ensures i < |ss[y].procs| == |ss[x].procs| && Scanning(ss[y].procs[i].pc) {
      assert InScan(ss, i, w, y, |ss[x].procs|);
    }
    forall y, c: nat | i != INIT && w <= y <= x ensures !IsChild(ss[y], i, c) {
      assert InScan(ss, i, w, y, |ss[x].procs|);
    }
  }

  // ----- Who sleeps in wait -----

  /** Whoever has seen a child in this scan, or sleeps in wait, has one. */
  ghost predicate HasKids(s: State, i: nat)
    requires i < |s.procs|
  {
    var pc := s.procs[i].pc;
    InWait(pc) || (Scanning(pc) && Kids(pc)) ==> exists c: nat :: IsChild(s, i, c)
  }

  lemma KidsStay(s: State, a: Action, s': State, i: nat)
    requires PointInv(s) && StateInv(s) && Enabled(s, a) && s' == Next(s, a) && i < |s.procs| == |s'.procs|
    requires HasKids(s, i)
    ensures HasKids(s', i)
  {
    var pc, pc' := s.procs[i].pc, s'.procs[i].pc;
    if InWait(pc') || (Scanning(pc') && Kids(pc')) {
      KidsBefore(s, a, s', i);
      var c: nat :| IsChild(s, i, c);
      hide Next, Enabled;
      ChildrenStay(s, a, s', i, c);
    }
  }

  lemma KidsBefore(s: State, a: Action, s': State, i: nat)
    requires PointInv(s) && Enabled(s, a) && s' == Next(s, a) && i < |s.procs| == |s'.procs| && HasKids(s, i)
    requires InWait(s'.procs[i].pc) || (Scanning(s'.procs[i].pc) && Kids(s'.procs[i].pc))
    ensures InsideWait(s.procs[i].pc) && exists c: nat :: IsChild(s, i, c)
  {
    assert PointOk(s, i);
    if s.procs[i].pc.WTake? {
      assert IsChild(s, i, s.procs[i].pc.k);
    }
    hide PointInv;
    if a.Step? {
      hide StepOf;
      if a.i == i { OwnKids(s, i, s'); } else { OtherPc(s, a.i, s', i); }
    }
  }

  lemma OwnKids(s: State, i: nat, s': State)
    requires StepReady(s, i) && s' == StepOf(s, i)
    requires InWait(s'.procs[i].pc) || (Scanning(s'.procs[i].pc) && Kids(s'.procs[i].pc))
    ensures var pc := s.procs[i].pc; InWait(pc) || pc.WTake? || (Scanning(pc) && Kids(pc))
  {
  }

  /** No process sleeps in wait without a child. */
  lemma {:induction false} SleeperHasChild(ss: seq<State>, acts: seq<Action>, x: nat, i: nat)
    requires IsRun(ss, acts) && x < |ss| && i < |ss[x].procs|
    ensures HasKids(ss[x], i)
  {
    hide Next, Enabled, PointInv, StateInv, LockInv, ParentInv, PairInv, HistInv, HasKids;
    if x == 0 {
      NoWaiter(ss[0], i);
    } else {
      hide Init;
      assert Enabled(ss[x - 1], acts[x - 1]) && ss[(x - 1) + 1] == Next(ss[x - 1], acts[x - 1]);
      SameTable(ss[x - 1], acts[x - 1], ss[x]);
      SleeperHasChild(ss, acts, x - 1, i);
      Always(ss, acts, x - 1);
      KidsStay(ss[x - 1], acts[x - 1], ss[x], i);
    }
  }

  lemma NoWaiter(s: State, i: nat)
    requires Init(s) && i < |s.procs|
    ensures HasKids(s, i)
  {
  }
}
