/** A run in which a process sleeps in wait, is woken by its child's exit, and reports it. */
module WaitRun {
  import opened ExitWait

  /** Init, process 1 and its child, process 2, with who holds the locks of the last two. */
  function Three(a: Proc, b: Proc, la: int, lb: int, exits: seq<Exit>, reaps: map<nat, Reap>): State {
    State([Proc(RUNNING, FREE, false, 0, 0, User, 0), a, b], [FREE, la, lb], 3, exits, reaps)
  }

  function Father(st: RunState, pc: Pc): Proc { Proc(st, INIT, false, 0, 1, pc, 0) }

  function Child(st: RunState, pc: Pc): Proc { Proc(st, 1, false, 0, 2, pc, 0) }

  const NOBODY: Proc := Proc(UNUSED, FREE, false, 0, 0, Idle, 0)
  const ZOMBIE7: Exit := Exit(2, 2, 7)

  function Zombie(pc: Pc): Proc { Proc(ZOMBIE, 1, false, 7, 2, pc, 0) }

  /** The father moves while the child is as it is. */
  function Fathers(st: RunState, pc: Pc, b: Proc, la: int, exits: seq<Exit>): State {
    Three(Father(st, pc), b, la, FREE, exits, map[])
  }

  /** The father scans, holding its lock. */
  function Scanning(pc: Pc, b: Proc, exits: seq<Exit>): State { Fathers(RUNNING, pc, b, 1, exits) }

  /** The child moves while the father sleeps in wait. */
  function Childs(pc: Pc, la: int, lb: int): State {
    Three(Father(SLEEPING, WAsleep), Child(RUNNING, pc), la, lb, [], map[])
  }

  /** a leads from s to s'. */
  ghost predicate Leads(s: State, a: Action, s': State) { Enabled(s, a) && Next(s, a) == s' }

  ghost predicate RunTo(ss: seq<State>, acts: seq<Action>, s: State) { IsRun(ss, acts) && ss[|ss| - 1] == s }

  lemma Then(ss: seq<State>, acts: seq<Action>, s: State, a: Action, s': State)
    returns (ss': seq<State>, acts': seq<Action>)
    requires RunTo(ss, acts, s) && Leads(s, a, s')
    ensures RunTo(ss', acts', s') && ss <= ss'
  {
    hide Enabled, Next, Init;
    ss', acts' := ss + [s'], acts + [a];
  }

  /** wait's scan by the father, over init, itself and a child that lives or not. */
  lemma Scan(b: Proc, exits: seq<Exit>)
    requires b.parent == 1
    ensures Leads(Scanning(WScan(0, false), b, exits), Step(1), Scanning(WScan(1, false), b, exits))
    ensures Leads(Scanning(WScan(1, false), b, exits), Step(1), Scanning(WScan(2, false), b, exits))
    ensures Leads(Scanning(WScan(2, false), b, exits), Step(1), Scanning(WTake(2, false), b, exits))
  {
  }

  lemma WaitBegins(b: Proc)
    requires b == Child(RUNNABLE, User)
    ensures && Leads(Fathers(RUNNING, User, b, FREE, []), WaitStart(1), Scanning(WScan(0, false), b, []))
            && Leads(Scanning(WTake(2, false), b, []), Step(1), Scanning(WScan(3, true), b, []))
            && Leads(Scanning(WScan(3, true), b, []), Step(1), Scanning(WDecide(true), b, []))
  {
  }

  /** The child lives, so the father falls asleep. */
  lemma FallAsleep(b: Proc)
    requires b == Child(RUNNABLE, User)
    ensures && Leads(Scanning(WDecide(true), b, []), Step(1), Fathers(SLEEPING, WSwitch, b, 1, []))
            && Leads(Fathers(SLEEPING, WSwitch, b, 1, []), Step(1), Fathers(SLEEPING, WAsleep, b, FREE, []))
            && Leads(Fathers(SLEEPING, WAsleep, b, FREE, []), Dispatch(2), Childs(User, FREE, FREE))
  {
  }

  /** The child enters exit with both locks. */
  lemma ExitBegins()
    ensures && Leads(Childs(User, FREE, FREE), ExitStart(2, 7), Childs(XRead(7), FREE, FREE))
            && Leads(Childs(XRead(7), FREE, FREE), Step(2), Childs(XLockParent(7, 1), FREE, FREE))
            && Leads(Childs(XLockParent(7, 1), FREE, FREE), Step(2), Childs(XLockSelf(7, 1), 2, FREE))
            && Leads(Childs(XLockSelf(7, 1), 2, FREE), Step(2), Childs(XScan(7, 1, 0), 2, 2))
  {
  }

  /** It has no children to give away. */
  lemma GivesNone()
    ensures && Leads(Childs(XScan(7, 1, 0), 2, 2), Step(2), Childs(XScan(7, 1, 1), 2, 2))
            && Leads(Childs(XScan(7, 1, 1), 2, 2), Step(2), Childs(XScan(7, 1, 2), 2, 2))
            && Leads(Childs(XScan(7, 1, 2), 2, 2), Step(2), Childs(XScan(7, 1, 3), 2, 2))
            && Leads(Childs(XScan(7, 1, 3), 2, 2), Step(2), Childs(XWake(7, 1), 2, 2))
  {
  }

  function Woke(b: Proc, la: int, lb: int, exits: seq<Exit>): State {
    Three(Father(RUNNABLE, WAsleep), b, la, lb, exits, map[])
  }

  /** It wakes its father, becomes a zombie and leaves the CPU; the father is scheduled. */
  lemma WakesFather()
    ensures && Leads(Childs(XWake(7, 1), 2, 2), Step(2), Woke(Child(RUNNING, XZombie(7, 1)), 2, 2, []))
            && Leads(Woke(Child(RUNNING, XZombie(7, 1)), 2, 2, []), Step(2), Woke(Zombie(XRelease(1)), 2, 2, [ZOMBIE7]))
            && Leads(Woke(Zombie(XRelease(1)), 2, 2, [ZOMBIE7]), Step(2), Woke(Zombie(XSwitch), FREE, 2, [ZOMBIE7]))
            && Leads(Woke(Zombie(XSwitch), FREE, 2, [ZOMBIE7]), Step(2), Woke(Zombie(Dead), FREE, FREE, [ZOMBIE7]))
            && Leads(Woke(Zombie(Dead), FREE, FREE, [ZOMBIE7]), Dispatch(1),
                     Scanning(WScan(0, false), Zombie(Dead), [ZOMBIE7]))
  {
  }

  lemma Reaps()
    ensures Leads(Scanning(WTake(2, false), Zombie(Dead), [ZOMBIE7]), Step(1),
                  Three(Father(RUNNING, User), NOBODY, FREE, FREE, [ZOMBIE7], map[0 := Reap(1, 2, 2, 7)]))
  {
  }

  function Boot(a: Proc, nextPid: nat): State {
    State([Proc(RUNNING, FREE, false, 0, 0, User, 0), a, NOBODY], [FREE, FREE, FREE], nextPid, [], map[])
  }

  lemma Forks()
    ensures Init(Boot(NOBODY, 1))
    ensures && Leads(Boot(NOBODY, 1), Fork(0, 1), Boot(Father(RUNNABLE, User), 2))
            && Leads(Boot(Father(RUNNABLE, User), 2), Dispatch(1), Boot(Father(RUNNING, User), 2))
            && Leads(Boot(Father(RUNNING, User), 2), Fork(1, 2),
                     Fathers(RUNNING, User, Child(RUNNABLE, User), FREE, []))
  {
  }

  /** From boot to the father asleep in wait. */
  lemma Sleeper() returns (ss: seq<State>, acts: seq<Action>)
    ensures RunTo(ss, acts, Childs(User, FREE, FREE))
  {
    hide Leads, Enabled, Next, Init, Three, Father, Child, Fathers, Scanning, Childs, Boot;
    Forks();
    IsSon();
    var b := Child(RUNNABLE, User);
    WaitBegins(b);
    FallAsleep(b);
    ss, acts := [Boot(NOBODY, 1)], [];
    ss, acts := Then(ss, acts, Boot(NOBODY, 1), Fork(0, 1), Boot(Father(RUNNABLE, User), 2));
    ss, acts := Then(ss, acts, Boot(Father(RUNNABLE, User), 2), Dispatch(1), Boot(Father(RUNNING, User), 2));
    ss, acts := Then(ss, acts, Boot(Father(RUNNING, User), 2), Fork(1, 2), Fathers(RUNNING, User, b, FREE, []));
    ss, acts := Then(ss, acts, Fathers(RUNNING, User, b, FREE, []), WaitStart(1),
                     Scanning(WScan(0, false), b, []));
    ss, acts := Scans(ss, acts, b, []);
    ss, acts := Then(ss, acts, Scanning(WTake(2, false), b, []), Step(1),
                     Scanning(WScan(3, true), b, []));
    ss, acts := Then(ss, acts, Scanning(WScan(3, true), b, []), Step(1),
                     Scanning(WDecide(true), b, []));
    ss, acts := Then(ss, acts, Scanning(WDecide(true), b, []), Step(1), Fathers(SLEEPING, WSwitch, b, 1, []));
    ss, acts := Then(ss, acts, Fathers(SLEEPING, WSwitch, b, 1, []), Step(1), Fathers(SLEEPING, WAsleep, b, FREE, []));
    ss, acts := Then(ss, acts, Fathers(SLEEPING, WAsleep, b, FREE, []), Dispatch(2), Childs(User, FREE, FREE));
  }

  lemma IsSon()
    ensures Child(RUNNABLE, User).parent == 1 && Zombie(Dead).parent == 1
  {
  }

  lemma Scans(ss: seq<State>, acts: seq<Action>, b: Proc, exits: seq<Exit>)
    returns (ss': seq<State>, acts': seq<Action>)
    requires RunTo(ss, acts, Scanning(WScan(0, false), b, exits)) && b.parent == 1
    ensures RunTo(ss', acts', Scanning(WTake(2, false), b, exits)) && ss <= ss'
  {
    hide Leads, Enabled, Next, Init, Three, Father, Fathers, Scanning;
    Scan(b, exits);
    ss', acts' := Then(ss, acts, Scanning(WScan(0, false), b, exits), Step(1),
                       Scanning(WScan(1, false), b, exits));
    ss', acts' := Then(ss', acts', Scanning(WScan(1, false), b, exits), Step(1),
                       Scanning(WScan(2, false), b, exits));
    ss', acts' := Then(ss', acts', Scanning(WScan(2, false), b, exits), Step(1),
                       Scanning(WTake(2, false), b, exits));
  }

  lemma Exits(ss: seq<State>, acts: seq<Action>) returns (ss': seq<State>, acts': seq<Action>)
    requires RunTo(ss, acts, Childs(User, FREE, FREE))
    ensures RunTo(ss', acts', Childs(XWake(7, 1), 2, 2)) && ss <= ss'
  {
    hide Leads, Enabled, Next, Init, Three, Father, Child, Childs;
    ExitBegins();
    GivesNone();
    ss', acts' := Then(ss, acts, Childs(User, FREE, FREE), ExitStart(2, 7), Childs(XRead(7), FREE, FREE));
    ss', acts' := Then(ss', acts', Childs(XRead(7), FREE, FREE), Step(2), Childs(XLockParent(7, 1), FREE, FREE));
    ss', acts' := Then(ss', acts', Childs(XLockParent(7, 1), FREE, FREE), Step(2), Childs(XLockSelf(7, 1), 2, FREE));
    ss', acts' := Then(ss', acts', Childs(XLockSelf(7, 1), 2, FREE), Step(2), Childs(XScan(7, 1, 0), 2, 2));
    ss', acts' := Then(ss', acts', Childs(XScan(7, 1, 0), 2, 2), Step(2), Childs(XScan(7, 1, 1), 2, 2));
    ss', acts' := Then(ss', acts', Childs(XScan(7, 1, 1), 2, 2), Step(2), Childs(XScan(7, 1, 2), 2, 2));
    ss', acts' := Then(ss', acts', Childs(XScan(7, 1, 2), 2, 2), Step(2), Childs(XScan(7, 1, 3), 2, 2));
    ss', acts' := Then(ss', acts', Childs(XScan(7, 1, 3), 2, 2), Step(2), Childs(XWake(7, 1), 2, 2));
  }

  lemma Wakes(ss: seq<State>, acts: seq<Action>) returns (ss': seq<State>, acts': seq<Action>)
    requires RunTo(ss, acts, Childs(XWake(7, 1), 2, 2))
    ensures RunTo(ss', acts', Scanning(WScan(0, false), Zombie(Dead), [ZOMBIE7])) && ss <= ss'
  {
    hide Leads, Enabled, Next, Init, Three, Father, Child, Childs, Fathers, Scanning, Woke, Zombie;
    WakesFather();
    var es := [ZOMBIE7];
    ss', acts' := Then(ss, acts, Childs(XWake(7, 1), 2, 2), Step(2), Woke(Child(RUNNING, XZombie(7, 1)), 2, 2, []));
    ss', acts' := Then(ss', acts', Woke(Child(RUNNING, XZombie(7, 1)), 2, 2, []), Step(2),
                       Woke(Zombie(XRelease(1)), 2, 2, es));
    ss', acts' := Then(ss', acts', Woke(Zombie(XRelease(1)), 2, 2, es), Step(2), Woke(Zombie(XSwitch), FREE, 2, es));
    ss', acts' := Then(ss', acts', Woke(Zombie(XSwitch), FREE, 2, es), Step(2), Woke(Zombie(Dead), FREE, FREE, es));
    ss', acts' := Then(ss', acts', Woke(Zombie(Dead), FREE, FREE, es), Dispatch(1),
                       Scanning(WScan(0, false), Zombie(Dead), es));
  }

  /** In state x the father sleeps in wait with a child that runs. In the run's last step wait
      reports the child, with its pid and status, and returns. */
  lemma SleepsThenReports() returns (ss: seq<State>, acts: seq<Action>, x: nat)
    ensures IsRun(ss, acts) && x < |ss| - 1 && |ss[x].procs| == 3 == |ss[|ss| - 1].procs|
    ensures ss[x].procs[1].st == SLEEPING && InWait(ss[x].procs[1].pc)
    ensures ss[x].procs[2].parent == 1 && ss[x].procs[2].st == RUNNING && ss[x].reaps == map[]
    ensures var s := ss[|ss| - 1]; s.procs[1].pc == User && s.reaps == map[0 := Reap(1, 2, 2, 7)]
  {
    ss, acts := Sleeper();
    x := |ss| - 1;
    var s := ss[x];
    assert s.procs[1].st == SLEEPING && InWait(s.procs[1].pc);
    hide IsRun;
    ss, acts := Exits(ss, acts);
    ss, acts := Wakes(ss, acts);
    IsSon();
    ss, acts := Scans(ss, acts, Zombie(Dead), [ZOMBIE7]);
    Reaps();
    ss, acts := Then(ss, acts, Scanning(WTake(2, false), Zombie(Dead), [ZOMBIE7]), Step(1),
                     Three(Father(RUNNING, User), NOBODY, FREE, FREE, [ZOMBIE7], map[0 := Reap(1, 2, 2, 7)]));
    assert ss[x] == s;
  }
}
