/** What a log area of the wrong size costs: recovery, and operations that keep their bound. */
module LogLimits {
  import opened Params
  import opened RedoLog
  import opened LogProtocol
  import opened LogInvariant
  import opened LogTheorems
  import opened LogSize

  // ----- When recovery yields the committed groups -----

  /** A crash here, and any number of crashes in recovery, lead to what the committed groups wrote. */
  ghost predicate Refines(s: State, cuts: seq<nat>) {
    && LogOk(s.l, s.disk)
    && var e := BootAfterCrashes(s.l, s.disk, cuts); var golden := Replay(s.hist.init, Flatten(s.hist.done));
       && |golden| == |e.blocks| == |s.disk.blocks|
       && forall b :: IsHome(s.l, s.disk, b) ==> e.blocks[b] == golden[b]
  }

  ghost predicate AlwaysRefines(l: Layout) {
    forall ss: seq<State>, acts: seq<Action>, i: nat, cuts: seq<nat> ::
      IsBehaviour(ss, acts) && ss[0].l == l && i < |ss| ==> Refines(ss[i], cuts)
  }

  /** write_log has copied the first t announced blocks. */
  ghost predicate Writing(s: State, l: Layout, t: nat) {
    && s.reading == {} && s.l == l && s.phase == WriteLog(t) && t <= l.nlog <= LOGSIZE && s.lh == Homes(l, l.nlog)
    && s.hist.init == Blocks(l) && s.hist.done == [] && s.hist.current == []
    && s.disk.head == [] && |s.disk.blocks| == |Blocks(l)|
    && (forall i :: 0 <= i < l.nlog ==> View(s, Home(l, i)) == Contents([Home(l, i)]))
    && (t == l.nlog && t > 0 ==>
          && s.disk.blocks[l.start + l.nlog] == Contents([Home(l, l.nlog - 1)])
          && View(s, l.start + l.nlog) == Contents([Home(l, l.nlog - 1)]))
  }

  lemma WriteOne(s: State, l: Layout, t: nat)
    requires Writing(s, l, t) && t < l.nlog <= LOGSIZE
    ensures Enabled(s, Advance) && Writing(Next(s, Advance), l, t + 1)
  {
    assert View(s, Home(l, t)) == Contents([Home(l, t)]);
  }

  lemma {:induction false} WriteMany(ss: seq<State>, acts: seq<Action>, l: Layout, t: nat)
    returns (ss': seq<State>, acts': seq<Action>)
    requires IsBehaviour(ss, acts) && Writing(ss[|ss| - 1], l, t) && l.nlog <= LOGSIZE
    ensures IsBehaviour(ss', acts') && ss'[0] == ss[0] && Writing(ss'[|ss'| - 1], l, l.nlog)
    decreases l.nlog - t
  {
    hide Enabled, Next, Writing;
    if t == l.nlog {
      ss', acts' := ss, acts;
    } else {
      WriteStops(ss[|ss| - 1], l, t);
      WriteOne(ss[|ss| - 1], l, t);
      ss', acts' := Extend(ss, acts, Advance);
      ss', acts' := WriteMany(ss', acts', l, t + 1);
    }
  }

  lemma WriteStops(s: State, l: Layout, t: nat)
    requires Writing(s, l, t)
    ensures t <= l.nlog
  {
  }

  /** The two buffers are released and the three operations end: the commit begins. */
  lemma LetGo(s: State, l: Layout, p: nat, q: nat)
    requires 2 <= l.nlog <= LOGSIZE && Overrun(s, l) && p < 3 && q < 3 && p != q
    requires s.holder == map[Home(l, l.nlog - 2) := p, Home(l, l.nlog - 1) := q]
    ensures var b, c := Home(l, l.nlog - 2), Home(l, l.nlog - 1);
            && Enabled(s, Release(p, b)) && Enabled(Next(s, Release(p, b)), Release(q, c))
            && Overrun(Next(Next(s, Release(p, b)), Release(q, c)), l)
            && Next(Next(s, Release(p, b)), Release(q, c)).holder == map[]
  {
    assert Home(l, l.nlog - 2) != Home(l, l.nlog - 1);
    assert s.holder - {Home(l, l.nlog - 2)} - {Home(l, l.nlog - 1)} == map[];
  }

  lemma AllEnd(s: State, l: Layout)
    requires 2 <= l.nlog <= LOGSIZE && Overrun(s, l) && s.holder == map[]
    ensures Enabled(s, End(0)) && Enabled(EndOp(s, 0), End(1)) && Enabled(EndOp(EndOp(s, 0), 1), End(2))
    ensures Writing(EndOp(EndOp(EndOp(s, 0), 1), 2), l, 0)
  {
  }

  /** The last copy of an overrun log lands in the block behind the area. */
  lemma Corrupts(l: Layout) returns (ss: seq<State>, acts: seq<Action>)
    requires 2 <= l.nlog <= LOGSIZE
    ensures IsBehaviour(ss, acts) && ss[0].l == l && Writing(ss[|ss| - 1], l, l.nlog)
  {
    hide Enabled, Next, Writing, Overrun;
    var p, q;
    ss, acts, p, q := Overruns(l);
    LetGo(ss[|ss| - 1], l, p, q);
    ss, acts := ExtendTwo(ss, acts, Release(p, Home(l, l.nlog - 2)), Release(q, Home(l, l.nlog - 1)));
    AllEnd(ss[|ss| - 1], l);
    ss, acts := EndAll(ss, acts);
    ss, acts := WriteMany(ss, acts, l, 0);
  }

  lemma EndAll(ss: seq<State>, acts: seq<Action>) returns (ss': seq<State>, acts': seq<Action>)
    requires IsBehaviour(ss, acts)
    requires var s := ss[|ss| - 1];
             Enabled(s, End(0)) && Enabled(EndOp(s, 0), End(1)) && Enabled(EndOp(EndOp(s, 0), 1), End(2))
    ensures IsBehaviour(ss', acts') && ss'[0] == ss[0] && ss'[|ss'| - 1] == EndOp(EndOp(EndOp(ss[|ss| - 1], 0), 1), 2)
  {
    ss', acts' := ExtendTwo(ss, acts, End(0), End(1));
    ss', acts' := Extend(ss', acts', End(2));
  }

  lemma CorruptedState(s: State, l: Layout)
    requires 2 <= l.nlog && Writing(s, l, l.nlog)
    ensures !Refines(s, [])
  {
    if LogOk(s.l, s.disk) {
      CrashesInRecovery(s.l, s.disk, []);
      var b := l.start + l.nlog;
      assert IsHome(s.l, s.disk, b);
      assert Recovered(s.l, s.disk, b) == s.disk.blocks[b] == Contents([Home(l, l.nlog - 1)]);
      assert Replay(s.hist.init, Flatten(s.hist.done))[b] == Contents([b]);
      assert Contents([b]).words != Contents([Home(l, l.nlog - 1)]).words;
    }
  }

  lemma StarvedRefines(s: State, s0: State, cuts: seq<nat>)
    requires Init(s0) && s.l == s0.l && Starved(s, s0)
    ensures Refines(s, cuts)
  {
    CrashesInRecovery(s.l, s.disk, cuts);
  }

  /** In every behaviour, a crash at any point recovers to the committed groups exactly when the
      log area has more than LOGSIZE blocks, or a single one. With the LOGSIZE blocks that mkfs
      lays out, there is a behaviour in which a commit overwrites the first inode block. */
  lemma RefinesIff(l: Layout)
    requires 1 <= l.nlog
    ensures AlwaysRefines(l) <==> l.nlog >= LOGSIZE + 1 || l.nlog == 1
  {
    hide Enabled, Next, Writing, Refines;
    if l.nlog >= LOGSIZE + 1 || l.nlog == 1 {
      forall ss: seq<State>, acts: seq<Action>, i: nat, cuts: seq<nat>
          | IsBehaviour(ss, acts) && ss[0].l == l && i < |ss|
        ensures Refines(ss[i], cuts)
      {
        SameLayout(ss, acts, i);
        if l.nlog == 1 {
          OneBlockLog(ss, acts, i);
          StarvedRefines(ss[i], ss[0], cuts);
        } else {
          RecoveredIsCommittedGroups(ss, acts, i, cuts);
          GroupsRefine(ss[i], cuts);
        }
      }
    } else {
      var ss, acts := Corrupts(l);
      CorruptedState(ss[|ss| - 1], l);
    }
  }

  lemma GroupsRefine(s: State, cuts: seq<nat>)
    requires LogOk(s.l, s.disk)
    requires var e := BootAfterCrashes(s.l, s.disk, cuts); var golden := Replay(s.hist.init, Flatten(s.hist.done));
             && |golden| == |e.blocks| == |s.disk.blocks|
             && forall b :: IsHome(s.l, s.disk, b) ==> e.blocks[b] == golden[b]
    ensures Refines(s, cuts)
  {
  }

  // ----- When bread returns the last value stored -----

  ghost predicate ReadsRight(s: State) {
    !Recovering(s.phase) ==>
      var now := Replay(s.hist.init, Flatten(s.hist.done) + s.hist.current);
      forall b :: IsHome(s.l, s.disk, b) ==> b < |now| && View(s, b) == now[b]
  }

  ghost predicate AlwaysReads(l: Layout) {
    forall ss: seq<State>, acts: seq<Action>, i: nat ::
      IsBehaviour(ss, acts) && ss[0].l == l && i < |ss| ==> ReadsRight(ss[i])
  }

  /** One block when nothing is ever logged: what was stored stays in its held buffer. */
  ghost predicate BlockHeld(s: State, b: nat)
    requires b < |s.disk.blocks| && |s.hist.cur| == |s.disk.blocks|
  {
    if b in s.dirty then b in s.holder && b in s.cache && s.cache[b] == s.hist.cur[b]
    else s.hist.cur[b] == s.disk.blocks[b] && (b in s.cache ==> s.cache[b] == s.disk.blocks[b])
  }

  ghost predicate HeldOnly(s: State, s0: State) {
    && Starved(s, s0) && |s.hist.cur| == |s.hist.com| == |s.disk.blocks|
    && (forall b :: b in s.holder ==> IsHome(s.l, s.disk, b))
    && (forall b :: IsHome(s.l, s.disk, b) ==> s.hist.com[b] == s.disk.blocks[b])
    && (forall b {:trigger BlockHeld(s, b)} :: IsHome(s.l, s.disk, b) ==> BlockHeld(s, b))
  }

  lemma StarvedStep(s: State, s0: State)
    requires Starved(s, s0)
    ensures Step(s) == s.(phase := Step(s).phase, committing := Step(s).committing)
  {
  }

  lemma KeepBlockHeld(s: State, a: Action, s': State, s0: State, b: nat)
    requires HeldOnly(s, s0) && Enabled(s, a) && s' == Next(s, a) && IsHome(s.l, s.disk, b)
    requires Starved(s', s0) && |s'.hist.cur| == |s'.disk.blocks|
    ensures BlockHeld(s', b)
  {
    hide Step;
    StarvedStep(s, s0);
    assert BlockHeld(s, b);
  }

  lemma KeepHeldFrame(s: State, a: Action, s': State, s0: State)
    requires HeldOnly(s, s0) && Enabled(s, a) && s' == Next(s, a)
    ensures Starved(s', s0) && |s'.hist.cur| == |s'.hist.com| == |s'.disk.blocks|
    ensures s'.l == s.l && s'.disk == s.disk && s'.hist.com == s.hist.com
    ensures forall b :: b in s'.holder ==> IsHome(s.l, s.disk, b)
  {
    hide Next, Enabled, BlockHeld;
    StaysStarved(s, a, s0);
    HeldHistory(s, a, s', s0);
  }

  lemma HeldHistory(s: State, a: Action, s': State, s0: State)
    requires HeldOnly(s, s0) && Enabled(s, a) && s' == Next(s, a)
    ensures |s'.hist.cur| == |s'.hist.com| && s'.hist.com == s.hist.com && s'.l == s.l
    ensures forall b :: b in s'.holder ==> IsHome(s.l, s.disk, b)
  {
    hide Step, BlockHeld;
    StarvedStep(s, s0);
  }

  lemma KeepHeld(s: State, a: Action, s': State, s0: State)
    requires HeldOnly(s, s0) && Enabled(s, a) && s' == Next(s, a)
    ensures HeldOnly(s', s0)
  {
    hide Enabled, Next, BlockHeld;
    KeepHeldFrame(s, a, s', s0);
    forall b {:trigger BlockHeld(s', b)} | IsHome(s.l, s.disk, b) ensures BlockHeld(s', b) {
      KeepBlockHeld(s, a, s', s0, b);
    }
  }

  lemma InitHeld(s: State)
    requires Init(s) && s.l.nlog == 1
    ensures HeldOnly(s, s) && ReplayInv(s.hist) && OpsInv(s)
  {
    assert forall o: nat :: SettledAt(s.hist, o);
  }

  lemma {:induction false} AlwaysHeld(ss: seq<State>, acts: seq<Action>, i: nat)
    requires IsBehaviour(ss, acts) && ss[0].l.nlog == 1 && i < |ss|
    ensures HeldOnly(ss[i], ss[0]) && ReplayInv(ss[i].hist) && OpsInv(ss[i])
  {
    hide Enabled, Next, Init, Loose, HeldOnly, ReplayInv, OpsInv;
    if i == 0 {
      InitHeld(ss[0]);
    } else {
      AlwaysHeld(ss, acts, i - 1);
      AlwaysLoose(ss, acts, i - 1);
      HeldSizes(ss[i - 1], ss[0]);
      KeepHeld(ss[i - 1], acts[i - 1], ss[i], ss[0]);
      KeepHistory(ss[i - 1], acts[i - 1], ss[i]);
    }
  }

  lemma HeldSizes(s: State, s0: State)
    requires HeldOnly(s, s0) && Loose(s)
    ensures |s.hist.com| == |s.hist.cur| && (!s.phase.Running? ==> Quiet(s))
  {
  }

  lemma HeldReads(s: State, s0: State)
    requires HeldOnly(s, s0) && ReplayInv(s.hist)
    ensures ReadsRight(s)
  {
    ReplayConcat(s.hist.init, Flatten(s.hist.done), s.hist.current);
    forall b | IsHome(s.l, s.disk, b) ensures View(s, b) == s.hist.cur[b] {
      assert BlockHeld(s, b);
    }
  }

  lemma CorruptedRead(s: State, l: Layout)
    requires 2 <= l.nlog && Writing(s, l, l.nlog)
    ensures !ReadsRight(s)
  {
    var b := l.start + l.nlog;
    assert IsHome(s.l, s.disk, b);
    assert Flatten(s.hist.done) + s.hist.current == [];
    assert Replay(s.hist.init, [])[b] == Contents([b]);
    assert Contents([b]).words != Contents([Home(l, l.nlog - 1)]).words;
  }

  /** While the machine is up, bread of every home block returns the last value stored in it, in
      every behaviour exactly for the same sizes of the area. */
  lemma ReadsIff(l: Layout)
    requires 1 <= l.nlog
    ensures AlwaysReads(l) <==> l.nlog >= LOGSIZE + 1 || l.nlog == 1
  {
    hide Enabled, Next, Writing, ReadsRight, HeldOnly, ReplayInv, OpsInv;
    if l.nlog >= LOGSIZE + 1 || l.nlog == 1 {
      forall ss: seq<State>, acts: seq<Action>, i: nat | IsBehaviour(ss, acts) && ss[0].l == l && i < |ss|
        ensures ReadsRight(ss[i])
      {
        if l.nlog == 1 {
          AlwaysHeld(ss, acts, i);
          HeldReads(ss[i], ss[0]);
        } else {
          LargeReads(ss, acts, i);
        }
      }
    } else {
      var ss, acts := Corrupts(l);
      CorruptedRead(ss[|ss| - 1], l);
    }
  }

  lemma LargeReads(ss: seq<State>, acts: seq<Action>, i: nat)
    requires IsBehaviour(ss, acts) && ss[0].l.nlog >= LOGSIZE + 1 && i < |ss|
    ensures ReadsRight(ss[i])
  {
    hide IsBehaviour;
    var s := ss[i];
    if !Recovering(s.phase) {
      forall b | IsHome(s.l, s.disk, b)
        ensures var now := Replay(s.hist.init, Flatten(s.hist.done) + s.hist.current);
                b < |now| && View(s, b) == now[b]
      {
        ReadsSeeLastStore(ss, acts, i, b);
      }
    }
  }

  // ----- When log_write's test passes -----

  /** What keeps the reservation whatever the size of the area. */
  ghost predicate Loose(s: State) {
    && BudgetInv(s) && s.committing == Committing(s.phase) && (s.phase != Phase.Running ==> Quiet(s))
    && |s.disk.head| <= LOGSIZE && (s.phase.Install? ==> s.phase.tail <= |s.lh|)
  }

  lemma LooseBegin(s: State, p: nat)
    requires Loose(s) && Enabled(s, Begin(p))
    ensures Loose(BeginOp(s, p))
  {
    UpdateProc(s.procs, p, BeginOp(s, p).procs[p]);
    UnspentBounds(s.procs);
  }

  lemma LooseEnd(s: State, p: nat, s': State)
    requires Loose(s) && InOpAt(s, p) && s' == EndOp(s, p)
    ensures Loose(s')
  {
    UpdateProc(s.procs, p, Outside);
    UnspentBounds(s.procs);
    UnspentBounds(s'.procs);
  }

  lemma LooseAdvance(s: State, s': State)
    requires Loose(s) && s.phase != Phase.Running && s' == Step(s)
    ensures Loose(s')
  {
    UnspentBounds(s.procs);
    StepShape(s, s');
    hide Step;
  }

  /** commit and recovery leave processes alone and write no longer list than they have. */
  lemma StepShape(s: State, s': State)
    requires s' == Step(s) && s.committing == Committing(s.phase) && s.phase != Phase.Running
    ensures s'.procs == s.procs && s'.outstanding == s.outstanding && s'.committing == Committing(s'.phase)
    ensures s'.lh == s.lh || s'.lh == [] || s'.lh == s.disk.head
    ensures s'.disk.head == s.disk.head || s'.disk.head == [] || s'.disk.head == s.lh
    ensures s.committing && s'.lh != s.lh ==> s.phase.Install? && s.phase.tail >= |s.lh| && s'.lh == []
    ensures (s.phase.Install? ==> s.phase.tail <= |s.lh|) ==> (s'.phase.Install? ==> s'.phase.tail <= |s'.lh|)
  {
  }

  lemma KeepLoose(s: State, a: Action)
    requires Loose(s) && Enabled(s, a)
    ensures Loose(Next(s, a))
  {
    match a
    case Begin(p) => LooseBegin(s, p);
    case Append(p, b) => AppendBudget(s, p, b, LogAppend(s, p, b));
    case End(p) => LooseEnd(s, p, EndOp(s, p));
    case Advance => LooseAdvance(s, Step(s));
    case Crash => UnspentBounds(CrashNow(s).procs);
    case _ =>
  }

  lemma {:induction false} AlwaysLoose(ss: seq<State>, acts: seq<Action>, i: nat)
    requires IsBehaviour(ss, acts) && i < |ss|
    ensures Loose(ss[i])
  {
    if i == 0 {
      UnspentBounds(ss[0].procs);
    } else {
      hide Init, Next, Enabled, Loose;
      AlwaysLoose(ss, acts, i - 1);
      assert ss[(i - 1) + 1] == Next(ss[i - 1], acts[i - 1]);
      KeepLoose(ss[i - 1], acts[i - 1]);
    }
  }

  /** Reservation and group commit, whatever the size of the area: in every state the log header
      and the unspent budgets of the running operations fit in LOGSIZE together, so that the block
      that log_write appends has room in lh, even between its unlocked test and its append; a
      commit finds no operation running, and only its last step, which resets lh, changes lh. */
  lemma Reservation(ss: seq<State>, acts: seq<Action>, i: nat)
    requires IsBehaviour(ss, acts) && i < |ss|
    ensures var s := ss[i];
            && |s.lh| + TotalUnspent(s.procs) <= LOGSIZE
            && (s.committing ==> s.outstanding == 0 && Quiet(s))
            && (forall p, b :: Enabled(s, Append(p, b)) && b !in s.lh ==> |s.lh| < LOGSIZE)
            && (i < |acts| && s.committing && acts[i] != Crash ==>
                  ss[i + 1].lh == s.lh || (s.phase == Install(|s.lh|) && ss[i + 1].lh == []))
  {
    AlwaysLoose(ss, acts, i);
    var s := ss[i];
    UnspentBounds(s.procs);
    forall p, b | Enabled(s, Append(p, b)) && b !in s.lh ensures |s.lh| < LOGSIZE {
      AppendInBounds(s, p, b);
    }
    if i < |acts| && s.committing && acts[i] != Crash {
      assert Enabled(s, acts[i]) && ss[i + 1] == Next(s, acts[i]);
      FrozenHeader(s, acts[i]);
    }
  }

  lemma FrozenHeader(s: State, a: Action)
    requires Loose(s) && s.committing && Enabled(s, a) && a != Crash
    ensures Next(s, a).lh == s.lh || (s.phase == Install(|s.lh|) && Next(s, a).lh == [])
  {
    if a.Advance? {
      StepShape(s, Step(s));
      hide Step;
    }
  }

  /** In every behaviour, an operation that has logged at most k blocks gets past log_write's
      test with any buffer it holds. */
  ghost predicate AlwaysPasses(l: Layout, k: nat) {
    forall ss: seq<State>, acts: seq<Action>, i: nat, p: nat, b: nat ::
      IsBehaviour(ss, acts) && ss[0].l == l && i < |ss| && Passing(ss[i], p, b, k) ==> Enabled(ss[i], Check(p, b))
  }

  predicate Passing(s: State, p: nat, b: nat, k: nat) { Holds(s, p, b) && |s.procs[p].logged| <= k }

  lemma Passes(s: State, p: nat, b: nat, k: nat)
    requires Loose(s) && Passing(s, p, b, k) && k < MAXOPBLOCKS && 2 * MAXOPBLOCKS + k + 1 < s.l.nlog
    ensures Enabled(s, Check(p, b))
  {
    UnspentBounds(s.procs);
  }

  /** The two other operations spend their budgets first; process 0 then finds the log full. */
  lemma Panics(l: Layout, k: nat) returns (ss: seq<State>, acts: seq<Action>, b: nat)
    requires 1 <= l.nlog && k <= MAXOPBLOCKS && (k == MAXOPBLOCKS || l.nlog <= 2 * MAXOPBLOCKS + k + 1)
    ensures IsBehaviour(ss, acts) && ss[0].l == l
    ensures Passing(ss[|ss| - 1], 0, b, k) && !Enabled(ss[|ss| - 1], Check(0, b))
  {
    var t := if l.nlog - 1 < LOGSIZE then l.nlog - 1 else LOGSIZE;
    ss, acts := LogMany(l, ZeroLast, t);
    QuotaZeroLast(t);
    b := Home(l, t);
    ss, acts := Extend(ss, acts, Acquire(0, b));
  }

  /** log_write never panics on an operation that has logged at most k blocks exactly when k is
      less than MAXOPBLOCKS and the area has more than 2 * MAXOPBLOCKS + k + 1 blocks. So an
      operation that stays within its bound can panic: with its last block logged, by logging
      any of its blocks again, whatever the area; and with the LOGSIZE blocks that mkfs lays
      out, already on its last new block. */
  lemma PassesIff(l: Layout, k: nat)
    requires 1 <= l.nlog && k <= MAXOPBLOCKS
    ensures AlwaysPasses(l, k) <==> k < MAXOPBLOCKS && 2 * MAXOPBLOCKS + k + 1 < l.nlog
  {
    hide Loose, Enabled, Passing;
    if k < MAXOPBLOCKS && 2 * MAXOPBLOCKS + k + 1 < l.nlog {
      forall ss: seq<State>, acts: seq<Action>, i: nat, p: nat, b: nat |
        IsBehaviour(ss, acts) && ss[0].l == l && i < |ss| && Passing(ss[i], p, b, k)
        ensures Enabled(ss[i], Check(p, b))
      {
        SameLayout(ss, acts, i);
        AlwaysLoose(ss, acts, i);
        Passes(ss[i], p, b, k);
      }
    } else {
      var ss, acts, b := Panics(l, k);
      assert Passing(ss[|ss| - 1], 0, b, k) && !Enabled(ss[|ss| - 1], Check(0, b));
    }
  }

  /** The panic needs no new block: with the log full, logging a block again that would be
      absorbed stops an operation that has logged no more than MAXOPBLOCKS blocks. */
  lemma AbsorbedWritePanics(l: Layout) returns (ss: seq<State>, acts: seq<Action>, b: nat)
    requires LOGSIZE + 1 <= l.nlog
    ensures IsBehaviour(ss, acts) && ss[0].l == l
    ensures var s := ss[|ss| - 1]; Holds(s, 0, b) && b in s.lh && b in s.procs[0].logged && !Enabled(s, Check(0, b))
  {
    ss, acts := LogMany(l, ZeroLast, LOGSIZE);
    var s := ss[|ss| - 1];
    QuotaZeroLast(LOGSIZE);
    Always(ss, acts, |ss| - 1);
    b :| b in s.procs[0].logged;
    assert b in s.lh;
    InLog(l, b, LOGSIZE);
    ss, acts := Extend(ss, acts, Acquire(0, b));
  }

  lemma InLog(l: Layout, b: nat, k: nat)
    requires b in Homes(l, k)
    ensures l.start + l.nlog < b < Home(l, k)
  {
  }
}
