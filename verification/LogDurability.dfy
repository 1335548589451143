/** Group commit does commit: whenever the machine is up and no operation runs, nothing stored is
    left to be committed. So a system call that has returned while no other one was inside is on
    the disk for good. The part about the history holds whatever the size of the log area. */
module LogDurability {
  import opened Params
  import opened RedoLog
  import opened LogProtocol
  import opened LogInvariant
  import opened LogTheorems
  import opened LogLimits
  import CrashConsistency

  // ----- Nothing is left behind -----

  /** Stores that are not committed are in lh or in a held buffer. With no operation running lh is
      empty, or a commit is on its way. */
  ghost predicate PendingInv(s: State) {
    && s.dirty <= s.holder.Keys && (forall b :: b in s.holder ==> InOpAt(s, s.holder[b]))
    && (forall e :: e in s.hist.current ==> e.b in s.lh || e.b in s.dirty)
    && (s.phase.Running? && Quiet(s) ==> s.lh == [])
    && (s.phase.Boot? || s.phase.ClearHead? || s.phase.Finish? || s.phase.RecClear? ==> s.lh == [])
    && (s.phase.Running? || s.phase.WriteLog? || s.phase.CommitHead? || s.hist.current == [])
  }

  /** An operation that runs has not ended, and is one process's. */
  ghost predicate ApartInv(s: State) {
    && (forall o :: o in s.hist.ended ==> o < s.hist.nextOp)
    && (forall p: nat :: InOpAt(s, p) ==> s.procs[p].op < s.hist.nextOp && s.procs[p].op !in s.hist.ended)
    && (forall p: nat, q: nat :: InOpAt(s, p) && InOpAt(s, q) && s.procs[p].op == s.procs[q].op ==> p == q)
  }

  ghost predicate Kept(s: State) {
    && Loose(s) && PendingInv(s) && ApartInv(s) && |s.hist.com| == |s.hist.cur| && ReplayInv(s.hist) && OpsInv(s)
  }

  /** Without operations nobody holds a buffer, and with lh empty nothing waits to be committed. */
  lemma NothingPending(s: State)
    requires PendingInv(s) && Quiet(s) && s.lh == []
    ensures s.dirty == {} && s.hist.current == []
  {
    assert forall b :: b in s.dirty ==> b in s.holder;
    Head(s.hist.current);
  }

  lemma Head(es: seq<Entry>)
    ensures es == [] || es[0] in es
  {
  }

  lemma PendingEnd(s: State, p: nat, s': State)
    requires PendingInv(s) && Loose(s) && Enabled(s, End(p)) && s' == EndOp(s, p)
    ensures PendingInv(s')
  {
    UpdateProc(s.procs, p, Outside);
    UnspentBounds(s'.procs);
    assert forall b :: b in s.holder ==> InOpAt(s', s.holder[b]);
    if s'.phase == Phase.Finish {
      assert forall b :: b in s.dirty ==> b in s.holder;
      Head(s.hist.current);
    }
  }

  lemma PendingAdvance(s: State, s': State)
    requires PendingInv(s) && !s.phase.Running? && Quiet(s) && s' == Step(s)
    ensures PendingInv(s')
  {
  }

  lemma PendingStore(s: State, p: nat, b: nat, data: Contents, s': State)
    requires PendingInv(s) && Holds(s, p, b) && s.phase.Running? && s' == StoreBlock(s, p, b, data)
    ensures PendingInv(s')
  {
    assert s'.procs == s.procs && !Quiet(s);
  }

  lemma PendingLocal(s: State, a: Action, s': State)
    requires PendingInv(s) && Loose(s) && Enabled(s, a) && s' == Next(s, a)
    requires a.Begin? || a.Acquire? || a.Check? || a.Append? || a.Release?
    ensures PendingInv(s')
  {
    assert s.phase.Running?;
    assert !Quiet(s') by { assert s'.procs[a.p].InOp?; }
  }

  lemma KeepPending(s: State, a: Action, s': State)
    requires PendingInv(s) && Loose(s) && Enabled(s, a) && s' == Next(s, a)
    ensures PendingInv(s')
  {
    match a
    case Store(p, b, data) =>
      assert s.phase.Running?;
      PendingStore(s, p, b, data, s');
    case End(p) => PendingEnd(s, p, s');
    case Advance => PendingAdvance(s, s');
    case Begin(_) => PendingLocal(s, a, s');
    case Acquire(_, _) => PendingLocal(s, a, s');
    case Check(_, _) => PendingLocal(s, a, s');
    case Append(_, _) => PendingLocal(s, a, s');
    case Release(_, _) => PendingLocal(s, a, s');
    case _ =>
  }

  /** A step of commit or recovery leaves the history alone, or commits the group. */
  lemma StepHistory(s: State, s': State)
    requires s' == Step(s)
    ensures s'.procs == s.procs
    ensures s'.hist == s.hist
            || s'.hist == s.hist.(done := s.hist.done + [s.hist.current], current := [], com := s.hist.cur,
                                  base := s.hist.nextOp)
  {
  }

  lemma SameOps(s: State, s': State)
    requires ApartInv(s) && s'.hist.ended == s.hist.ended && s'.hist.nextOp == s.hist.nextOp
    requires forall p: nat :: InOpAt(s', p) ==> InOpAt(s, p) && s'.procs[p].op == s.procs[p].op
    ensures ApartInv(s')
  {
  }

  lemma KeepApart(s: State, a: Action, s': State)
    requires ApartInv(s) && Enabled(s, a) && s' == Next(s, a)
    ensures ApartInv(s')
  {
    hide Step;
    if a == Advance {
      StepHistory(s, s');
    } else if !a.Begin? && !a.End? {
      hide ApartInv;
      SameOps(s, s');
    }
  }

  lemma SameSize(s: State, a: Action, s': State)
    requires |s.hist.com| == |s.hist.cur| && Enabled(s, a) && s' == Next(s, a)
    ensures |s'.hist.com| == |s'.hist.cur|
  {
  }

  lemma InitKept(s: State)
    requires Init(s)
    ensures Kept(s)
  {
    UnspentBounds(s.procs);
    assert forall o: nat :: SettledAt(s.hist, o);
  }

  lemma LooseQuiet(s: State)
    requires Loose(s)
    ensures !s.phase.Running? ==> Quiet(s)
    ensures s.outstanding == 0 <==> Quiet(s)
  {
    UnspentBounds(s.procs);
  }

  lemma KeepKept(s: State, a: Action, s': State)
    requires Kept(s) && Enabled(s, a) && s' == Next(s, a)
    ensures Kept(s')
  {
    hide Enabled, Next, Loose, PendingInv, ApartInv, ReplayInv, OpsInv;
    LooseQuiet(s);
    KeepLoose(s, a);
    KeepApart(s, a, s');
    KeepPending(s, a, s');
    SameSize(s, a, s');
    KeepHistory(s, a, s');
  }

  lemma {:induction false} AlwaysKept(ss: seq<State>, acts: seq<Action>, i: nat)
    requires IsBehaviour(ss, acts) && i < |ss|
    ensures Kept(ss[i])
  {
    hide Enabled, Next, Init, Kept;
    if i == 0 {
      InitKept(ss[0]);
    } else {
      AlwaysKept(ss, acts, i - 1);
      assert ss[(i - 1) + 1] == Next(ss[i - 1], acts[i - 1]);
      KeepKept(ss[i - 1], acts[i - 1], ss[i]);
    }
  }

  /** Whenever the machine is up and no operation runs, lh is empty and every store made and not
      lost in a crash is in a committed group. */
  lemma QuietIsCommitted(ss: seq<State>, acts: seq<Action>, i: nat)
    requires IsBehaviour(ss, acts) && i < |ss| && ss[i].phase == Phase.Running && ss[i].outstanding == 0
    ensures ss[i].lh == [] && ss[i].hist.current == []
  {
    AlwaysKept(ss, acts, i);
    LooseQuiet(ss[i]);
    NothingPending(ss[i]);
  }

  // ----- Operations that ended -----

  /** All of the operation's stores are in the committed groups. */
  ghost predicate Committed(h: History, o: nat) { Of(Flatten(h.done), o) == Of(h.issued, o) }

  /** The operation has ended, and is committed or will be with the current group. */
  ghost predicate Ended(h: History, o: nat) { o in h.ended && (o >= h.base || Committed(h, o)) }

  lemma StillEnded(s: State, a: Action, s': State, o: nat)
    requires OpsInv(s) && Enabled(s, a) && s' == Next(s, a) && Ended(s.hist, o) && a != Crash
    ensures Ended(s'.hist, o)
  {
    hide Step;
    assert SettledAt(s.hist, o);
    if a == Advance {
      StepHistory(s, s');
      CommitMore(s.hist, o);
    } else if a.Store? {
      OfConcat(s.hist.issued, [Entry(s.procs[a.p].op, a.b, a.data)], o);
    } else {
      hide OpsInv, SettledAt;
    }
  }

  lemma CommitMore(h: History, o: nat)
    ensures Of(Flatten(h.done + [h.current]), o) == Of(Flatten(h.done), o) + Of(h.current, o)
  {
    FlattenSnoc(h.done, h.current);
    OfConcat(Flatten(h.done), h.current, o);
  }

  /** How an action changes the history, as far as committed operations are concerned. */
  lemma HistoryChange(s: State, a: Action, s': State)
    requires Enabled(s, a) && s' == Next(s, a)
    ensures s.hist.ended <= s'.hist.ended
    ensures if a.Store? then
              InOpAt(s, a.p) && s'.hist.issued == s.hist.issued + [Entry(s.procs[a.p].op, a.b, a.data)]
            else s'.hist.issued == s.hist.issued
    ensures s'.hist.done == s.hist.done || s'.hist.done == s.hist.done + [s.hist.current]
  {
    hide Step;
    if a == Advance { StepHistory(s, s'); }
  }

  /** What has ended and is committed stays so, whatever crashes. */
  lemma StillCommitted(s: State, a: Action, s': State, o: nat)
    requires OpsInv(s) && ApartInv(s) && Enabled(s, a) && s' == Next(s, a) && Committed(s.hist, o) && o in s.hist.ended
    ensures Committed(s'.hist, o) && o in s'.hist.ended
  {
    hide Enabled, Next, Of, Flatten;
    HistoryChange(s, a, s');
    assert SettledAt(s.hist, o);
    CommitMore(s.hist, o);
    assert Of(Flatten(s.hist.done), o) + [] == Of(Flatten(s.hist.done), o);
    if a.Store? {
      StoreElse(s.hist.issued, Entry(s.procs[a.p].op, a.b, a.data), o);
    }
  }

  lemma StoreElse(es: seq<Entry>, e: Entry, o: nat)
    requires e.op != o
    ensures Of(es + [e], o) == Of(es, o)
  {
    assert (es + [e])[..|es|] == es;
    assert Of(es, o) + [] == Of(es, o);
  }

  ghost predicate NoCrash(acts: seq<Action>, j: nat, i: nat) {
    forall x :: j <= x < i && x < |acts| ==> acts[x] != Crash
  }

  lemma JustEnded(s: State, p: nat, s': State)
    requires OpsInv(s) && Enabled(s, End(p)) && s' == Next(s, End(p))
    ensures InOpAt(s, p) && Ended(s'.hist, s.procs[p].op)
  {
  }

  lemma {:induction false} EndedUntil(ss: seq<State>, acts: seq<Action>, j: nat, p: nat, i: nat)
    requires IsBehaviour(ss, acts) && j < i < |ss| && acts[j] == End(p) && NoCrash(acts, j, i)
    ensures InOpAt(ss[j], p) && Ended(ss[i].hist, ss[j].procs[p].op)
    decreases i
  {
    hide Enabled, Next, Init;
    AlwaysKept(ss, acts, i - 1);
    assert Enabled(ss[i - 1], acts[i - 1]) && ss[(i - 1) + 1] == Next(ss[i - 1], acts[i - 1]);
    if i == j + 1 {
      JustEnded(ss[j], p, ss[i]);
    } else {
      EndedUntil(ss, acts, j, p, i - 1);
      StillEnded(ss[i - 1], acts[i - 1], ss[i], ss[j].procs[p].op);
    }
  }

  lemma {:induction false} CommittedUntil(ss: seq<State>, acts: seq<Action>, i: nat, k: nat, o: nat)
    requires IsBehaviour(ss, acts) && i <= k < |ss| && Committed(ss[i].hist, o) && o in ss[i].hist.ended
    ensures Committed(ss[k].hist, o)
    ensures o in ss[k].hist.ended
    decreases k
  {
    hide Enabled, Next, Init;
    if i < k {
      CommittedUntil(ss, acts, i, k - 1, o);
      AlwaysKept(ss, acts, k - 1);
      assert Enabled(ss[k - 1], acts[k - 1]) && ss[(k - 1) + 1] == Next(ss[k - 1], acts[k - 1]);
      StillCommitted(ss[k - 1], acts[k - 1], ss[k], o);
    }
  }

  /** Durability. An operation reaches end_op at step j, the machine does not crash before state
      i, and there it is up with no operation running: no end_op is still committing. Then all
      of the operation's stores are in the committed groups, in state i and ever after. */
  lemma EndedIsCommitted(ss: seq<State>, acts: seq<Action>, j: nat, p: nat, i: nat, k: nat)
    requires IsBehaviour(ss, acts) && j < i <= k < |ss| && acts[j] == End(p) && NoCrash(acts, j, i)
    requires ss[i].phase == Phase.Running && ss[i].outstanding == 0
    ensures InOpAt(ss[j], p) && Committed(ss[k].hist, ss[j].procs[p].op)
  {
    EndedUntil(ss, acts, j, p, i);
    AlwaysKept(ss, acts, i);
    QuietIsCommitted(ss, acts, i);
    var o := ss[j].procs[p].op;
    assert SettledAt(ss[i].hist, o);
    CommittedUntil(ss, acts, i, k, o);
  }

  /** The last committed store to block b, or what was there at the first boot. */
  ghost function LastStore(h: History, b: nat): Contents
    requires b < |h.init|
  {
    var to := CrashConsistency.To(Flatten(h.done), b);
    if to == [] then h.init[b] else to[|to| - 1].data
  }

  /** So a crash at any later point k, and a recovery cut short any number of times, give a disk
      with the operation's stores: every home block holds what the last of the committed stores
      put there, and those of the operation, all that it made, are among them. */
  lemma ReturnedIsOnDisk(ss: seq<State>, acts: seq<Action>, j: nat, p: nat, i: nat, k: nat, cuts: seq<nat>)
    requires IsBehaviour(ss, acts) && ss[0].l.nlog >= LOGSIZE + 1
    requires j < i <= k < |ss| && acts[j] == End(p) && NoCrash(acts, j, i)
    requires ss[i].phase == Phase.Running && ss[i].outstanding == 0
    ensures InOpAt(ss[j], p) && Committed(ss[k].hist, ss[j].procs[p].op)
    ensures LogOk(ss[k].l, ss[k].disk)
    ensures var s := ss[k]; var e := BootAfterCrashes(s.l, s.disk, cuts);
            |e.blocks| == |s.hist.init| && forall b :: IsHome(s.l, e, b) ==> e.blocks[b] == LastStore(s.hist, b)
  {
    EndedIsCommitted(ss, acts, j, p, i, k);
    hide IsBehaviour;
    RecoveredIsCommittedGroups(ss, acts, k, cuts);
    var s := ss[k];
    forall b | IsHome(s.l, s.disk, b)
      ensures b < |s.hist.init| && Replay(s.hist.init, Flatten(s.hist.done))[b] == LastStore(s.hist, b)
    {
      CrashConsistency.ReplayLast(s.hist.init, Flatten(s.hist.done), b);
    }
  }
}
