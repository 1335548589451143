/** What every behaviour of the log protocol guarantees. */
module LogTheorems {
  import opened Params
  import opened RedoLog
  import opened LogProtocol
  import opened LogInvariant

  // ----- What a list of stores makes of a disk -----

  function Replay(base: seq<Contents>, es: seq<Entry>): (r: seq<Contents>)
    ensures |r| == |base|
  {
    if es == [] then base else
    var r := Replay(base, es[..|es| - 1]);
    var e := es[|es| - 1];
    if e.b < |r| then r[e.b := e.data] else r
  }

  function Flatten(groups: seq<seq<Entry>>): seq<Entry> {
    if groups == [] then [] else Flatten(groups[..|groups| - 1]) + groups[|groups| - 1]
  }

  /** The stores of operation o, in order. */
  function Of(es: seq<Entry>, o: nat): seq<Entry> {
    if es == [] then [] else
    Of(es[..|es| - 1], o) + if es[|es| - 1].op == o then [es[|es| - 1]] else []
  }

  lemma {:induction false} ReplayConcat(base: seq<Contents>, es: seq<Entry>, fs: seq<Entry>)
    ensures Replay(base, es + fs) == Replay(Replay(base, es), fs)
    decreases |fs|
  {
    if fs == [] {
      assert es + fs == es;
    } else {
      var n := |fs| - 1;
      assert (es + fs)[..|es + fs| - 1] == es + fs[..n];
      ReplayConcat(base, es, fs[..n]);
    }
  }

  lemma {:induction false} OfConcat(es: seq<Entry>, fs: seq<Entry>, o: nat)
    ensures Of(es + fs, o) == Of(es, o) + Of(fs, o)
    decreases |fs|
  {
    if fs == [] {
      assert es + fs == es;
    } else {
      var n := |fs| - 1;
      assert (es + fs)[..|es + fs| - 1] == es + fs[..n];
      OfConcat(es, fs[..n], o);
    }
  }

  lemma FlattenSnoc(groups: seq<seq<Entry>>, g: seq<Entry>)
    ensures Flatten(groups + [g]) == Flatten(groups) + g
  {
    assert (groups + [g])[..|groups|] == groups;
  }

  // ----- The history is what its stores say it is -----

  ghost predicate ReplayInv(h: History) {
    h.com == Replay(h.init, Flatten(h.done)) && h.cur == Replay(h.com, h.current)
  }

  /** A group's operations are numbered base and up; those below base are settled: all of
      their stores are in the committed groups, or none is. */
  ghost predicate SettledAt(h: History, o: nat) {
    var committed := Of(Flatten(h.done), o);
    && (o >= h.base ==> committed == [] && Of(h.current, o) == Of(h.issued, o))
    && (o < h.base ==> Of(h.current, o) == [] && (committed == [] || committed == Of(h.issued, o)))
    && (o >= h.nextOp ==> Of(h.issued, o) == [])
    && (committed != [] ==> o in h.ended)
  }

  ghost predicate OpsInv(s: State) {
    && s.hist.base <= s.hist.nextOp
    && (forall o :: SettledAt(s.hist, o))
    && (forall p :: 0 <= p < |s.procs| && s.procs[p].InOp? ==> s.hist.base <= s.procs[p].op < s.hist.nextOp)
    && (forall o :: s.hist.base <= o < s.hist.nextOp ==> o in s.hist.ended || Running(s, o))
  }

  ghost predicate Running(s: State, o: nat) {
    exists p :: 0 <= p < |s.procs| && s.procs[p].InOp? && s.procs[p].op == o
  }

  ghost predicate FullInv(s: State) { Inv(s) && ReplayInv(s.hist) && OpsInv(s) }

  lemma StoreReplay(s: State, p: nat, b: nat, data: Contents)
    requires InOpAt(s, p) && ReplayInv(s.hist) && |s.hist.com| == |s.hist.cur|
    ensures ReplayInv(StoreBlock(s, p, b, data).hist)
  {
    var e := Entry(s.procs[p].op, b, data);
    assert (s.hist.current + [e])[..|s.hist.current|] == s.hist.current;
  }

  lemma CommitReplay(h: History, h': History)
    requires ReplayInv(h)
    requires h'.init == h.init && h'.done == h.done + [h.current] && h'.current == [] && h'.com == h.cur
    requires h'.cur == h.cur
    ensures ReplayInv(h')
  {
    FlattenSnoc(h.done, h.current);
    ReplayConcat(h.init, Flatten(h.done), h.current);
  }

  lemma StoreOps(s: State, p: nat, b: nat, data: Contents, s': State)
    requires OpsInv(s) && InOpAt(s, p) && s' == StoreBlock(s, p, b, data)
    ensures OpsInv(s')
  {
    var e := Entry(s.procs[p].op, b, data);
    forall o: nat
      ensures SettledAt(s'.hist, o)
    {
      assert SettledAt(s.hist, o);
      OfConcat(s.hist.current, [e], o);
      OfConcat(s.hist.issued, [e], o);
    }
    assert forall o :: Running(s, o) ==> Running(s', o);
  }

  lemma CommitOps(s: State, s': State)
    requires OpsInv(s) && Quiet(s) && s.phase.CommitHead? && s' == Step(s)
    ensures OpsInv(s')
  {
    forall o: nat
      ensures SettledAt(s'.hist, o)
    {
      assert SettledAt(s.hist, o);
      assert !Running(s, o);
      CommitSettles(s.hist, s'.hist, o);
    }
  }

  /** The header write settles every operation begun so far: all of them have ended. */
  lemma CommitSettles(h: History, h': History, o: nat)
    requires SettledAt(h, o) && (h.base <= o < h.nextOp ==> o in h.ended)
    requires h' == h.(done := h.done + [h.current], current := [], com := h.cur, base := h.nextOp)
    ensures SettledAt(h', o)
  {
    FlattenSnoc(h.done, h.current);
    OfConcat(Flatten(h.done), h.current, o);
    assert Of([], o) == [];
  }

  lemma CrashOps(s: State)
    requires OpsInv(s)
    ensures OpsInv(CrashNow(s))
  {
    forall o: nat
      ensures SettledAt(CrashNow(s).hist, o)
    {
      assert SettledAt(s.hist, o);
      assert Of([], o) == [];
    }
  }

  lemma BeginOps(s: State, p: nat, s': State)
    requires OpsInv(s) && p < |s.procs| && s.procs[p].Outside? && s' == BeginOp(s, p)
    ensures OpsInv(s')
  {
    forall o: nat
      ensures SettledAt(s'.hist, o)
    {
      assert SettledAt(s.hist, o);
    }
    forall o: nat | s'.hist.base <= o < s'.hist.nextOp
      ensures o in s'.hist.ended || Running(s', o)
    {
      if o == s.hist.nextOp {
        assert s'.procs[p].op == o;
      } else if o !in s.hist.ended {
        assert Running(s, o);
        var q :| 0 <= q < |s.procs| && s.procs[q].InOp? && s.procs[q].op == o;
        assert s'.procs[q].op == o;
      }
    }
  }

  lemma EndOps(s: State, p: nat, s': State)
    requires OpsInv(s) && InOpAt(s, p) && s' == EndOp(s, p)
    ensures OpsInv(s')
  {
    forall o: nat
      ensures SettledAt(s'.hist, o)
    {
      assert SettledAt(s.hist, o);
    }
    forall o: nat | s'.hist.base <= o < s'.hist.nextOp
      ensures o in s'.hist.ended || Running(s', o)
    {
      if o !in s'.hist.ended {
        assert Running(s, o);
        var q :| 0 <= q < |s.procs| && s.procs[q].InOp? && s.procs[q].op == o;
        assert s'.procs[q].op == o;
      }
    }
  }

  /** Steps that touch neither the history nor which operations run. */
  lemma FrameOps(s: State, s': State)
    requires OpsInv(s) && s'.hist == s.hist && |s'.procs| == |s.procs|
    requires forall p :: 0 <= p < |s.procs| ==>
               s'.procs[p].InOp? == s.procs[p].InOp? && (s.procs[p].InOp? ==> s'.procs[p].op == s.procs[p].op)
    ensures OpsInv(s')
  {
    forall o: nat | Running(s, o)
      ensures Running(s', o)
    {
      var q :| 0 <= q < |s.procs| && s.procs[q].InOp? && s.procs[q].op == o;
      assert s'.procs[q].op == o;
    }
  }

  lemma AdvanceHistory(s: State, s': State)
    requires ReplayInv(s.hist) && OpsInv(s) && !s.phase.Running? && Quiet(s) && s' == Step(s)
    ensures ReplayInv(s'.hist) && OpsInv(s')
  {
    if s.phase.CommitHead? {
      CommitReplay(s.hist, s'.hist);
      CommitOps(s, s');
    } else {
      assert s'.hist == s.hist && s'.procs == s.procs;
      FrameOps(s, s');
    }
  }

  lemma KeepHistory(s: State, a: Action, s': State)
    requires ReplayInv(s.hist) && OpsInv(s) && |s.hist.com| == |s.hist.cur| && (!s.phase.Running? ==> Quiet(s))
    requires Enabled(s, a) && s' == Next(s, a)
    ensures ReplayInv(s'.hist) && OpsInv(s')
  {
    match a
    case Begin(p) => BeginOps(s, p, s');
    case Store(p, b, data) =>
      StoreReplay(s, p, b, data);
      StoreOps(s, p, b, data, s');
    case End(p) => EndOps(s, p, s');
    case Advance => AdvanceHistory(s, s');
    case Crash =>
      CrashOps(s);
    case _ => FrameOps(s, s');
  }

  lemma InitFull(s: State)
    requires Init(s) && s.l.nlog >= LOGSIZE + 1
    ensures FullInv(s)
  {
    UnspentBounds(s.procs);
    assert forall o: nat :: SettledAt(s.hist, o);
  }

  /** The invariant holds in every state of every behaviour. */
  lemma {:induction false} Always(ss: seq<State>, acts: seq<Action>, i: nat)
    requires IsBehaviour(ss, acts) && ss[0].l.nlog >= LOGSIZE + 1 && i < |ss|
    ensures FullInv(ss[i])
  {
    if i == 0 {
      InitFull(ss[0]);
    } else {
      Always(ss, acts, i - 1);
      Keep(ss[i - 1], acts[i - 1]);
      KeepHistory(ss[i - 1], acts[i - 1], ss[i]);
    }
  }

  // ----- Theorems -----

  /** Operation o is on the disk entirely or not at all, and entirely only if it ended. */
  ghost predicate AllOrNothing(h: History, o: nat) {
    var committed := Of(Flatten(h.done), o);
    committed == [] || (committed == Of(h.issued, o) && o in h.ended)
  }

  /** Whole-run refinement. Stop any behaviour at any state, crash, and let recovery be cut
      short any number of times: the first complete recovery yields exactly the home blocks
      that the committed groups produce, in order, from the first boot's; and every
      operation's stores are among them all together, after its end_op, or not at all. */
  lemma RecoveredIsCommittedGroups(ss: seq<State>, acts: seq<Action>, i: nat, cuts: seq<nat>)
    requires IsBehaviour(ss, acts) && ss[0].l.nlog >= LOGSIZE + 1 && i < |ss|
    ensures LogOk(ss[i].l, ss[i].disk)
    ensures var s := ss[i]; var e := BootAfterCrashes(s.l, s.disk, cuts);
            var golden := Replay(s.hist.init, Flatten(s.hist.done));
            && |golden| == |e.blocks| == |s.disk.blocks|
            && (forall b :: IsHome(s.l, s.disk, b) ==> e.blocks[b] == golden[b])
            && (forall o :: AllOrNothing(s.hist, o))
  {
    Always(ss, acts, i);
    var s := ss[i];
    CrashesInRecovery(s.l, s.disk, cuts);
    forall o: nat
      ensures AllOrNothing(s.hist, o)
    {
      assert SettledAt(s.hist, o);
    }
  }

  lemma DoneGrows(s: State, a: Action, s': State)
    requires Enabled(s, a) && s' == Next(s, a)
    ensures s.hist.done <= s'.hist.done && s.hist.init == s'.hist.init
  {
  }

  /** Committed groups stay committed, through every later step and crash. */
  lemma {:induction false} CommittedForGood(ss: seq<State>, acts: seq<Action>, i: nat, j: nat)
    requires IsBehaviour(ss, acts) && i <= j < |ss|
    ensures ss[i].hist.done <= ss[j].hist.done && ss[i].hist.init == ss[j].hist.init
    decreases j - i
  {
    hide Enabled, Next, Init;
    if i < j {
      CommittedForGood(ss, acts, i, j - 1);
      DoneGrows(ss[j - 1], acts[j - 1], ss[j]);
    }
  }

  /** While the machine is up, bread returns for every home block the last value stored in
      it (of those not lost in a crash). */
  lemma ReadsSeeLastStore(ss: seq<State>, acts: seq<Action>, i: nat, b: nat)
    requires IsBehaviour(ss, acts) && ss[0].l.nlog >= LOGSIZE + 1 && i < |ss|
    requires !Recovering(ss[i].phase) && IsHome(ss[i].l, ss[i].disk, b)
    ensures var s := ss[i]; var now := Replay(s.hist.init, Flatten(s.hist.done) + s.hist.current);
            b < |now| && View(s, b) == now[b]
  {
    Always(ss, acts, i);
    ReplayConcat(ss[i].hist.init, Flatten(ss[i].hist.done), ss[i].hist.current);
  }
}
