/** How large the on-disk log must be. log_write compares lh.n with log.size - 1 before it
    takes the log lock, so several processes can pass the test for the same free slot; and
    the test does not look whether the block is already in the log.

    The block numbers announced by lh fit in the log area, and recovery yields what the
    committed groups wrote, in every state of every behaviour if and only if the area has
    LOGSIZE + 1 blocks or more (or just one, in which case log_write always panics).
    mkfs/mkfs.c makes an area of LOGSIZE blocks. */
module LogSize {
  import opened Params
  import opened RedoLog
  import opened LogProtocol
  import opened LogInvariant
  import opened LogTheorems

  // ----- Behaviours, one step at a time -----

  lemma Extend(ss: seq<State>, acts: seq<Action>, a: Action) returns (ss': seq<State>, acts': seq<Action>)
    requires IsBehaviour(ss, acts) && Enabled(ss[|ss| - 1], a)
    ensures IsBehaviour(ss', acts') && ss'[0] == ss[0] && |ss'| == |ss| + 1
    ensures ss'[|ss'| - 1] == Next(ss[|ss| - 1], a)
  {
    ExtendBehaviour(ss, acts, a);
    ss', acts' := ss + [Next(ss[|ss| - 1], a)], acts + [a];
  }

  lemma ExtendTwo(ss: seq<State>, acts: seq<Action>, a: Action, b: Action) returns (ss': seq<State>, acts': seq<Action>)
    requires IsBehaviour(ss, acts) && Enabled(ss[|ss| - 1], a) && Enabled(Next(ss[|ss| - 1], a), b)
    ensures IsBehaviour(ss', acts') && ss'[0] == ss[0] && |ss'| == |ss| + 2
    ensures ss'[|ss'| - 1] == Next(Next(ss[|ss| - 1], a), b)
  {
    ss', acts' := Extend(ss, acts, a);
    ss', acts' := Extend(ss', acts', b);
  }

  lemma {:induction false} SameLayout(ss: seq<State>, acts: seq<Action>, i: nat)
    requires IsBehaviour(ss, acts) && i < |ss|
    ensures ss[i].l == ss[0].l
  {
    if i > 0 {
      SameLayout(ss, acts, i - 1);
      assert ss[(i - 1) + 1] == Next(ss[i - 1], acts[i - 1]);
    }
  }

  // ----- Runs in which three operations fill the log -----

  /** A disk on which every block holds its own number. */
  function Blocks(l: Layout): seq<Contents> { seq(l.start + l.nlog + LOGSIZE + 3, b => Contents([b])) }

  /** The i-th block logged; the block just behind the log area is not among them. */
  function Home(l: Layout, i: nat): nat { l.start + l.nlog + 1 + i }

  function Homes(l: Layout, k: nat): (bs: seq<nat>)
    ensures |bs| == k && forall i :: 0 <= i < k ==> bs[i] == Home(l, i)
  {
    seq(k, i requires 0 <= i => Home(l, i))
  }

  lemma HomesMore(l: Layout, k: nat)
    ensures Homes(l, k) + [Home(l, k)] == Homes(l, k + 1) && Home(l, k) !in Homes(l, k)
  {
  }

  /** A freshly made disk: empty log, and three processes. */
  function Fresh(l: Layout): State {
    State(l, Disk([], Blocks(l)), map[], map[], {}, {}, {}, [], 0, false, Boot,
          [Outside, Outside, Outside], History(Blocks(l), [], [], [], 0, 0, {}, Blocks(l), Blocks(l)))
  }

  /** Nothing has been stored: disk and cache are as at first boot. */
  ghost predicate Pristine(s: State, l: Layout) {
    && s.reading == {}
    && s.l == l && s.disk == Disk([], Blocks(l)) && s.hist.done == [] && s.hist.init == Blocks(l)
    && s.hist.current == []
    && forall b :: b in s.cache ==> b < |Blocks(l)| && s.cache[b] == Contents([b])
  }

  /** In which order the three operations log: in turn, or 1 and 2 before 0. */
  datatype Order = InTurn | ZeroLast

  function Who(o: Order, m: nat): (p: nat)
    ensures p < 3
  {
    if o == InTurn then m % 3 else if m < MAXOPBLOCKS then 1 else if m < 2 * MAXOPBLOCKS then 2 else 0
  }

  /** How many of the first k blocks process p logs. */
  function Quota(o: Order, k: nat, p: nat): nat {
    if k == 0 then 0 else Quota(o, k - 1, p) + if Who(o, k - 1) == p then 1 else 0
  }

  lemma {:induction false} QuotaInTurn(k: nat, p: nat)
    requires p < 3
    ensures Quota(InTurn, k, p) == (k + 2 - p) / 3
  {
    if k != 0 {
      QuotaInTurn(k - 1, p);
      var m := (k - 1) / 3;
      assert k - 1 == 3 * m + (k - 1) % 3;
    }
  }

  lemma {:induction false} QuotaZeroLast(k: nat)
    requires k <= LOGSIZE
    ensures Quota(ZeroLast, k, 1) == (if k < MAXOPBLOCKS then k else MAXOPBLOCKS)
    ensures Quota(ZeroLast, k, 2) == if k < MAXOPBLOCKS then 0
              else if k < 2 * MAXOPBLOCKS then k - MAXOPBLOCKS else MAXOPBLOCKS
    ensures Quota(ZeroLast, k, 0) == if k < 2 * MAXOPBLOCKS then 0 else k - 2 * MAXOPBLOCKS
  {
    if k != 0 {
      QuotaZeroLast(k - 1);
    }
  }

  lemma TurnHasBudget(o: Order, k: nat)
    requires k < LOGSIZE
    ensures Quota(o, k, Who(o, k)) < MAXOPBLOCKS
  {
    if o == InTurn {
      QuotaInTurn(k, Who(o, k));
      var m := k / 3;
      assert k == 3 * m + k % 3;
    } else {
      QuotaZeroLast(k);
    }
  }

  /** Three operations run and have logged blocks Home(0) .. Home(k - 1) in the given order. */
  ghost predicate Filled(s: State, l: Layout, o: Order, k: nat) {
    && Pristine(s, l)
    && s.phase == Running && !s.committing && s.outstanding == 3 && |s.procs| == 3
    && s.holder == map[] && s.checking == {} && s.dirty == {}
    && s.lh == Homes(l, k)
    && (forall p :: 0 <= p < 3 ==> s.procs[p].InOp? && |s.procs[p].logged| == Quota(o, k, p))
    && (forall p, b :: 0 <= p < 3 && b in s.procs[p].logged ==> b < Home(l, k))
  }

  /** Recovery finds an empty log and the system comes up. */
  lemma Booted(l: Layout) returns (ss: seq<State>, acts: seq<Action>)
    requires 0 < l.nlog
    ensures IsBehaviour(ss, acts) && ss[0].l == l && ss[|ss| - 1] == Fresh(l).(phase := Running)
  {
    ss, acts := [Fresh(l)], [];
    assert Init(Fresh(l));
    ss, acts := ExtendTwo(ss, acts, Advance, Advance);
    ss, acts := Extend(ss, acts, Advance);
  }

  lemma ThreeBegin(s: State, l: Layout, o: Order)
    requires 0 < l.nlog && s == Fresh(l).(phase := Running)
    ensures Enabled(s, Begin(0)) && Enabled(BeginOp(s, 0), Begin(1)) && Enabled(BeginOp(BeginOp(s, 0), 1), Begin(2))
    ensures Filled(BeginOp(BeginOp(BeginOp(s, 0), 1), 2), l, o, 0)
  {
  }

  lemma Started(l: Layout, o: Order) returns (ss: seq<State>, acts: seq<Action>)
    requires 0 < l.nlog
    ensures IsBehaviour(ss, acts) && ss[0].l == l && Filled(ss[|ss| - 1], l, o, 0)
  {
    ss, acts := Booted(l);
    ThreeBegin(ss[|ss| - 1], l, o);
    ss, acts := ExtendTwo(ss, acts, Begin(0), Begin(1));
    ss, acts := Extend(ss, acts, Begin(2));
  }

  /** Process p can take block b through Acquire and Check. */
  lemma TurnChecks(s: State, l: Layout, o: Order, k: nat, p: nat, b: nat)
    requires Filled(s, l, o, k) && k < LOGSIZE && k < l.nlog - 1 && p < 3 && b == Home(l, k)
    ensures Enabled(s, Acquire(p, b)) && Enabled(Next(s, Acquire(p, b)), Check(p, b))
    ensures Next(Next(s, Acquire(p, b)), Check(p, b)) == Cached(s, b).(holder := map[b := p], checking := {b})
  {
  }

  lemma TurnAppends(s: State, l: Layout, o: Order, k: nat, p: nat, b: nat, t: State)
    requires Filled(s, l, o, k) && p == Who(o, k) && b == Home(l, k) && b < |s.disk.blocks|
    requires Quota(o, k, p) < MAXOPBLOCKS
    requires t == Cached(s, b).(holder := map[b := p], checking := {b})
    ensures Enabled(t, Append(p, b)) && Enabled(LogAppend(t, p, b), Release(p, b))
    ensures Filled(Next(LogAppend(t, p, b), Release(p, b)), l, o, k + 1)
  {
    var logged := s.procs[p].logged;
    assert logged + {b} - {b} == logged;
    HomesMore(l, k);
    var u := Next(LogAppend(t, p, b), Release(p, b));
    assert u == Cached(s, b).(procs := s.procs[p := s.procs[p].(logged := logged + {b})], lh := Homes(l, k + 1));
    FilledMore(s, l, o, k, p, b, u);
  }

  lemma FilledMore(s: State, l: Layout, o: Order, k: nat, p: nat, b: nat, u: State)
    requires Filled(s, l, o, k) && p == Who(o, k) && b == Home(l, k) && b < |s.disk.blocks|
    requires |s.procs[p].logged + {b}| == |s.procs[p].logged| + 1
    requires var q := s.procs[p].(logged := s.procs[p].logged + {b});
             u == Cached(s, b).(procs := s.procs[p := q], lh := Homes(l, k + 1))
    ensures Filled(u, l, o, k + 1)
  {
    assert forall x :: 0 <= x < 3 ==> Quota(o, k + 1, x) == Quota(o, k, x) + if x == p then 1 else 0;
  }

  /** One more block is logged by the process whose turn it is. */
  lemma LogOne(ss: seq<State>, acts: seq<Action>, l: Layout, o: Order, k: nat)
    returns (ss': seq<State>, acts': seq<Action>)
    requires IsBehaviour(ss, acts) && Filled(ss[|ss| - 1], l, o, k) && k < LOGSIZE && k < l.nlog - 1
    ensures IsBehaviour(ss', acts') && ss'[0] == ss[0] && Filled(ss'[|ss'| - 1], l, o, k + 1)
  {
    var p, b := Who(o, k), Home(l, k);
    var s := ss[|ss| - 1];
    TurnHasBudget(o, k);
    TurnChecks(s, l, o, k, p, b);
    ss', acts' := ExtendTwo(ss, acts, Acquire(p, b), Check(p, b));
    TurnAppends(s, l, o, k, p, b, ss'[|ss'| - 1]);
    ss', acts' := ExtendTwo(ss', acts', Append(p, b), Release(p, b));
  }

  lemma {:induction false} LogMany(l: Layout, o: Order, k: nat) returns (ss: seq<State>, acts: seq<Action>)
    requires k <= LOGSIZE && k < l.nlog
    ensures IsBehaviour(ss, acts) && ss[0].l == l && Filled(ss[|ss| - 1], l, o, k)
    decreases k
  {
    if k == 0 {
      ss, acts := Started(l, o);
    } else {
      ss, acts := LogMany(l, o, k - 1);
      ss, acts := LogOne(ss, acts, l, o, k - 1);
    }
  }

  // ----- A run that overruns the area -----

  /** Processes p and q are inside log_write, past the test, with two more blocks. */
  ghost predicate BothChecked(s: State, l: Layout, k: nat, p: nat, q: nat) {
    && Pristine(s, l) && s.phase == Running && !s.committing && s.outstanding == 3 && |s.procs| == 3
    && p < 3 && q < 3 && p != q && (forall x :: 0 <= x < 3 ==> s.procs[x].InOp?)
    && s.holder == map[Home(l, k) := p, Home(l, k + 1) := q] && s.checking == {Home(l, k), Home(l, k + 1)}
    && s.dirty == {}
    && |s.procs[p].logged| < MAXOPBLOCKS && |s.procs[q].logged| < MAXOPBLOCKS && s.lh == Homes(l, k)
  }

  lemma TwoAcquire(s: State, l: Layout, k: nat, p: nat, q: nat)
    requires Filled(s, l, InTurn, k) && k + 2 <= LOGSIZE && p < 3 && q < 3
    ensures var b, c := Home(l, k), Home(l, k + 1);
            && Enabled(s, Acquire(p, b)) && Enabled(Next(s, Acquire(p, b)), Acquire(q, c))
            && Next(Next(s, Acquire(p, b)), Acquire(q, c)) == Cached(Cached(s, b), c).(holder := map[b := p, c := q])
  {
  }

  lemma TwoCheck(s: State, l: Layout, k: nat, p: nat, q: nat, t: State)
    requires Filled(s, l, InTurn, k) && k == l.nlog - 2 && l.nlog <= LOGSIZE && p < 3 && q < 3 && p != q
    requires Quota(InTurn, k, p) < MAXOPBLOCKS && Quota(InTurn, k, q) < MAXOPBLOCKS
    requires t == Cached(Cached(s, Home(l, k)), Home(l, k + 1)).(holder := map[Home(l, k) := p, Home(l, k + 1) := q])
    ensures Enabled(t, Check(p, Home(l, k))) && Enabled(Next(t, Check(p, Home(l, k))), Check(q, Home(l, k + 1)))
    ensures BothChecked(Next(Next(t, Check(p, Home(l, k))), Check(q, Home(l, k + 1))), l, k, p, q)
  {
  }

  lemma BothPass(l: Layout, p: nat, q: nat) returns (ss: seq<State>, acts: seq<Action>)
    requires 2 <= l.nlog <= LOGSIZE && p == Who(InTurn, l.nlog - 2) && q == Who(InTurn, l.nlog - 1)
    ensures IsBehaviour(ss, acts) && ss[0].l == l && BothChecked(ss[|ss| - 1], l, l.nlog - 2, p, q)
  {
    var k := l.nlog - 2;
    ss, acts := LogMany(l, InTurn, k);
    TurnHasBudget(InTurn, k);
    TurnHasBudget(InTurn, k + 1);
    var s := ss[|ss| - 1];
    TwoAcquire(s, l, k, p, q);
    ss, acts := ExtendTwo(ss, acts, Acquire(p, Home(l, k)), Acquire(q, Home(l, k + 1)));
    TwoCheck(s, l, k, p, q, ss[|ss| - 1]);
    ss, acts := ExtendTwo(ss, acts, Check(p, Home(l, k)), Check(q, Home(l, k + 1)));
  }

  /** lh announces as many blocks as the area has, header included. */
  ghost predicate Overrun(s: State, l: Layout) {
    && Pristine(s, l) && s.phase == Running && !s.committing && s.outstanding == 3 && |s.procs| == 3
    && (forall x :: 0 <= x < 3 ==> s.procs[x].InOp?)
    && s.lh == Homes(l, l.nlog) && s.checking == {} && s.dirty == {}
  }

  lemma BothAppend(s: State, l: Layout, p: nat, q: nat)
    requires 2 <= l.nlog <= LOGSIZE && BothChecked(s, l, l.nlog - 2, p, q)
    ensures var b, c := Home(l, l.nlog - 2), Home(l, l.nlog - 1);
            && Enabled(s, Append(p, b)) && Enabled(Next(s, Append(p, b)), Append(q, c))
            && Overrun(Next(Next(s, Append(p, b)), Append(q, c)), l)
            && Next(Next(s, Append(p, b)), Append(q, c)).holder == map[b := p, c := q]
  {
    var k := l.nlog - 2;
    HomesMore(l, k);
    HomesMore(l, k + 1);
  }

  /** With one free slot left, two processes pass the test for it and both append: the slot of
      the last announced block, start + |lh|, is outside the log area. */
  lemma Overruns(l: Layout) returns (ss: seq<State>, acts: seq<Action>, p: nat, q: nat)
    requires 2 <= l.nlog <= LOGSIZE
    ensures IsBehaviour(ss, acts) && ss[0].l == l && Overrun(ss[|ss| - 1], l) && p < 3 && q < 3 && p != q
    ensures ss[|ss| - 1].holder == map[Home(l, l.nlog - 2) := p, Home(l, l.nlog - 1) := q]
    ensures !Fits(ss[|ss| - 1]) && IsHome(l, ss[|ss| - 1].disk, l.start + |ss[|ss| - 1].lh|)
  {
    p, q := Who(InTurn, l.nlog - 2), Who(InTurn, l.nlog - 1);
    ss, acts := BothPass(l, p, q);
    BothAppend(ss[|ss| - 1], l, p, q);
    ss, acts := ExtendTwo(ss, acts, Append(p, Home(l, l.nlog - 2)), Append(q, Home(l, l.nlog - 1)));
  }

  // ----- When the log fits -----

  /** write_log's blocks start + 1 .. start + |lh| lie in the log area. */
  ghost predicate Fits(s: State) { 1 + |s.lh| <= s.l.nlog }

  ghost predicate AlwaysFits(l: Layout) {
    forall ss: seq<State>, acts: seq<Action>, i: nat ::
      IsBehaviour(ss, acts) && ss[0].l == l && i < |ss| ==> Fits(ss[i])
  }

  /** With a one-block area log_write's test never passes, so nothing is ever logged, no group
      commits and no block is written. */
  ghost predicate Starved(s: State, s0: State) {
    && s.l.nlog == 1 && s.disk == s0.disk && s.disk.head == [] && s.lh == [] && s.checking == {}
    && s.hist.init == s0.hist.init && s.hist.done == [] && !s.phase.WriteLog? && !s.phase.CommitHead?
  }

  lemma {:induction false} OneBlockLog(ss: seq<State>, acts: seq<Action>, i: nat)
    requires IsBehaviour(ss, acts) && ss[0].l.nlog == 1 && i < |ss|
    ensures Starved(ss[i], ss[0])
  {
    hide Enabled, Next;
    if i > 0 {
      OneBlockLog(ss, acts, i - 1);
      assert ss[(i - 1) + 1] == Next(ss[i - 1], acts[i - 1]);
      StaysStarved(ss[i - 1], acts[i - 1], ss[0]);
    }
  }

  lemma StaysStarved(s: State, a: Action, s0: State)
    requires Starved(s, s0) && Enabled(s, a)
    ensures Starved(Next(s, a), s0)
  {
  }

  /** The announced blocks fit in the log area in every reachable state exactly when the
      area has more than LOGSIZE blocks, or a single one. */
  lemma FitsIff(l: Layout)
    requires 1 <= l.nlog
    ensures AlwaysFits(l) <==> l.nlog >= LOGSIZE + 1 || l.nlog == 1
  {
    if l.nlog >= LOGSIZE + 1 {
      forall ss: seq<State>, acts: seq<Action>, i: nat | IsBehaviour(ss, acts) && ss[0].l == l && i < |ss|
        ensures Fits(ss[i])
      {
        Always(ss, acts, i);
        SameLayout(ss, acts, i);
      }
    } else if l.nlog == 1 {
      forall ss: seq<State>, acts: seq<Action>, i: nat | IsBehaviour(ss, acts) && ss[0].l == l && i < |ss|
        ensures Fits(ss[i])
      {
        OneBlockLog(ss, acts, i);
      }
    } else {
      var ss, acts, p, q := Overruns(l);
      assert !Fits(ss[|ss| - 1]);
    }
  }
}
