/** The invariant of the log protocol: every step keeps it, so it holds in every state of
    every behaviour, including behaviours with any number of crashes. */
module LogInvariant {
  import opened Params
  import opened Sequences
  import opened RedoLog
  import opened LogProtocol

  // ----- Reservation -----

  /** Blocks process q may still add to the log. */
  function Unspent(q: Proc): int {
    if q.InOp? then MAXOPBLOCKS - |q.logged| else 0
  }

  function TotalUnspent(qs: seq<Proc>): int {
    if qs == [] then 0 else TotalUnspent(qs[..|qs| - 1]) + Unspent(qs[|qs| - 1])
  }

  function CountInOp(qs: seq<Proc>): nat {
    if qs == [] then 0 else CountInOp(qs[..|qs| - 1]) + if qs[|qs| - 1].InOp? then 1 else 0
  }

  lemma {:induction false} UpdateProc(qs: seq<Proc>, p: nat, q: Proc)
    requires p < |qs|
    ensures TotalUnspent(qs[p := q]) == TotalUnspent(qs) - Unspent(qs[p]) + Unspent(q)
    ensures CountInOp(qs[p := q]) == CountInOp(qs) - (if qs[p].InOp? then 1 else 0) + if q.InOp? then 1 else 0
  {
    var n := |qs| - 1;
    if p == n {
      assert qs[p := q][..n] == qs[..n];
    } else {
      UpdateProc(qs[..n], p, q);
      assert qs[p := q][..n] == qs[..n][p := q];
    }
  }

  ghost predicate WithinBudget(qs: seq<Proc>) {
    forall p :: 0 <= p < |qs| && qs[p].InOp? ==> |qs[p].logged| <= MAXOPBLOCKS
  }

  lemma {:induction false} UnspentBounds(qs: seq<Proc>)
    requires WithinBudget(qs)
    ensures 0 <= TotalUnspent(qs) <= MAXOPBLOCKS * CountInOp(qs)
    ensures forall p :: 0 <= p < |qs| ==> Unspent(qs[p]) <= TotalUnspent(qs)
    ensures CountInOp(qs) == 0 <==> forall p :: 0 <= p < |qs| ==> qs[p].Outside?
  {
    if qs != [] {
      var rest := qs[..|qs| - 1];
      assert WithinBudget(rest) by {
        forall p | 0 <= p < |rest| && rest[p].InOp?
          ensures |rest[p].logged| <= MAXOPBLOCKS
        {
          assert qs[p] == rest[p];
        }
      }
      UnspentBounds(rest);
      assert forall p :: 0 <= p < |rest| ==> qs[p] == rest[p];
    }
  }

  ghost predicate BudgetInv(s: State) {
    && WithinBudget(s.procs)
    && s.outstanding == CountInOp(s.procs)
    && |s.lh| + TotalUnspent(s.procs) <= LOGSIZE
    && (forall p :: 0 <= p < |s.procs| && s.procs[p].InOp? ==> forall b :: b in s.procs[p].logged ==> b in s.lh)
  }

  // ----- Control -----

  ghost predicate Quiet(s: State) { forall p :: 0 <= p < |s.procs| ==> s.procs[p].Outside? }

  ghost predicate ControlInv(s: State) {
    && s.committing == Committing(s.phase)
    && (s.phase != Running ==> Quiet(s))
    && LogOk(s.l, s.disk) && s.l.nlog >= LOGSIZE + 1
    && Loggable(s.l, s.disk, s.lh)
    && s.dirty <= s.holder.Keys && s.checking <= s.holder.Keys
    && (forall b :: b in s.holder ==> InOpAt(s, s.holder[b]))
    && (s.phase.Boot? || s.phase.ClearHead? || s.phase.Finish? || s.phase.RecClear? ==> s.lh == [])
  }

  // ----- The buffer cache -----

  ghost predicate CacheInv(s: State) {
    && (forall b :: b in s.cache ==> b < |s.disk.blocks| && b != s.l.start)
    && (forall b :: b in s.cache && !Pinned(s, b) && b !in s.dirty ==> s.cache[b] == s.disk.blocks[b])
    && (forall i :: PinFrom(s) <= i < |s.lh| ==> s.lh[i] in s.cache)
    && (forall b :: b in s.holder ==> b in s.cache && IsHome(s.l, s.disk, b))
  }

  // ----- Disk and cache against the history -----

  /** What the phase says about the log on disk. */
  ghost predicate PhaseInv(s: State)
    requires LogOk(s.l, s.disk)
  {
    match s.phase
    case Running => s.disk.head == []
    case WriteLog(t) => s.disk.head == [] && Logged(s, t)
    case CommitHead => s.disk.head == [] && Logged(s, |s.lh|)
    case Install(t) => s.disk.head == s.lh && Installed(s.l, s.disk, t)
    case ClearHead => Installed(s.l, s.disk, |s.disk.head|)
    case Finish => s.disk.head == []
    case Boot => true
    case RecInstall(t) => s.disk.head == s.lh && Installed(s.l, s.disk, t)
    case RecClear => Installed(s.l, s.disk, |s.disk.head|)
  }

  /** The first t logged blocks have been copied from the cache to the log. */
  ghost predicate Logged(s: State, t: nat) {
    && t <= |s.lh| && s.l.start + 1 + t <= |s.disk.blocks|
    && forall i :: 0 <= i < t ==> s.lh[i] in s.cache && s.disk.blocks[s.l.start + 1 + i] == s.cache[s.lh[i]]
  }

  ghost predicate HistInv(s: State)
    requires LogOk(s.l, s.disk)
  {
    && |s.hist.com| == |s.hist.cur| == |s.disk.blocks|
    && (forall b :: IsHome(s.l, s.disk, b) ==> Recovered(s.l, s.disk, b) == s.hist.com[b])
    && (!Recovering(s.phase) ==> forall b :: IsHome(s.l, s.disk, b) ==> View(s, b) == s.hist.cur[b])
    && (forall e :: e in s.hist.current ==> e.b in s.lh || e.b in s.dirty)
    && (s.hist.current == [] ==> s.hist.com == s.hist.cur)
    && (s.phase.Running? || s.phase.WriteLog? || s.phase.CommitHead? || s.hist.current == [])
  }

  ghost predicate LocksInv(s: State) { BudgetInv(s) && ControlInv(s) }

  ghost predicate DataInv(s: State)
    requires LogOk(s.l, s.disk)
  {
    CacheInv(s) && PhaseInv(s) && HistInv(s)
  }

  ghost predicate Inv(s: State) { LocksInv(s) && DataInv(s) }

  // ----- Steps of the processes -----

  /** Only the locks changed, and a pinned buffer need not count as changed. */
  ghost predicate SameData(s: State, s': State) {
    && s'.l == s.l && s'.disk == s.disk && s'.cache == s.cache
    && s'.dirty <= s.dirty && (forall b :: b in s.dirty && b !in s'.dirty ==> Pinned(s, b))
    && s'.lh == s.lh && s'.phase == s.phase && s'.hist == s.hist
  }

  lemma DataFrame(s: State, s': State)
    requires LogOk(s.l, s.disk) && DataInv(s) && SameData(s, s')
    requires forall b :: b in s'.holder ==> b in s.cache && IsHome(s.l, s.disk, b)
    ensures DataInv(s')
  {
    CacheFrame(s, s');
    PhaseFrame(s, s');
    HistFrame(s, s');
  }

  lemma CacheFrame(s: State, s': State)
    requires CacheInv(s) && SameData(s, s')
    requires forall b :: b in s'.holder ==> b in s.cache && IsHome(s.l, s.disk, b)
    ensures CacheInv(s')
  {
    assert forall c :: Pinned(s', c) <==> Pinned(s, c);
  }

  lemma PhaseFrame(s: State, s': State)
    requires LogOk(s.l, s.disk) && PhaseInv(s) && SameData(s, s')
    ensures PhaseInv(s')
  {
  }

  lemma HistFrame(s: State, s': State)
    requires LogOk(s.l, s.disk) && HistInv(s) && SameData(s, s')
    ensures HistInv(s')
  {
  }

  lemma KeepBegin(s: State, p: nat)
    requires Inv(s) && Enabled(s, Begin(p))
    ensures Inv(BeginOp(s, p))
  {
    UpdateProc(s.procs, p, BeginOp(s, p).procs[p]);
    UnspentBounds(s.procs);
  }

  lemma KeepCached(s: State, b: nat, s': State)
    requires Inv(s) && b < |s.disk.blocks| && b != s.l.start && s' == Cached(s, b)
    ensures Inv(s')
  {
    CachedData(s, b, s');
  }

  lemma CachedData(s: State, b: nat, s': State)
    requires LogOk(s.l, s.disk) && DataInv(s) && b < |s.disk.blocks| && b != s.l.start && s' == Cached(s, b)
    ensures DataInv(s')
  {
    CachedCache(s, b, s');
    CachedPhase(s, b, s');
    CachedHist(s, b, s');
  }

  lemma CachedCache(s: State, b: nat, s': State)
    requires CacheInv(s) && b < |s.disk.blocks| && b != s.l.start && s' == Cached(s, b)
    ensures CacheInv(s')
  {
    assert forall c :: Pinned(s', c) <==> Pinned(s, c);
  }

  lemma CachedPhase(s: State, b: nat, s': State)
    requires LogOk(s.l, s.disk) && PhaseInv(s) && b < |s.disk.blocks| && s' == Cached(s, b)
    ensures PhaseInv(s')
  {
  }

  lemma CachedHist(s: State, b: nat, s': State)
    requires LogOk(s.l, s.disk) && HistInv(s) && b < |s.disk.blocks| && s' == Cached(s, b)
    ensures HistInv(s')
  {
    assert forall c: nat :: c < |s.disk.blocks| ==> View(s', c) == View(s, c);
  }

  lemma KeepAcquire(s: State, p: nat, b: nat, s': State)
    requires Inv(s) && Enabled(s, Acquire(p, b)) && s' == Cached(s, b).(holder := s.holder[b := p])
    ensures Inv(s')
  {
    KeepCached(s, b, Cached(s, b));
    LockBuffer(Cached(s, b), p, b, s');
  }

  lemma LockBuffer(s: State, p: nat, b: nat, s': State)
    requires Inv(s) && InOpAt(s, p) && b in s.cache && IsHome(s.l, s.disk, b) && s' == s.(holder := s.holder[b := p])
    ensures Inv(s')
  {
    LockLocks(s, p, b, s');
    DataFrame(s, s');
  }

  lemma KeepReading(s: State, s': State)
    requires Inv(s) && s' == s.(reading := s'.reading)
    ensures Inv(s')
  {
    DataFrame(s, s');
  }

  lemma LockLocks(s: State, p: nat, b: nat, s': State)
    requires LocksInv(s) && InOpAt(s, p) && s' == s.(holder := s.holder[b := p])
    ensures LocksInv(s')
  {
  }

  lemma KeepStore(s: State, p: nat, b: nat, data: Contents, s': State)
    requires Inv(s) && Enabled(s, Store(p, b, data)) && s' == StoreBlock(s, p, b, data)
    ensures Inv(s')
  {
    StoreLocks(s, p, b, data, s');
    StoreData(s, p, b, data, s');
  }

  lemma StoreLocks(s: State, p: nat, b: nat, data: Contents, s': State)
    requires LocksInv(s) && Holds(s, p, b) && s' == StoreBlock(s, p, b, data)
    ensures LocksInv(s')
  {
  }

  lemma StoreData(s: State, p: nat, b: nat, data: Contents, s': State)
    requires ControlInv(s) && s.phase == Running && DataInv(s) && Holds(s, p, b) && s' == StoreBlock(s, p, b, data)
    ensures DataInv(s')
  {
    var e := Entry(s.procs[p].op, b, data);
    assert s'.hist.current == s.hist.current + [e];
  }

  lemma KeepCheck(s: State, p: nat, b: nat, s': State)
    requires Inv(s) && Enabled(s, Check(p, b)) && s' == s.(checking := s.checking + {b})
    ensures Inv(s')
  {
    CheckLocks(s, b, s');
    DataFrame(s, s');
  }

  lemma CheckLocks(s: State, b: nat, s': State)
    requires LocksInv(s) && b in s.holder && s' == s.(checking := s.checking + {b})
    ensures LocksInv(s')
  {
  }

  lemma KeepRelease(s: State, p: nat, b: nat, s': State)
    requires Inv(s) && Enabled(s, Release(p, b)) && s' == s.(holder := s.holder - {b}, dirty := s.dirty - {b})
    ensures Inv(s')
  {
    ReleaseLocks(s, b, s');
    assert b in s.dirty ==> Pinned(s, b);
    DataFrame(s, s');
  }

  lemma ReleaseLocks(s: State, b: nat, s': State)
    requires LocksInv(s) && b !in s.checking && s' == s.(holder := s.holder - {b}, dirty := s.dirty - {b})
    ensures LocksInv(s')
  {
  }

  /** The store into lh.block is in bounds whatever other processes appended since the
      unlocked test: the process still has budget, and all budgets fit in the log together. */
  lemma AppendInBounds(s: State, p: nat, b: nat)
    requires BudgetInv(s) && Enabled(s, Append(p, b)) && b !in s.lh
    ensures |s.lh| < LOGSIZE && b !in s.procs[p].logged
  {
    UnspentBounds(s.procs);
    assert |s.procs[p].logged + {b}| == |s.procs[p].logged| + 1;
  }

  lemma AppendBudget(s: State, p: nat, b: nat, s': State)
    requires BudgetInv(s) && Enabled(s, Append(p, b)) && s' == LogAppend(s, p, b)
    ensures BudgetInv(s') && |s'.lh| <= LOGSIZE
  {
    UpdateProc(s.procs, p, s'.procs[p]);
    if b in s.lh {
      assert b in s.procs[p].logged ==> s.procs[p].logged + {b} == s.procs[p].logged;
    } else {
      AppendInBounds(s, p, b);
    }
    UnspentBounds(s'.procs);
  }

  lemma AppendControl(s: State, p: nat, b: nat, s': State)
    requires ControlInv(s) && IsHome(s.l, s.disk, b) && Holds(s, p, b) && s' == LogAppend(s, p, b) && |s'.lh| <= LOGSIZE
    ensures ControlInv(s')
  {
    assert forall i :: 0 <= i < |s.lh| ==> s'.lh[i] == s.lh[i];
  }

  lemma AppendData(s: State, p: nat, b: nat, s': State)
    requires ControlInv(s) && s.phase == Running && DataInv(s) && Holds(s, p, b) && s' == LogAppend(s, p, b)
    ensures DataInv(s')
  {
    assert forall i :: 0 <= i < |s.lh| ==> s'.lh[i] == s.lh[i];
    assert b in s'.lh;
    assert forall c :: Pinned(s, c) ==> Pinned(s', c);
  }

  lemma KeepAppend(s: State, p: nat, b: nat, s': State)
    requires Inv(s) && Enabled(s, Append(p, b)) && s' == LogAppend(s, p, b)
    ensures Inv(s')
  {
    AppendBudget(s, p, b, s');
    AppendControl(s, p, b, s');
    AppendData(s, p, b, s');
  }

  lemma EndLocks(s: State, p: nat, s': State)
    requires LocksInv(s) && Enabled(s, End(p)) && s' == EndOp(s, p)
    ensures LocksInv(s') && (s'.phase == Running || s'.dirty == {})
  {
    UpdateProc(s.procs, p, Outside);
    UnspentBounds(s.procs);
    UnspentBounds(s'.procs);
    assert forall b :: b in s.holder ==> InOpAt(s', s.holder[b]);
    assert s'.phase != Running ==> s'.dirty == {};
  }

  lemma EndData(s: State, p: nat, s': State)
    requires LocksInv(s) && DataInv(s) && InOpAt(s, p) && s' == EndOp(s, p)
    requires s'.phase == Running || s'.dirty == {}
    ensures DataInv(s')
  {
    assert s.phase == Running;
    assert |s.hist.current| > 0 ==> s.hist.current[0] in s.hist.current;
  }

  lemma KeepEnd(s: State, p: nat, s': State)
    requires Inv(s) && Enabled(s, End(p)) && s' == EndOp(s, p)
    ensures Inv(s')
  {
    EndLocks(s, p, s');
    EndData(s, p, s');
  }

  lemma KeepEvict(s: State, b: nat, s': State)
    requires Inv(s) && Enabled(s, Evict(b)) && s' == s.(cache := s.cache - {b})
    ensures Inv(s')
  {
    EvictData(s, b, s');
  }

  lemma EvictData(s: State, b: nat, s': State)
    requires ControlInv(s) && DataInv(s) && Enabled(s, Evict(b)) && s' == s.(cache := s.cache - {b})
    ensures DataInv(s')
  {
    assert s'.disk.blocks[b] == s.cache[b];
    EvictPhase(s, b, s');
  }

  lemma EvictPhase(s: State, b: nat, s': State)
    requires LogOk(s.l, s.disk) && PhaseInv(s) && !Pinned(s, b) && s' == s.(cache := s.cache - {b})
    ensures PhaseInv(s')
  {
    assert forall i :: PinFrom(s) <= i < |s.lh| ==> s.lh[i] != b;
  }

  lemma KeepCrash(s: State)
    requires Inv(s)
    ensures Inv(CrashNow(s))
  {
    UnspentBounds(CrashNow(s).procs);
  }

  // ----- Steps of commit() and recover_from_log() -----

  /** Outside phase Running no process is in an operation, so no buffer is locked or dirty. */
  lemma QuietLocks(s: State)
    requires ControlInv(s) && s.phase != Running
    ensures s.holder == map[] && s.dirty == {} && s.checking == {}
  {
    assert forall b :: b in s.holder ==> InOpAt(s, s.holder[b]);
  }

  lemma KeepWriteLog(s: State, s': State)
    requires Inv(s) && s.phase.WriteLog? && s.phase.tail < |s.lh| && s' == Step(s)
    ensures Inv(s')
  {
    var t := s.phase.tail;
    var v := View(s, s.lh[t]);
    assert IsHome(s.l, s.disk, s.lh[t]);
    LogBlockWrite(s.l, s.disk, t, v, s'.disk);
    QuietLocks(s);
    WriteLogLocks(s, s');
    WriteLogCache(s, s');
    WriteLogPhase(s, s');
    WriteLogHist(s, s');
  }

  lemma WriteLogHist(s: State, s': State)
    requires ControlInv(s) && CacheInv(s) && HistInv(s) && s.phase.WriteLog? && s.phase.tail < |s.lh|
    requires IsHome(s.l, s.disk, s.lh[s.phase.tail]) && s' == Step(s)
    requires LogOk(s'.l, s'.disk) && SameRecovered(s.l, s.disk, s'.disk) && SameHome(s.l, s.disk, s'.disk)
    ensures HistInv(s')
  {
    assert forall b :: IsHome(s.l, s.disk, b) <==> IsHome(s.l, s'.disk, b);
  }

  lemma WriteLogLocks(s: State, s': State)
    requires LocksInv(s) && s.phase.WriteLog? && s.phase.tail < |s.lh| && s.lh[s.phase.tail] < |s.disk.blocks|
    requires s' == Step(s) && LogOk(s'.l, s'.disk)
    ensures LocksInv(s')
  {
    assert forall b :: IsHome(s.l, s.disk, b) <==> IsHome(s.l, s'.disk, b);
  }

  lemma WriteLogCache(s: State, s': State)
    requires ControlInv(s) && CacheInv(s) && s.phase.WriteLog? && s.phase.tail < |s.lh| && s' == Step(s)
    requires s.holder == map[] && s.dirty == {} && IsHome(s.l, s.disk, s.lh[s.phase.tail])
    ensures CacheInv(s')
  {
    var t := s.phase.tail;
    assert s.lh[t] in s.cache;
    assert Pinned(s', s.lh[t]);
    assert forall c :: Pinned(s', c) <==> Pinned(s, c);
  }

  lemma WriteLogPhase(s: State, s': State)
    requires ControlInv(s) && CacheInv(s) && PhaseInv(s) && s.phase.WriteLog? && s.phase.tail < |s.lh|
    requires IsHome(s.l, s.disk, s.lh[s.phase.tail]) && s' == Step(s) && LogOk(s'.l, s'.disk)
    ensures PhaseInv(s')
  {
    var t := s.phase.tail;
    assert s.lh[t] in s.cache;
    forall i | 0 <= i < t + 1
      ensures s.lh[i] in s'.cache && s'.disk.blocks[s.l.start + 1 + i] == s'.cache[s.lh[i]]
    {
      assert IsHome(s.l, s.disk, s.lh[i]);
    }
  }

  lemma KeepWriteLogDone(s: State, s': State)
    requires Inv(s) && s.phase.WriteLog? && s.phase.tail >= |s.lh| && s' == s.(phase := CommitHead)
    ensures Inv(s')
  {
    assert forall c :: Pinned(s', c) <==> Pinned(s, c);
  }

  /** The header write moves the replayed contents from `com` to `cur` in one step. */
  lemma CommitHeadHist(s: State, s': State)
    requires Inv(s) && s.phase.CommitHead? && s' == Step(s)
    ensures LogOk(s'.l, s'.disk) && HistInv(s')
  {
    CommitWrite(s.l, s.disk, s.lh, s'.disk);
    QuietLocks(s);
    forall b | IsHome(s.l, s'.disk, b)
      ensures Recovered(s.l, s'.disk, b) == s.hist.cur[b]
    {
      assert IsHome(s.l, s.disk, b);
      if b in s.lh {
        var i := IndexOf(s.lh, b);
        assert s.disk.blocks[s.l.start + 1 + i] == s.cache[s.lh[i]];
      }
    }
  }

  lemma KeepCommitHead(s: State, s': State)
    requires Inv(s) && s.phase.CommitHead? && s' == Step(s)
    ensures Inv(s')
  {
    CommitHeadHist(s, s');
    QuietLocks(s);
    assert forall b :: IsHome(s.l, s.disk, b) <==> IsHome(s.l, s'.disk, b);
    assert LocksInv(s');
    assert forall c :: Pinned(s', c) <==> Pinned(s, c);
  }

  /** Both installing phases copy one log block home. */
  ghost predicate Installing(s: State, t: nat) {
    (s.phase == Install(t) || s.phase == RecInstall(t)) && t < |s.lh|
  }

  /** Log blocks are never dirty or pinned, so the cache agrees with the disk about them. */
  lemma LogBlockClean(s: State, t: nat)
    requires ControlInv(s) && CacheInv(s) && Installing(s, t)
    ensures View(s, s.l.start + 1 + t) == s.disk.blocks[s.l.start + 1 + t]
  {
    QuietLocks(s);
    assert forall i :: 0 <= i < |s.lh| ==> IsHome(s.l, s.disk, s.lh[i]);
    assert !Pinned(s, s.l.start + 1 + t);
  }

  lemma InstallDisk(s: State, t: nat, s': State)
    requires ControlInv(s) && CacheInv(s) && PhaseInv(s) && Installing(s, t) && s' == Step(s)
    ensures s'.disk == Apply(s.disk, Block(s.lh[t], s.disk.blocks[s.l.start + 1 + t]))
    ensures LogOk(s'.l, s'.disk) && s'.disk.head == s.disk.head && Installed(s'.l, s'.disk, t + 1)
    ensures SameRecovered(s.l, s.disk, s'.disk) && View(s, s.l.start + 1 + t) == s.disk.blocks[s.l.start + 1 + t]
  {
    LogBlockClean(s, t);
    InstallWrite(s.l, s.disk, t, s'.disk);
  }

  lemma InstallClean(s: State, t: nat, s': State, c: nat)
    requires ControlInv(s) && CacheInv(s) && Installing(s, t) && s' == Step(s) && c in s'.cache && !Pinned(s', c)
    ensures c < |s'.disk.blocks| && s'.cache[c] == s'.disk.blocks[c]
  {
    LogBlockClean(s, t);
    QuietLocks(s);
    assert IsHome(s.l, s.disk, s.lh[t]);
    hide LogOk, Loggable;
    if c != s.lh[t] && Pinned(s, c) {
      PinnedStill(s, t, s', c);
      assert false;
    }
  }

  lemma InstallCache(s: State, t: nat, s': State)
    requires ControlInv(s) && CacheInv(s) && Installing(s, t) && s' == Step(s)
    ensures CacheInv(s')
  {
    forall c | c in s'.cache && !Pinned(s', c)
      ensures c < |s'.disk.blocks| && s'.cache[c] == s'.disk.blocks[c]
    {
      InstallClean(s, t, s', c);
    }
    LogBlockClean(s, t);
    QuietLocks(s);
    assert IsHome(s.l, s.disk, s.lh[t]);
    hide LogOk, Loggable;
  }

  /** Installing block t ends only that block's pin. */
  lemma PinnedStill(s: State, t: nat, s': State, c: nat)
    requires Installing(s, t) && s'.lh == s.lh
    requires s'.phase == (if s.phase.Install? then Install(t + 1) else RecInstall(t + 1))
    requires c != s.lh[t] && Pinned(s, c)
    ensures Pinned(s', c)
  {
    var i :| PinFrom(s) <= i < |s.lh| && s.lh[i] == c;
    assert s'.lh[i] == c;
  }

  lemma InstallHist(s: State, t: nat, s': State)
    requires Inv(s) && Installing(s, t) && s' == Step(s)
    ensures LogOk(s'.l, s'.disk) && HistInv(s')
  {
    InstallDisk(s, t, s');
    if s.phase.Install? {
      InstalledValue(s, t);
    }
    InstallKeepsHist(s, t, s');
  }

  lemma InstallKeepsHist(s: State, t: nat, s': State)
    requires LogOk(s.l, s.disk) && HistInv(s) && Installing(s, t) && s' == Step(s)
    requires s.l.start + 1 + t < |s.disk.blocks|
    requires s'.disk == Apply(s.disk, Block(s.lh[t], s.disk.blocks[s.l.start + 1 + t])) && LogOk(s'.l, s'.disk)
    requires SameRecovered(s.l, s.disk, s'.disk) && View(s, s.l.start + 1 + t) == s.disk.blocks[s.l.start + 1 + t]
    requires s.phase.Install? ==> s.lh[t] < |s.hist.cur| && s.disk.blocks[s.l.start + 1 + t] == s.hist.cur[s.lh[t]]
    ensures HistInv(s')
  {
    assert forall b :: IsHome(s.l, s.disk, b) <==> IsHome(s.l, s'.disk, b);
  }

  /** A block awaiting installation is in the log with its current contents. */
  lemma InstalledValue(s: State, t: nat)
    requires Inv(s) && Installing(s, t)
    ensures s.lh[t] < |s.hist.cur| && s.disk.blocks[s.l.start + 1 + t] == s.hist.cur[s.lh[t]]
  {
    assert IsHome(s.l, s.disk, s.lh[t]);
    assert IndexOf(s.lh, s.lh[t]) == t;
  }

  lemma InstallLocks(s: State, t: nat, s': State)
    requires LocksInv(s) && Installing(s, t) && s' == Step(s) && LogOk(s'.l, s'.disk)
    requires |s'.disk.blocks| == |s.disk.blocks|
    ensures LocksInv(s')
  {
    assert forall b :: IsHome(s.l, s.disk, b) <==> IsHome(s.l, s'.disk, b);
  }

  lemma KeepInstall(s: State, t: nat, s': State)
    requires Inv(s) && Installing(s, t) && s' == Step(s)
    ensures Inv(s')
  {
    InstallDisk(s, t, s');
    InstallLocks(s, t, s');
    InstallCache(s, t, s');
    InstallHist(s, t, s');
  }

  lemma KeepInstallDone(s: State, s': State)
    requires Inv(s) && (s.phase.Install? || s.phase.RecInstall?) && s.phase.tail >= |s.lh| && s' == Step(s)
    ensures Inv(s')
  {
    QuietLocks(s);
    UnspentBounds(s.procs);
  }

  lemma KeepClear(s: State, s': State)
    requires Inv(s) && (s.phase.ClearHead? || s.phase.RecClear?) && s' == Step(s)
    ensures Inv(s')
  {
    ClearWrite(s.l, s.disk, s'.disk);
    QuietLocks(s);
    assert forall b :: IsHome(s.l, s.disk, b) <==> IsHome(s.l, s'.disk, b);
  }

  lemma KeepFinishOrBoot(s: State, s': State)
    requires Inv(s) && (s.phase.Finish? || s.phase.Boot?) && s' == Step(s)
    ensures Inv(s')
  {
    QuietLocks(s);
    UnspentBounds(s.procs);
  }

  lemma KeepAdvance(s: State, s': State)
    requires Inv(s) && s.phase != Running && s' == Step(s)
    ensures Inv(s')
  {
    match s.phase
    case WriteLog(t) =>
      if t < |s.lh| {
        KeepWriteLog(s, s');
      } else {
        KeepWriteLogDone(s, s');
      }
    case CommitHead => KeepCommitHead(s, s');
    case Install(t) =>
      if t < |s.lh| {
        KeepInstall(s, t, s');
      } else {
        KeepInstallDone(s, s');
      }
    case RecInstall(t) =>
      if t < |s.lh| {
        KeepInstall(s, t, s');
      } else {
        KeepInstallDone(s, s');
      }
    case ClearHead => KeepClear(s, s');
    case RecClear => KeepClear(s, s');
    case Finish => KeepFinishOrBoot(s, s');
    case Boot => KeepFinishOrBoot(s, s');
  }

  lemma Keep(s: State, a: Action)
    requires Inv(s) && Enabled(s, a)
    ensures Inv(Next(s, a))
  {
    var s' := Next(s, a);
    match a
    case Begin(p) => KeepBegin(s, p);
    case Acquire(p, b) => KeepAcquire(s, p, b, s');
    case Store(p, b, data) => KeepStore(s, p, b, data, s');
    case Check(p, b) => KeepCheck(s, p, b, s');
    case Append(p, b) => KeepAppend(s, p, b, s');
    case Release(p, b) => KeepRelease(s, p, b, s');
    case End(p) => KeepEnd(s, p, s');
    case ReadLock(b) =>
      KeepCached(s, b, Cached(s, b));
      KeepReading(Cached(s, b), s');
    case ReadUnlock(b) => KeepReading(s, s');
    case Load(b) => KeepCached(s, b, s');
    case Evict(b) => KeepEvict(s, b, s');
    case Advance => KeepAdvance(s, s');
    case Crash => KeepCrash(s);
  }
}
