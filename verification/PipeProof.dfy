/** What every step of the pipe keeps, and the pipe's theorems. */
module PipeProof {
  import opened PipeMonitor

  // ----- The invariant -----

  /** Locks, run state and program counter of one process agree. */
  ghost predicate Placed(s: State, i: nat)
    requires i < |s.procs| == |s.plock|
  {
    var p := s.procs[i];
    && (s.lk == i <==> Holds(p.at))
    && s.plock[i] == (if HoldsOwn(p.at) then i else FREE)
    && (p.st == Awake <==> !(p.at.Sleep4? || p.at.Asleep?))
    && (p.at.Sleep4? ==> p.st == Sleeping)
    && (p.at.Out? <==> p.role.None?)
    && (p.at.Copy? ==> p.role.Reader?)
    && (p.at.Sleep1? || p.at.Sleep2? || p.at.Sleep3? || p.at.Sleep4? || p.at.Asleep? || p.at.Back? ==>
          p.role.Reader? || p.role.Writer?)
    && (p.at.Waking? ==> p.at.k <= |s.procs| && p.at.chan == Wakes(p.role))
    && (p.at.Waking? && p.at.after.ThenSleep? ==> p.role.Writer?)
  }

  /** The channel a role wakes. */
  function Wakes(role: Role): Chan {
    if role.Reader? || role == Closer(false) then NWrite else NRead
  }

  /** Ends in use are open; an end being closed has one user. */
  ghost predicate EndOpen(s: State, i: nat)
    requires i < |s.procs|
  {
    var p := s.procs[i];
    match p.role
    case None => true
    case Writer(_) => s.writeopen
    case Reader(_) => s.readopen
    case Closer(w) => (if w then s.writeopen else s.readopen) == !p.at.Waking?
  }

  ghost predicate Alone(s: State, i: nat, j: nat)
    requires i < |s.procs| && j < |s.procs|
  {
    i != j && s.procs[i].role.Closer? ==> !InUse(s.procs[j].role, s.procs[i].role.writable)
  }

  ghost predicate Ring(s: State) {
    && |s.data| == PIPESIZE
    && |s.rcvd| <= |s.sent| <= |s.rcvd| + PIPESIZE
    && s.rcvd == s.sent[..|s.rcvd|]
    && s.nread == |s.rcvd| % U32 && s.nwrite == |s.sent| % U32
    && forall j {:trigger s.sent[j]} :: |s.rcvd| <= j < |s.sent| ==> s.data[j % PIPESIZE] == s.sent[j]
  }

  /** What holds in every state of every run. */
  ghost predicate Base(s: State) {
    && |s.plock| == |s.procs|
    && (forall i {:trigger Placed(s, i)} :: 0 <= i < |s.procs| ==> Placed(s, i))
    && (forall i {:trigger EndOpen(s, i)} :: 0 <= i < |s.procs| ==> EndOpen(s, i))
    && (forall i, j {:trigger Alone(s, i, j)} :: 0 <= i < |s.procs| && 0 <= j < |s.procs| ==> Alone(s, i, j))
    && Ring(s)
  }

  /** The process has left the lock to sleep and nobody has woken it. */
  predicate Waiting(p: Proc) { p.at.Sleep3? || p.st == Sleeping }

  /** There is a reason to sleep on the channel. */
  predicate Reason(s: State, c: Chan) {
    if c == NWrite then Full(s) && s.readopen else Empty(s) && s.writeopen
  }

  /** The holder of the pipe's lock is going to wake process w on the channel. */
  predicate Pending(s: State, c: Chan, w: nat) {
    && 0 <= s.lk < |s.procs|
    && match s.procs[s.lk].at
       case Waking(chan, k, _) => chan == c && k <= w
       case Test => s.procs[s.lk].role.Writer? && c == NRead
       case Copy => c == NWrite
       case _ => false
  }

  ghost predicate Cared(s: State, w: nat)
    requires w < |s.procs|
  {
    var p := s.procs[w];
    && (Waiting(p) ==> Reason(s, ChanOf(p.role)) || Pending(s, ChanOf(p.role), w))
    && (p.at.Sleep1? || p.at.Sleep2? || (p.at.Waking? && p.at.after.ThenSleep?) ==> Reason(s, ChanOf(p.role)))
  }

  ghost predicate AllCared(s: State) {
    forall w {:trigger Cared(s, w)} :: 0 <= w < |s.procs| ==> Cared(s, w)
  }

  // ----- The ring -----

  lemma Wrap(x: nat)
    ensures (x % U32) % PIPESIZE == x % PIPESIZE
    ensures (x % U32 + 1) % U32 == (x + 1) % U32
  {
    assert U32 == 8388608 * PIPESIZE;
  }

  /** The counters tell full and empty apart although they wrap. */
  lemma RingTests(s: State)
    requires Ring(s)
    ensures Full(s) <==> |s.sent| == |s.rcvd| + PIPESIZE
    ensures Empty(s) <==> |s.sent| == |s.rcvd|
  {
  }

  lemma SlotsDiffer(j: nat, n: nat)
    requires n < j + PIPESIZE && j < n
    ensures j % PIPESIZE != n % PIPESIZE
  {
  }

  lemma Put(s: State, ch: nat, s': State)
    requires Ring(s) && !Full(s) && s' == PutByte(s, ch)
    ensures Ring(s') && !Empty(s')
  {
    RingTests(s);
    var n := |s.sent|;
    Wrap(n);
    assert s.nwrite % PIPESIZE == n % PIPESIZE;
    forall j {:trigger s'.sent[j]} | |s'.rcvd| <= j < |s'.sent| ensures s'.data[j % PIPESIZE] == s'.sent[j] {
      if j < n {
        SlotsDiffer(j, n);
        assert s'.sent[j] == s.sent[j];
      }
    }
    assert s'.sent[..|s.rcvd|] == s.sent[..|s.rcvd|];
    RingTests(s');
  }

  lemma Take(s: State, s': State)
    requires Ring(s) && !Empty(s) && s' == TakeByte(s)
    ensures Ring(s') && !Full(s')
  {
    RingTests(s);
    Wrap(|s.rcvd|);
    assert s.sent[|s.rcvd|] == s.data[s.nread % PIPESIZE];
    assert s'.rcvd == s.sent[..|s.rcvd| + 1];
    RingTests(s');
  }

  // ----- What every step keeps -----

  ghost predicate SameRing(s: State, s': State) {
    s'.data == s.data && s'.nread == s.nread && s'.nwrite == s.nwrite && s'.sent == s.sent && s'.rcvd == s.rcvd
  }

  ghost predicate SamePipe(s: State, s': State) {
    SameRing(s, s') && s'.readopen == s.readopen && s'.writeopen == s.writeopen
  }

  /** The pipe's lock changes hands only between nobody and the process. */
  predicate Handed(l: int, l': int, i: nat) {
    l' == l || (l in {FREE, i} && l' in {FREE, i})
  }

  /** All but process i as before. */
  ghost predicate Others(s: State, i: nat, s': State) {
    && i < |s.procs| == |s'.procs| == |s.plock| == |s'.plock|
    && Handed(s.lk, s'.lk, i)
    && forall j :: 0 <= j < |s.procs| && j != i ==> s'.procs[j] == s.procs[j] && s'.plock[j] == s.plock[j]
  }

  /** A step that touches only process i and the locks. */
  ghost predicate Local(s: State, i: nat, s': State) {
    && Others(s, i, s') && SamePipe(s, s')
    && (s'.procs[i].role == s.procs[i].role || s'.procs[i].role == None)
    && Placed(s', i) && EndOpen(s', i)
  }

  lemma OthersPlaced(s: State, i: nat, s': State)
    requires Base(s) && Others(s, i, s') && Placed(s', i)
    ensures forall j {:trigger Placed(s', j)} :: 0 <= j < |s'.procs| ==> Placed(s', j)
  {
    hide EndOpen, Alone, Ring;
    forall j {:trigger Placed(s', j)} | 0 <= j < |s'.procs| ensures Placed(s', j) {
      assert Placed(s, j);
    }
  }

  lemma LocalBase(s: State, i: nat, s': State)
    requires Base(s) && Local(s, i, s')
    ensures Base(s')
  {
    OthersPlaced(s, i, s');
    hide Placed, Ring;
    assert Ring(s') by { RingSame(s, s'); }
    forall j {:trigger EndOpen(s', j)} | 0 <= j < |s'.procs| ensures EndOpen(s', j) {
      assert EndOpen(s, j);
    }
    forall j, k {:trigger Alone(s', j, k)} | 0 <= j < |s'.procs| && 0 <= k < |s'.procs| ensures Alone(s', j, k) {
      assert Alone(s, j, k);
    }
  }

  lemma RingSame(s: State, s': State)
    requires Ring(s) && SameRing(s, s')
    ensures Ring(s')
  {
  }

  /** The steps that touch only one process and the locks. */
  ghost predicate IsLocal(s: State, a: Action) {
    match a
    case Start(_, _) => false
    case Step(i) =>
      && i < |s.procs|
      && (s.procs[i].at.Test? ==> !s.procs[i].role.Closer? && !Puts(s, i))
      && (s.procs[i].at.Copy? ==> !Takes(s, i))
      && (s.procs[i].at.Waking? ==> s.procs[i].at.k >= |s.procs|)
    case CopyFails(i) => i < |s.procs| && s.procs[i].role.Writer?
    case _ => true
  }

  predicate Puts(s: State, i: nat)
    requires i < |s.procs|
  {
    s.procs[i].role.Writer? && s.procs[i].role.todo != [] && !Full(s)
  }

  predicate Takes(s: State, i: nat)
    requires i < |s.procs|
  {
    s.procs[i].role.Reader? && s.procs[i].role.want != 0 && !Empty(s)
  }

  lemma TestLocal(s: State, i: nat, s': State)
    requires Base(s) && Enabled(s, Step(i)) && s' == StepOf(s, i) && IsLocal(s, Step(i)) && s.procs[i].at.Test?
    ensures Local(s, i, s')
  {
    hide Ring, Alone, Full, Empty;
    assert Placed(s, i) && EndOpen(s, i);
  }

  predicate Falling(at: Where) { at.Sleep1? || at.Sleep2? || at.Sleep3? || at.Sleep4? }

  lemma SleepLocal(s: State, i: nat, s': State)
    requires Base(s) && Enabled(s, Step(i)) && s' == StepOf(s, i) && Falling(s.procs[i].at)
    ensures Local(s, i, s')
  {
    hide Ring, Alone, Full, Empty, WriterTest, ReaderTest, CloserTest, ReaderCopy, WakeStep;
    assert Placed(s, i) && EndOpen(s, i);
  }

  lemma StepLocal(s: State, i: nat, s': State)
    requires Base(s) && Enabled(s, Step(i)) && s' == StepOf(s, i) && IsLocal(s, Step(i))
    requires !s.procs[i].at.Test? && !Falling(s.procs[i].at)
    ensures Local(s, i, s')
  {
    hide Ring, Alone, Full, Empty, WriterTest, ReaderTest, CloserTest;
    assert Placed(s, i) && EndOpen(s, i);
  }

  lemma ActionLocal(s: State, a: Action, s': State)
    requires Base(s) && Enabled(s, a) && s' == Next(s, a) && IsLocal(s, a)
    ensures Local(s, a.i, s')
  {
    hide Ring, Alone, Full, Empty, StepOf;
    if a.Step? {
      if s.procs[a.i].at.Test? { TestLocal(s, a.i, s'); }
      else if Falling(s.procs[a.i].at) { SleepLocal(s, a.i, s'); }
      else { StepLocal(s, a.i, s'); }
    } else {
      assert Placed(s, a.i) && EndOpen(s, a.i);
    }
  }

  lemma StartBase(s: State, i: nat, role: Role, s': State)
    requires Base(s) && Enabled(s, Start(i, role)) && s' == Next(s, Start(i, role))
    ensures Base(s')
  {
    hide Ring;
    assert Placed(s, i);
    OthersPlaced(s, i, s');
    RingSame(s, s');
    forall j {:trigger EndOpen(s', j)} | 0 <= j < |s'.procs| ensures EndOpen(s', j) {
      assert EndOpen(s, j);
    }
    forall j, k {:trigger Alone(s', j, k)} | 0 <= j < |s'.procs| && 0 <= k < |s'.procs| ensures Alone(s', j, k) {
      assert Alone(s, j, k);
    }
  }

  /** One byte moves: only the ring and the role of process i change. */
  ghost predicate Moves(s: State, i: nat, s': State) {
    && Others(s, i, s') && Ring(s')
    && s'.readopen == s.readopen && s'.writeopen == s.writeopen
    && (s.procs[i].role.Writer? ==> s'.procs[i].role.Writer?)
    && (s.procs[i].role.Reader? ==> s'.procs[i].role.Reader?)
    && (s.procs[i].role.Writer? || s.procs[i].role.Reader?)
    && Placed(s', i)
  }

  lemma MovesBase(s: State, i: nat, s': State)
    requires Base(s) && Moves(s, i, s')
    ensures Base(s')
  {
    hide Ring;
    OthersPlaced(s, i, s');
    forall j {:trigger EndOpen(s', j)} | 0 <= j < |s'.procs| ensures EndOpen(s', j) {
      assert EndOpen(s, j);
    }
    forall j, k {:trigger Alone(s', j, k)} | 0 <= j < |s'.procs| && 0 <= k < |s'.procs| ensures Alone(s', j, k) {
      assert Alone(s, j, k);
    }
  }

  lemma PutMoves(s: State, i: nat, s': State)
    requires Base(s) && Enabled(s, Step(i)) && s' == StepOf(s, i) && s.procs[i].at.Test? && Puts(s, i)
    ensures Moves(s, i, s') && !Empty(s') && s'.procs[i].at == Test
  {
    hide EndOpen, Alone, Ring, Full, Empty;
    assert Placed(s, i);
    var s1 := PutByte(s, s.procs[i].role.todo[0]);
    Put(s, s.procs[i].role.todo[0], s1);
    RingSame(s1, s');
    assert Empty(s') == Empty(s1) by { SameTests(s1, s'); }
  }

  lemma SameTests(s: State, s': State)
    requires SameRing(s, s')
    ensures Empty(s) == Empty(s') && Full(s) == Full(s')
  {
  }

  lemma TakeMoves(s: State, a: Action, s': State)
    requires Base(s) && Enabled(s, a) && s' == Next(s, a)
    requires a.Step? || a.CopyFails?
    requires s.procs[a.i].at.Copy? && Takes(s, a.i)
    ensures Moves(s, a.i, s') && !Full(s')
    ensures s'.procs[a.i].at == if a.Step? then Copy else Waking(NWrite, 0, ThenDone)
  {
    hide EndOpen, Alone, Ring, Full, Empty;
    assert Placed(s, a.i);
    var s1 := TakeByte(s);
    Take(s, s1);
    RingSame(s1, s');
    assert Full(s') == Full(s1) by { SameTests(s1, s'); }
  }

  lemma CloseBase(s: State, i: nat, s': State)
    requires Base(s) && Enabled(s, Step(i)) && s' == StepOf(s, i) && s.procs[i].at.Test? && s.procs[i].role.Closer?
    ensures Base(s')
  {
    hide Ring;
    assert Placed(s, i) && EndOpen(s, i);
    OthersPlaced(s, i, s');
    RingSame(s, s');
    forall j {:trigger EndOpen(s', j)} | 0 <= j < |s'.procs| ensures EndOpen(s', j) {
      assert EndOpen(s, j) && Alone(s, i, j);
    }
    forall j, k {:trigger Alone(s', j, k)} | 0 <= j < |s'.procs| && 0 <= k < |s'.procs| ensures Alone(s', j, k) {
      assert Alone(s, j, k);
    }
  }

  /** wakeup's visit of process k. */
  lemma WakeBase(s: State, i: nat, s': State)
    requires Base(s) && Enabled(s, Step(i)) && s' == StepOf(s, i)
    requires s.procs[i].at.Waking? && s.procs[i].at.k < |s.procs|
    ensures Base(s')
  {
    hide Ring;
    var k := s.procs[i].at.k;
    assert Placed(s, i) && Placed(s, k);
    RingSame(s, s');
    forall j {:trigger Placed(s', j)} | 0 <= j < |s'.procs| ensures Placed(s', j) {
      assert Placed(s, j);
    }
    forall j {:trigger EndOpen(s', j)} | 0 <= j < |s'.procs| ensures EndOpen(s', j) {
      assert EndOpen(s, j);
    }
    forall j, m {:trigger Alone(s', j, m)} | 0 <= j < |s'.procs| && 0 <= m < |s'.procs| ensures Alone(s', j, m) {
      assert Alone(s, j, m);
    }
  }

  lemma BaseKept(s: State, a: Action, s': State)
    requires Base(s) && Enabled(s, a) && s' == Next(s, a)
    ensures Base(s')
  {
    hide Base, Ring, Full, Empty, WriterTest, ReaderTest, ReaderCopy, CloserTest, WakeStep;
    if a.Start? {
      StartBase(s, a.i, a.role, s');
    } else if IsLocal(s, a) {
      ActionLocal(s, a, s');
      LocalBase(s, a.i, s');
    } else if s.procs[a.i].at.Test? {
      if s.procs[a.i].role.Closer? {
        CloseBase(s, a.i, s');
      } else {
        PutMoves(s, a.i, s');
        MovesBase(s, a.i, s');
      }
    } else if s.procs[a.i].at.Copy? {
      TakeMoves(s, a, s');
      MovesBase(s, a.i, s');
    } else {
      WakeBase(s, a.i, s');
    }
  }

  // ----- No lost wakeup -----

  /** A killed writer returns while a reader waits for the bytes it wrote. */
  ghost predicate Abandons(s: State, a: Action) {
    && a.KilledReturn? && a.i < |s.procs| && s.procs[a.i].role.Writer?
    && exists w :: 0 <= w < |s.procs| && Waiting(s.procs[w]) && s.procs[w].role.Reader?
  }

  /** A promise to wake process w is kept or no longer needed. */
  ghost predicate Kept(s: State, s': State, w: nat)
    requires w < |s.procs|
  {
    var c := ChanOf(s.procs[w].role);
    Waiting(s.procs[w]) ==> Reason(s', c) || Pending(s', c, w)
  }

  lemma OthersCared(s: State, i: nat, s': State)
    requires Base(s) && AllCared(s) && Others(s, i, s') && SamePipe(s, s')
    requires Cared(s', i)
    requires s.lk == i ==> forall w {:trigger Kept(s, s', w)} :: 0 <= w < |s.procs| && w != i ==> Kept(s, s', w)
    ensures AllCared(s')
  {
    hide Ring, Alone, EndOpen;
    SameTests(s, s');
    forall w {:trigger Cared(s', w)} | 0 <= w < |s'.procs| ensures Cared(s', w) {
      assert Cared(s, w) && Placed(s, w) && Placed(s, i);
      if w != i { assert s.lk == i ==> Kept(s, s', w); }
    }
  }

  lemma TestKeeps(s: State, i: nat, s': State, w: nat)
    requires Base(s) && AllCared(s) && Enabled(s, Step(i)) && s' == StepOf(s, i) && IsLocal(s, Step(i))
    requires s.procs[i].at.Test? && w < |s.procs|
    ensures |s'.procs| == |s.procs| && Cared(s', i) && (w != i ==> Kept(s, s', w))
  {
    hide Ring, Alone;
    assert Placed(s, i) && EndOpen(s, i) && Cared(s, i) && Cared(s, w) && Placed(s, w) && EndOpen(s, w);
  }

  lemma SleepKeeps(s: State, i: nat, s': State, w: nat)
    requires Base(s) && AllCared(s) && Enabled(s, Step(i)) && s' == StepOf(s, i) && Falling(s.procs[i].at)
    requires w < |s.procs|
    ensures |s'.procs| == |s.procs| && Cared(s', i) && (s.lk == i && w != i ==> Kept(s, s', w))
  {
    hide Ring, Alone, WriterTest, ReaderTest, CloserTest, ReaderCopy, WakeStep, EndOpen;
    assert Placed(s, i) && Cared(s, i) && Cared(s, w) && Placed(s, w);
  }

  lemma StepKeeps(s: State, i: nat, s': State, w: nat)
    requires Base(s) && AllCared(s) && Enabled(s, Step(i)) && s' == StepOf(s, i) && IsLocal(s, Step(i))
    requires !s.procs[i].at.Test? && !Falling(s.procs[i].at) && w < |s.procs|
    ensures |s'.procs| == |s.procs| && Cared(s', i) && (s.lk == i && w != i ==> Kept(s, s', w))
  {
    hide Ring, Alone, WriterTest, ReaderTest, CloserTest, EndOpen;
    assert Placed(s, i) && Cared(s, i) && Cared(s, w) && Placed(s, w);
  }

  lemma OtherKeeps(s: State, a: Action, s': State, w: nat)
    requires Base(s) && AllCared(s) && Enabled(s, a) && s' == Next(s, a) && !a.Step?
    requires a.Start? || IsLocal(s, a)
    requires !Abandons(s, a) && w < |s.procs|
    ensures |s'.procs| == |s.procs| && Cared(s', a.i) && (s.lk == a.i && w != a.i ==> Kept(s, s', w))
  {
    hide Ring, Alone, EndOpen;
    assert Placed(s, a.i) && Cared(s, a.i) && Cared(s, w) && Placed(s, w);
  }

  lemma PutKeeps(s: State, i: nat, s': State, w: nat)
    requires Base(s) && AllCared(s) && Enabled(s, Step(i)) && s.procs[i].at.Test? && Puts(s, i) && w < |s.procs|
    requires Moves(s, i, s') && s'.procs[i].at == Test
    ensures Cared(s', w)
  {
    hide Ring, Alone, EndOpen;
    assert Placed(s, i) && Cared(s, i) && Cared(s, w) && Placed(s, w);
  }

  lemma TakeKeeps(s: State, i: nat, s': State, w: nat)
    requires Base(s) && AllCared(s) && i < |s.procs| && s.procs[i].at.Copy? && Takes(s, i) && w < |s.procs|
    requires Moves(s, i, s') && s'.procs[i].at in {Copy, Waking(NWrite, 0, ThenDone)}
    ensures Cared(s', w)
  {
    hide Ring, Alone, EndOpen;
    assert Placed(s, i) && Cared(s, i) && Cared(s, w) && Placed(s, w);
  }

  lemma CloseKeeps(s: State, i: nat, s': State, w: nat)
    requires Base(s) && AllCared(s) && Enabled(s, Step(i)) && s' == StepOf(s, i) && w < |s.procs|
    requires s.procs[i].at.Test? && s.procs[i].role.Closer?
    ensures |s'.procs| == |s.procs| && Cared(s', w)
  {
    hide Ring;
    assert Placed(s, i) && Cared(s, i) && Cared(s, w) && Placed(s, w) && EndOpen(s, w) && Alone(s, i, w);
  }

  lemma WakeKeeps(s: State, i: nat, s': State, w: nat)
    requires Base(s) && AllCared(s) && Enabled(s, Step(i)) && s' == StepOf(s, i) && w < |s.procs|
    requires s.procs[i].at.Waking? && s.procs[i].at.k < |s.procs|
    ensures |s'.procs| == |s.procs| && Cared(s', w)
  {
    hide Ring, Alone, EndOpen, WriterTest, ReaderTest, CloserTest, ReaderCopy;
    var k := s.procs[i].at.k;
    assert Placed(s, i) && Placed(s, k) && Cared(s, i) && Cared(s, w) && Placed(s, w);
  }

  lemma LocalKeeps(s: State, a: Action, s': State, w: nat)
    requires Base(s) && AllCared(s) && Enabled(s, a) && s' == Next(s, a) && (a.Start? || IsLocal(s, a))
    requires !Abandons(s, a) && w < |s.procs|
    ensures |s'.procs| == |s.procs| && Cared(s', a.i) && (s.lk == a.i && w != a.i ==> Kept(s, s', w))
  {
    hide Base, AllCared, Cared, Kept, StepOf, Abandons;
    if !a.Step? {
      OtherKeeps(s, a, s', w);
    } else if s.procs[a.i].at.Test? {
      TestKeeps(s, a.i, s', w);
    } else if Falling(s.procs[a.i].at) {
      SleepKeeps(s, a.i, s', w);
    } else {
      StepKeeps(s, a.i, s', w);
    }
  }

  lemma LocalCared(s: State, a: Action, s': State)
    requires Base(s) && AllCared(s) && Enabled(s, a) && s' == Next(s, a) && (a.Start? || IsLocal(s, a))
    requires !Abandons(s, a)
    ensures AllCared(s')
  {
    hide Base, AllCared, Cared, Kept, StepOf, Abandons, Placed, EndOpen;
    if a.Start? { StartOthers(s, a.i, a.role, s'); } else { ActionLocal(s, a, s'); }
    forall w {:trigger Kept(s, s', w)} | 0 <= w < |s.procs| && w != a.i && s.lk == a.i ensures Kept(s, s', w) {
      LocalKeeps(s, a, s', w);
    }
    LocalKeeps(s, a, s', a.i);
    OthersCared(s, a.i, s');
  }

  lemma StartOthers(s: State, i: nat, role: Role, s': State)
    requires Base(s) && Enabled(s, Start(i, role)) && s' == Next(s, Start(i, role))
    ensures Others(s, i, s') && SamePipe(s, s')
  {
  }

  lemma CaredKept(s: State, a: Action, s': State)
    requires Base(s) && AllCared(s) && Enabled(s, a) && s' == Next(s, a) && !Abandons(s, a)
    ensures AllCared(s')
  {
    hide Base, Cared, Ring, Full, Empty, Abandons, WriterTest, ReaderTest, ReaderCopy, CloserTest, WakeStep;
    if a.Start? || IsLocal(s, a) {
      LocalCared(s, a, s');
    } else if s.procs[a.i].at.Test? {
      TestCared(s, a.i, s');
    } else if s.procs[a.i].at.Copy? {
      TakeMoves(s, a, s');
      forall w {:trigger Cared(s', w)} | 0 <= w < |s'.procs| ensures Cared(s', w) { TakeKeeps(s, a.i, s', w); }
    } else {
      WakeKeeps(s, a.i, s', 0);
      forall w {:trigger Cared(s', w)} | 0 <= w < |s'.procs| ensures Cared(s', w) { WakeKeeps(s, a.i, s', w); }
    }
  }

  lemma TestCared(s: State, i: nat, s': State)
    requires Base(s) && AllCared(s) && Enabled(s, Step(i)) && s' == StepOf(s, i) && s.procs[i].at.Test?
    requires s.procs[i].role.Closer? || Puts(s, i)
    ensures AllCared(s')
  {
    hide Base, Cared, Ring, Full, Empty;
    if s.procs[i].role.Closer? {
      forall w {:trigger Cared(s', w)} | 0 <= w < |s'.procs| ensures Cared(s', w) { CloseKeeps(s, i, s', w); }
    } else {
      PutMoves(s, i, s');
      forall w {:trigger Cared(s', w)} | 0 <= w < |s'.procs| ensures Cared(s', w) { PutKeeps(s, i, s', w); }
    }
  }

  // ----- Runs -----

  lemma InitOk(s: State)
    requires Init(s)
    ensures Base(s) && AllCared(s)
  {
  }

  lemma {:induction false} BaseAlways(ss: seq<State>, acts: seq<Action>, x: nat)
    requires IsRun(ss, acts) && x < |ss|
    ensures Base(ss[x])
  {
    hide Base, Init, Enabled, Next;
    if x == 0 {
      InitOk(ss[0]);
    } else {
      BaseAlways(ss, acts, x - 1);
      BaseKept(ss[x - 1], acts[x - 1], ss[x]);
    }
  }

  lemma {:induction false} CaredAlways(ss: seq<State>, acts: seq<Action>, x: nat)
    requires IsRun(ss, acts) && x < |ss|
    requires forall y {:trigger acts[y]} :: 0 <= y < x ==> !Abandons(ss[y], acts[y])
    ensures AllCared(ss[x])
  {
    hide Base, AllCared, Init, Enabled, Next, Abandons;
    if x == 0 {
      InitOk(ss[0]);
    } else {
      CaredAlways(ss, acts, x - 1);
      BaseAlways(ss, acts, x - 1);
      assert !Abandons(ss[x - 1], acts[x - 1]);
      CaredKept(ss[x - 1], acts[x - 1], ss[x]);
    }
  }

  /** When nobody holds the pipe, whoever waits has a reason to: a writer waits only on a full
      pipe that can still be read, a reader only on an empty pipe that can still be written. */
  ghost predicate NobodyForgotten(s: State) {
    s.lk == FREE ==> forall w :: 0 <= w < |s.procs| && Waiting(s.procs[w]) ==> Reason(s, ChanOf(s.procs[w].role))
  }

  /** No wakeup is lost in a run, exactly when no writer returns because it was killed while a
      reader waits: that return skips the wakeup of the readers. */
  lemma NoLostWakeup(ss: seq<State>, acts: seq<Action>)
    requires IsRun(ss, acts)
    ensures (forall x :: 0 <= x < |ss| ==> NobodyForgotten(ss[x]))
            <==> (forall x {:trigger acts[x]} :: 0 <= x < |acts| ==> !Abandons(ss[x], acts[x]))
  {
    hide Base, Init, Enabled, Next, Abandons, NobodyForgotten;
    if forall x {:trigger acts[x]} :: 0 <= x < |acts| ==> !Abandons(ss[x], acts[x]) {
      forall x | 0 <= x < |ss| ensures NobodyForgotten(ss[x]) {
        CaredAlways(ss, acts, x);
        CaredIsEnough(ss[x]);
      }
    } else {
      var x :| 0 <= x < |acts| && Abandons(ss[x], acts[x]);
      BaseAlways(ss, acts, x);
      AbandonForgets(ss[x], acts[x], ss[x + 1]);
    }
  }

  lemma CaredIsEnough(s: State)
    requires AllCared(s)
    ensures NobodyForgotten(s)
  {
    forall w | 0 <= w < |s.procs| && Waiting(s.procs[w]) && s.lk == FREE ensures Reason(s, ChanOf(s.procs[w].role)) {
      assert Cared(s, w);
    }
  }

  lemma AbandonForgets(s: State, a: Action, s': State)
    requires Base(s) && Enabled(s, a) && s' == Next(s, a) && Abandons(s, a)
    ensures !NobodyForgotten(s')
  {
    hide Placed, EndOpen, Alone;
    var w :| 0 <= w < |s.procs| && Waiting(s.procs[w]) && s.procs[w].role.Reader?;
    RingTests(s);
    assert s'.procs[w] == s.procs[w];
  }

  /** wakeup has been past process w, so w does not wait on that channel any more. */
  ghost predicate Swept(s: State, w: nat)
    requires w < |s.procs|
  {
    (0 <= s.lk < |s.procs| && s.procs[s.lk].at.Waking? && w < s.procs[s.lk].at.k
     && ChanOf(s.procs[w].role) == s.procs[s.lk].at.chan) ==> !Waiting(s.procs[w])
  }

  /** Without the pipe's lock no process starts to wait. */
  lemma NoNewWaiter(s: State, a: Action, s': State)
    requires Base(s) && Enabled(s, a) && s' == Next(s, a) && s.lk != a.i
    ensures Others(s, a.i, s') && (s'.lk == s.lk || s'.lk == a.i)
    ensures Waiting(s'.procs[a.i]) ==> Waiting(s.procs[a.i]) && s'.procs[a.i].role == s.procs[a.i].role
    ensures s'.lk == a.i ==> s'.procs[a.i].at == Test
  {
    hide Ring, Alone, EndOpen, Full, Empty, WriterTest, ReaderTest, CloserTest, ReaderCopy, WakeStep, MayStart;
    assert Placed(s, a.i);
  }

  /** Any other step of the holder that leads into a wakeup starts it at process 0. */
  lemma StartsAtZero(s: State, i: nat, s': State)
    requires Base(s) && Enabled(s, Step(i)) && s' == StepOf(s, i) && s.lk == i && !s.procs[i].at.Waking?
    ensures |s'.procs| == |s.procs| && s'.lk in {i, FREE} && (s'.procs[i].at.Waking? ==> s'.procs[i].at.k == 0)
  {
    hide Ring, Alone, EndOpen, Full, Empty, WakeStep;
    assert Placed(s, i);
  }

  lemma OtherActions(s: State, a: Action, s': State)
    requires Base(s) && Enabled(s, a) && s' == Next(s, a) && s.lk == a.i && !a.Step?
    ensures Others(s, a.i, s') && s'.lk in {a.i, FREE} && !Waiting(s'.procs[a.i])
    ensures s'.procs[a.i].at.Waking? ==> s'.procs[a.i].at == s.procs[a.i].at || s'.procs[a.i].at.k == 0
  {
    hide Ring, Alone, EndOpen, Full, Empty, StepOf, MayStart;
    assert Placed(s, a.i);
  }

  /** It passes a process only once that process is not, or no longer, waiting. */
  lemma PassesSwept(s: State, i: nat, s': State, w: nat)
    requires Base(s) && Enabled(s, Step(i)) && s' == StepOf(s, i)
    requires s.procs[i].at.Waking? && w < |s.procs| && Swept(s, w)
    ensures w < |s'.procs| && Swept(s', w)
  {
    hide Ring, Alone, EndOpen, Full, Empty, WriterTest, ReaderTest, CloserTest, ReaderCopy;
    assert Placed(s, i) && Placed(s, w);
  }

  lemma SweptKept(s: State, a: Action, s': State, w: nat)
    requires Base(s) && Enabled(s, a) && s' == Next(s, a) && w < |s.procs| && Swept(s, w)
    ensures w < |s'.procs| && Swept(s', w)
  {
    hide Base, StepEnabled, MayStart, StepOf, Next;
    if s.lk != a.i {
      NoNewWaiter(s, a, s');
    } else if !a.Step? {
      OtherActions(s, a, s');
    } else {
      StepNext(s, a, s');
      if s.procs[a.i].at.Waking? { PassesSwept(s, a.i, s', w); } else { StartsAtZero(s, a.i, s'); }
    }
  }

  lemma StepNext(s: State, a: Action, s': State)
    requires Enabled(s, a) && s' == Next(s, a) && a.Step?
    ensures s' == StepOf(s, a.i)
  {
    hide StepOf;
  }

  lemma {:induction false} SweptAlways(ss: seq<State>, acts: seq<Action>, x: nat, w: nat)
    requires IsRun(ss, acts) && x < |ss| && w < |ss[0].procs|
    ensures w < |ss[x].procs| && Swept(ss[x], w)
  {
    hide Base, Enabled, Next;
    if x > 0 {
      SweptAlways(ss, acts, x - 1, w);
      BaseAlways(ss, acts, x - 1);
      SweptKept(ss[x - 1], acts[x - 1], ss[x], w);
    }
  }

  /** wakeup misses nobody: when its loop is over, no process waits on the channel, whatever the
      processes on their way into sleep did meanwhile. */
  lemma WakeupReachesAll(ss: seq<State>, acts: seq<Action>, x: nat, h: nat, w: nat)
    requires IsRun(ss, acts) && x < |ss| && w < |ss[0].procs| && h < |ss[x].procs| && ss[x].lk == h
    requires ss[x].procs[h].at.Waking? && ss[x].procs[h].at.k == |ss[x].procs|
    ensures w < |ss[x].procs|
    ensures ChanOf(ss[x].procs[w].role) == ss[x].procs[h].at.chan ==> !Waiting(ss[x].procs[w])
  {
    hide IsRun;
    SweptAlways(ss, acts, x, w);
  }

  /** First in, first out, across the wrap of the 32-bit counters: what was received is a prefix
      of what was sent, the rest is in the ring in order, and the tests see exactly how much. */
  lemma FirstInFirstOut(ss: seq<State>, acts: seq<Action>, x: nat)
    requires IsRun(ss, acts) && x < |ss|
    ensures ss[x].rcvd <= ss[x].sent && |ss[x].sent| - |ss[x].rcvd| <= PIPESIZE == |ss[x].data|
    ensures forall j {:trigger ss[x].sent[j]} :: |ss[x].rcvd| <= j < |ss[x].sent| ==>
              ss[x].sent[j] == ss[x].data[j % PIPESIZE]
    ensures Empty(ss[x]) <==> |ss[x].sent| == |ss[x].rcvd|
    ensures Full(ss[x]) <==> |ss[x].sent| - |ss[x].rcvd| == PIPESIZE
  {
    hide IsRun, Full, Empty;
    BaseAlways(ss, acts, x);
    RingTests(ss[x]);
  }

  // ----- A wakeup is lost in some run -----

  function Zeros(n: nat): seq<nat> { seq(n, i => 0) }

  function Idle(): Proc { Proc(None, Out, Awake, false) }

  function Fresh(): State {
    State([Idle(), Idle()], FREE, [FREE, FREE], Zeros(PIPESIZE), 0, 0, true, true, [], [])
  }

  /** Process 0 waits to read; process 1, killed, has written k bytes and holds the lock. */
  function Writing(k: nat): State
    requires k <= PIPESIZE
  {
    State([Proc(Reader(1), Asleep, Sleeping, false), Proc(Writer(Zeros(PIPESIZE + 1 - k)), Test, Awake, true)],
          1, [FREE, FREE], Zeros(PIPESIZE), 0, k, true, true, Zeros(k), [])
  }

  /** ss extended by one step. */
  ghost predicate Grows(ss: seq<State>, acts: seq<Action>, a: Action, s': State) {
    IsRun(ss, acts) && Enabled(ss[|acts|], a) && s' == Next(ss[|acts|], a)
  }

  lemma Extend(ss: seq<State>, acts: seq<Action>, a: Action, s': State)
    requires Grows(ss, acts, a, s')
    ensures IsRun(ss + [s'], acts + [a])
  {
    hide Init, Enabled, Next;
    var ts, bs := ss + [s'], acts + [a];
    forall x {:trigger bs[x]} | 0 <= x < |bs| ensures Enabled(ts[x], bs[x]) && ts[x + 1] == Next(ts[x], bs[x]) {
      if x < |acts| { assert bs[x] == acts[x]; }
    }
  }

  /** Process 0 at some point of piperead on the empty pipe. */
  function Reading(at: Where, st: RunState, lk: int, own: int): State {
    Fresh().(procs := [Proc(Reader(1), at, st, false), Idle()], lk := lk, plock := [own, FREE])
  }

  lemma More(ss: seq<State>, acts: seq<Action>, a: Action, s': State) returns (ts: seq<State>, bs: seq<Action>)
    requires Grows(ss, acts, a, s')
    ensures |ts| == |bs| + 1 && IsRun(ts, bs) && ts[|bs|] == s'
  {
    hide Enabled, Next;
    Extend(ss, acts, a, s');
    ts, bs := ss + [s'], acts + [a];
  }

  lemma ReadStep(s: State, s': State)
    requires (s, s') in {(Reading(Want, Awake, FREE, FREE), Reading(Test, Awake, 0, FREE)),
                         (Reading(Test, Awake, 0, FREE), Reading(Sleep1, Awake, 0, FREE)),
                         (Reading(Sleep1, Awake, 0, FREE), Reading(Sleep2, Awake, 0, 0)),
                         (Reading(Sleep2, Awake, 0, 0), Reading(Sleep3, Awake, FREE, 0)),
                         (Reading(Sleep3, Awake, FREE, 0), Reading(Sleep4, Sleeping, FREE, 0)),
                         (Reading(Sleep4, Sleeping, FREE, 0), Reading(Asleep, Sleeping, FREE, FREE))}
    ensures Enabled(s, Step(0)) && s' == Next(s, Step(0))
  {
    hide Zeros;
    assert |Zeros(PIPESIZE)| == PIPESIZE by { ZerosLength(PIPESIZE); }
    assert s'.procs == Next(s, Step(0)).procs && s'.plock == Next(s, Step(0)).plock;
  }

  lemma ZerosLength(n: nat)
    ensures |Zeros(n)| == n
  {
  }

  /** piperead on an empty pipe, down to sleep. */
  lemma Sleeps() returns (ss: seq<State>, acts: seq<Action>)
    ensures |ss| == |acts| + 1 && IsRun(ss, acts)
    ensures ss[|acts|] == Reading(Asleep, Sleeping, FREE, FREE)
  {
    var s := Reading(Want, Awake, FREE, FREE);
    ss, acts := [Fresh(), s], [Start(0, Reader(1))];
    assert IsRun(ss, acts);
    hide IsRun, Enabled, Next, Reading;
    var path := [Reading(Test, Awake, 0, FREE), Reading(Sleep1, Awake, 0, FREE), Reading(Sleep2, Awake, 0, 0),
                 Reading(Sleep3, Awake, FREE, 0), Reading(Sleep4, Sleeping, FREE, 0),
                 Reading(Asleep, Sleeping, FREE, FREE)];
    for i := 0 to 6
      invariant |ss| == |acts| + 1 && IsRun(ss, acts)
      invariant ss[|acts|] == if i == 0 then s else path[i - 1]
    {
      ReadStep(ss[|acts|], path[i]);
      ss, acts := More(ss, acts, Step(0), path[i]);
    }
  }

  /** pipewrite starts, is killed and takes the lock. */
  lemma Writes() returns (ss: seq<State>, acts: seq<Action>)
    ensures |ss| == |acts| + 1 && IsRun(ss, acts) && ss[|acts|] == Writing(0)
  {
    ss, acts := Sleeps();
    hide IsRun, Zeros;
    ZerosLength(PIPESIZE);
    var s := ss[|acts|];
    var todo := Zeros(PIPESIZE + 1);
    var s1 := WithProc(s, 1, Proc(Writer(todo), Want, Awake, false));
    var s2 := WithProc(s, 1, Proc(Writer(todo), Want, Awake, true));
    ss, acts := More(ss, acts, Start(1, Writer(todo)), s1);
    ss, acts := More(ss, acts, Kill(1), s2);
    assert Zeros(0) == [] by { ZerosLength(0); }
    assert Writing(0).procs == WithProc(s2, 1, Proc(Writer(todo), Test, Awake, true)).procs;
    ss, acts := More(ss, acts, Step(1), Writing(0));
  }

  lemma WriteStep(k: nat)
    requires k < PIPESIZE
    ensures Enabled(Writing(k), Step(1)) && Writing(k + 1) == Next(Writing(k), Step(1))
  {
    var s, s' := Writing(k), Writing(k + 1);
    assert Zeros(PIPESIZE + 1 - k)[1..] == Zeros(PIPESIZE - k);
    assert Zeros(k) + [0] == Zeros(k + 1);
    assert Zeros(PIPESIZE)[k := 0] == Zeros(PIPESIZE);
    hide Zeros;
    assert Next(s, Step(1)).procs == s'.procs;
  }

  /** A reader asleep on a full pipe that nobody holds: the killed writer did not wake it. */
  lemma WakeupLost() returns (ss: seq<State>, acts: seq<Action>)
    ensures IsRun(ss, acts) && |ss| == |acts| + 1
    ensures ss[|acts|].lk == FREE && Full(ss[|acts|]) && !NobodyForgotten(ss[|acts|])
  {
    ss, acts := Writes();
    hide IsRun, Enabled, Next, Writing;
    for k := 0 to PIPESIZE
      invariant |ss| == |acts| + 1 && IsRun(ss, acts) && ss[|acts|] == Writing(k)
    {
      WriteStep(k);
      ss, acts := More(ss, acts, Step(1), Writing(k + 1));
    }
    ReturnForgets();
    ss, acts := More(ss, acts, KilledReturn(1), Leave(Writing(PIPESIZE), 1));
  }

  lemma ReturnForgets()
    ensures Enabled(Writing(PIPESIZE), KilledReturn(1))
    ensures Leave(Writing(PIPESIZE), 1) == Next(Writing(PIPESIZE), KilledReturn(1))
    ensures var s := Leave(Writing(PIPESIZE), 1); s.lk == FREE && Full(s) && !NobodyForgotten(s)
  {
    var s := Leave(Writing(PIPESIZE), 1);
    assert Waiting(s.procs[0]);
  }
}
