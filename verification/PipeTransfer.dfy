/** Which bytes go through a pipe, and when a write or a read returns. */
module PipeTransfer {
  import opened PipeMonitor
  import opened PipeProof

  // ----- Who put which byte -----

  datatype Put = Put(who: nat, ch: nat)

  /** The byte that an action added to what was sent. */
  function PutBy(s: State, a: Action, s': State): seq<Put> {
    if |s'.sent| > |s.sent| then [Put(a.i, s'.sent[|s.sent|])] else []
  }

  /** All bytes put from state w to state x, in order, with who put them. */
  ghost function PutsFrom(ss: seq<State>, acts: seq<Action>, w: nat, x: nat): seq<Put>
    requires |ss| == |acts| + 1 && w <= x < |ss|
    decreases x
  {
    if w == x then [] else PutsFrom(ss, acts, w, x - 1) + PutBy(ss[x - 1], acts[x - 1], ss[x])
  }

  function Bytes(puts: seq<Put>): seq<nat> {
    if puts == [] then [] else Bytes(puts[..|puts| - 1]) + [puts[|puts| - 1].ch]
  }

  /** The bytes that process i put. */
  function Of(puts: seq<Put>, i: nat): seq<nat> {
    if puts == [] then []
    else Of(puts[..|puts| - 1], i) + if puts[|puts| - 1].who == i then [puts[|puts| - 1].ch] else []
  }

  lemma PutOne(puts: seq<Put>, p: Put, i: nat)
    ensures Bytes(puts + [p]) == Bytes(puts) + [p.ch]
    ensures Of(puts + [p], i) == if p.who == i then Of(puts, i) + [p.ch] else Of(puts, i)
  {
    assert (puts + [p])[..|puts|] == puts;
    assert Of(puts, i) + [] == Of(puts, i);
  }

  /** A process that puts a byte is in a write, and puts the first byte that is left to do. */
  predicate PutsNext(s: State, a: Action, s': State) {
    && a.Step? && a.i < |s.procs| == |s'.procs| && s.procs[a.i].role.Writer? && s.procs[a.i].role.todo != []
    && s'.sent == s.sent + [s.procs[a.i].role.todo[0]]
    && s'.procs[a.i].role == Writer(s.procs[a.i].role.todo[1..])
  }

  /** What an action means for what was sent and for the write of process i. */
  ghost predicate SentMoves(s: State, a: Action, s': State, i: nat) {
    && |s'.procs| == |s.procs| && (s'.sent == s.sent || PutsNext(s, a, s'))
    && (i < |s.procs| && s.procs[i].role.Writer? && s'.procs[i].role.Writer? ==>
          s'.procs[i].role == s.procs[i].role || (PutsNext(s, a, s') && a.i == i))
    && (i < |s.procs| && !s.procs[i].role.Writer? && s'.procs[i].role.Writer? ==> a == Start(i, s'.procs[i].role))
  }

  lemma TestSent(s: State, j: nat, s': State, i: nat)
    requires Enabled(s, Step(j)) && s' == Next(s, Step(j)) && s.procs[j].at.Test?
    ensures SentMoves(s, Step(j), s', i)
  {
    hide ReaderCopy, WakeStep;
  }

  /** A step that sends nothing and makes nobody a writer. */
  predicate SendsNothing(s: State, s': State, i: nat) {
    && s'.sent == s.sent && |s'.procs| == |s.procs|
    && (i < |s.procs| ==> s'.procs[i].role == s.procs[i].role || !s'.procs[i].role.Writer?)
  }

  lemma StepSent(s: State, j: nat, s': State, i: nat)
    requires Enabled(s, Step(j)) && s' == Next(s, Step(j)) && !s.procs[j].at.Test?
    ensures SendsNothing(s, s', i)
  {
    if s.procs[j].at.Waking? {
      var at := s.procs[j].at;
      WakeSent(s, j, at.chan, at.k, at.after, s', i);
    } else if s.procs[j].at.Copy? {
      CopySent(s, j, s', i);
    } else {
      hide WriterTest, ReaderTest, CloserTest, WakeStep, ReaderCopy, MayStart, SeesKilled;
    }
  }

  lemma CopySent(s: State, j: nat, s': State, i: nat)
    requires j < |s.procs| && s.procs[j].role.Reader? && |s.data| == PIPESIZE && s' == ReaderCopy(s, j)
    ensures SendsNothing(s, s', i)
  {
  }

  lemma WakeSent(s: State, j: nat, chan: Chan, k: nat, after: After, s': State, i: nat)
    requires j < |s.procs| && s' == WakeStep(s, j, chan, k, after)
    ensures SendsNothing(s, s', i)
  {
  }

  lemma SentStep(s: State, a: Action, s': State, i: nat)
    requires Base(s) && Enabled(s, a) && s' == Next(s, a)
    ensures SentMoves(s, a, s', i)
  {
    if a.Step? {
      hide Base, Enabled, Next;
      ByStep(s, a, s', i);
    } else {
      assert a.Start? ==> Placed(s, a.i);
      hide StepOf, PutsNext, Placed, EndOpen, Alone, Ring;
    }
  }

  lemma ByStep(s: State, a: Action, s': State, i: nat)
    requires Enabled(s, a) && s' == Next(s, a) && a.Step?
    ensures SentMoves(s, a, s', i)
  {
    hide StepOf, PutsNext;
    if s.procs[a.i].at.Test? { TestSent(s, a.i, s', i); } else { StepSent(s, a.i, s', i); }
  }

  // ----- Writes -----

  /** Process i is in the write it began at step w, up to state x. */
  ghost predicate InWrite(ss: seq<State>, acts: seq<Action>, i: nat, w: nat, x: nat) {
    && w < |acts| && w < x < |ss| && acts[w].Start? && acts[w].i == i && acts[w].role.Writer?
    && forall y :: w < y <= x ==> i < |ss[y].procs| && ss[y].procs[i].role.Writer?
  }

  /** The bytes that were sent are those that processes put, in the order they put them. */
  lemma {:induction false} SentIsPut(ss: seq<State>, acts: seq<Action>, x: nat)
    requires IsRun(ss, acts) && x < |ss|
    ensures ss[x].sent == Bytes(PutsFrom(ss, acts, 0, x))
  {
    hide Init, Enabled, Next, Base;
    if x > 0 {
      SentIsPut(ss, acts, x - 1);
      BaseAlways(ss, acts, x - 1);
      assert Enabled(ss[x - 1], acts[x - 1]) && ss[(x - 1) + 1] == Next(ss[x - 1], acts[x - 1]);
      SentStep(ss[x - 1], acts[x - 1], ss[x], 0);
      PutBytes(PutsFrom(ss, acts, 0, x - 1), ss[x - 1], acts[x - 1], ss[x]);
    } else {
      NothingSent(ss[0]);
    }
  }

  lemma NothingSent(s: State)
    requires Init(s)
    ensures s.sent == []
  {
  }

  lemma PutBytes(puts: seq<Put>, s: State, a: Action, s': State)
    requires (s'.sent == s.sent || PutsNext(s, a, s')) && s.sent == Bytes(puts)
    ensures s'.sent == Bytes(puts + PutBy(s, a, s'))
  {
    hide Bytes;
    if s'.sent == s.sent {
      assert puts + [] == puts;
    } else {
      PutOne(puts, Put(a.i, s'.sent[|s.sent|]), 0);
    }
  }

  /** While a write goes on, what its process has put since it began, followed by what is left to
      do, is the buffer it was called with. */
  lemma {:induction false} WriteInOrder(ss: seq<State>, acts: seq<Action>, i: nat, w: nat, x: nat)
    requires IsRun(ss, acts) && InWrite(ss, acts, i, w, x)
    ensures Of(PutsFrom(ss, acts, w, x), i) + ss[x].procs[i].role.todo == acts[w].role.todo
    decreases x
  {
    hide Init, Enabled, Next, Base;
    BaseAlways(ss, acts, x - 1);
    assert Enabled(ss[x - 1], acts[x - 1]) && ss[(x - 1) + 1] == Next(ss[x - 1], acts[x - 1]);
    if x == w + 1 {
      StartsWrite(ss[w], acts[w], ss[x]);
      assert PutsFrom(ss, acts, w, w) == [];
    } else {
      WriteInOrder(ss, acts, i, w, x - 1);
      SentStep(ss[x - 1], acts[x - 1], ss[x], i);
      PutMore(PutsFrom(ss, acts, w, x - 1), ss[x - 1], acts[x - 1], ss[x], i);
    }
  }

  lemma StartsWrite(s: State, a: Action, s': State)
    requires Enabled(s, a) && s' == Next(s, a) && a.Start?
    ensures a.i < |s'.procs| && s'.procs[a.i].role == a.role && s'.sent == s.sent
  {
  }

  lemma PutMore(puts: seq<Put>, s: State, a: Action, s': State, i: nat)
    requires SentMoves(s, a, s', i) && i < |s.procs| && s.procs[i].role.Writer? && s'.procs[i].role.Writer?
    ensures Of(puts + PutBy(s, a, s'), i) + s'.procs[i].role.todo == Of(puts, i) + s.procs[i].role.todo
  {
    hide Of;
    if s'.sent == s.sent {
      assert puts + [] == puts;
    } else {
      var todo := s.procs[a.i].role.todo;
      PutOne(puts, Put(a.i, todo[0]), i);
      if a.i == i { MoveOne(Of(puts, i), todo); }
    }
  }

  lemma MoveOne(done: seq<nat>, todo: seq<nat>)
    requires todo != []
    ensures done + [todo[0]] + todo[1..] == done + todo
  {
    assert todo == [todo[0]] + todo[1..];
  }

  /** With a single writer, in a single write, what was received is a prefix of its buffer; while
      the write goes on, what was sent and what is left to do are the whole buffer. */
  lemma OneWriter(ss: seq<State>, acts: seq<Action>, i: nat, w: nat, x: nat)
    requires IsRun(ss, acts) && w < |acts| && acts[w].Start? && acts[w].i == i && acts[w].role.Writer? && x < |ss|
    requires forall y :: 0 <= y < |acts| && y != w ==> !(acts[y].Start? && acts[y].role.Writer?)
    ensures ss[x].rcvd <= ss[x].sent <= acts[w].role.todo
    ensures x > w && i < |ss[x].procs| && ss[x].procs[i].role.Writer? ==>
              ss[x].sent + ss[x].procs[i].role.todo == acts[w].role.todo
  {
    OnlyWriter(ss, acts, i, w, x);
    FirstInFirstOut(ss, acts, x);
  }

  /** Nobody but process i writes, and it only after step w. */
  ghost predicate Sole(s: State, i: nat, begun: bool, buf: seq<nat>) {
    && (forall j :: 0 <= j < |s.procs| && s.procs[j].role.Writer? ==> j == i && begun)
    && s.sent <= buf && (!begun ==> s.sent == [])
    && (i < |s.procs| && s.procs[i].role.Writer? ==> s.sent + s.procs[i].role.todo == buf)
  }

  lemma SoleStep(s: State, a: Action, s': State, i: nat, begun: bool, buf: seq<nat>)
    requires Base(s) && Enabled(s, a) && s' == Next(s, a) && Sole(s, i, begun, buf)
    requires !(a.Start? && a.role.Writer?)
    ensures Sole(s', i, begun, buf)
  {
    hide Base, Enabled, Next;
    SentStep(s, a, s', i);
    forall j: nat | j < |s'.procs| && s'.procs[j].role.Writer? ensures s.procs[j].role.Writer? {
      SentStep(s, a, s', j);
    }
    SoleMoves(s, a, s', i, begun, buf);
  }

  lemma SoleMoves(s: State, a: Action, s': State, i: nat, begun: bool, buf: seq<nat>)
    requires Sole(s, i, begun, buf) && SentMoves(s, a, s', i)
    requires forall j: nat :: j < |s'.procs| && s'.procs[j].role.Writer? ==> s.procs[j].role.Writer?
    ensures Sole(s', i, begun, buf)
  {
    if PutsNext(s, a, s') {
      assert a.i == i && begun;
      var todo := s.procs[i].role.todo;
      assert todo == [todo[0]] + todo[1..];
      assert s.sent + todo == s'.sent + todo[1..];
    }
  }

  lemma {:induction false} OnlyWriter(ss: seq<State>, acts: seq<Action>, i: nat, w: nat, x: nat)
    requires IsRun(ss, acts) && w < |acts| && acts[w].Start? && acts[w].i == i && acts[w].role.Writer? && x < |ss|
    requires forall y :: 0 <= y < |acts| && y != w ==> !(acts[y].Start? && acts[y].role.Writer?)
    ensures Sole(ss[x], i, x > w, acts[w].role.todo)
  {
    if x == 0 {
      assert ss[0].sent == [];
    } else {
      hide Init, Enabled, Next, Base, Sole;
      OnlyWriter(ss, acts, i, w, x - 1);
      BaseAlways(ss, acts, x - 1);
      assert Enabled(ss[x - 1], acts[x - 1]) && ss[(x - 1) + 1] == Next(ss[x - 1], acts[x - 1]);
      if x - 1 == w {
        SoleStart(ss[w], acts[w], ss[x], i);
      } else {
        SoleStep(ss[x - 1], acts[x - 1], ss[x], i, x - 1 > w, acts[w].role.todo);
      }
    }
  }

  lemma SoleStart(s: State, a: Action, s': State, i: nat)
    requires Enabled(s, a) && s' == Next(s, a) && a.Start? && a.i == i && a.role.Writer?
    requires Sole(s, i, false, a.role.todo)
    ensures Sole(s', i, true, a.role.todo)
  {
    assert [] + a.role.todo == a.role.todo;
  }

  // ----- When a write returns -----

  predicate Finishing(p: Proc) { p.at.Waking? && p.at.after.ThenDone? }

  predicate OnlyWhenDone(p: Proc) { p.role.Writer? && Finishing(p) ==> p.role.todo == [] }

  ghost predicate FailsBefore(acts: seq<Action>, i: nat, w: nat, x: nat) {
    exists y :: w < y < x && y < |acts| && acts[y] == CopyFails(i)
  }

  /** What an action of its own means for process i in a write. */
  lemma WriterMoves(s: State, a: Action, s': State, i: nat)
    requires Enabled(s, a) && s' == Next(s, a) && i < |s.procs| == |s'.procs| && a.i == i && s.procs[i].role.Writer?
    requires OnlyWhenDone(s.procs[i]) && !a.Start?
    ensures a == CopyFails(i) || OnlyWhenDone(s'.procs[i])
    ensures s'.procs[i].role.Writer? || a == KilledReturn(i) || (!s.readopen && Full(s)) || s.procs[i].role.todo == []
  {
    hide ReaderCopy, ReaderTest, CloserTest, WriterTest, WakeStep;
    var at := s.procs[i].at;
    if a.Step? && at.Test? {
      WriterTests(s, s', i);
    } else if a.Step? && at.Waking? {
      WriterWakes(s, at.chan, at.k, at.after, s', i);
    }
  }

  lemma WriterTests(s: State, s': State, i: nat)
    requires i < |s.procs| && s.procs[i].role.Writer? && s.procs[i].at.Test? && |s.data| == PIPESIZE
    requires s' == WriterTest(s, i)
    ensures |s'.procs| == |s.procs| && OnlyWhenDone(s'.procs[i])
    ensures s'.procs[i].role.Writer? || (!s.readopen && Full(s))
  {
  }

  lemma WriterWakes(s: State, chan: Chan, k: nat, after: After, s': State, i: nat)
    requires i < |s.procs| && s.procs[i].role.Writer? && s.procs[i].at == Waking(chan, k, after)
    requires OnlyWhenDone(s.procs[i]) && s' == WakeStep(s, i, chan, k, after)
    ensures |s'.procs| == |s.procs| && OnlyWhenDone(s'.procs[i])
    ensures s'.procs[i].role.Writer? || s.procs[i].role.todo == []
  {
  }

  /** Actions of others leave what process i does alone. */
  lemma OthersMove(s: State, a: Action, s': State, i: nat)
    requires Enabled(s, a) && s' == Next(s, a) && i < |s.procs| && a.i != i
    ensures SamePlace(s, s', i)
  {
    if a.Step? {
      OtherSteps(s, a.i, s', i);
    } else {
      hide StepOf;
    }
  }

  predicate SamePlace(s: State, s': State, i: nat) {
    |s'.procs| == |s.procs| && i < |s.procs| && s'.procs[i].role == s.procs[i].role && s'.procs[i].at == s.procs[i].at
  }

  lemma OtherSteps(s: State, j: nat, s': State, i: nat)
    requires Enabled(s, Step(j)) && s' == StepOf(s, j) && i < |s.procs| && j != i
    ensures SamePlace(s, s', i)
  {
    hide ReaderCopy, ReaderTest, CloserTest, WriterTest, WakeStep;
    var p := s.procs[j];
    if p.at.Waking? {
      OtherWakes(s, j, p.at.chan, p.at.k, p.at.after, s', i);
    } else if p.at.Test? && p.role.Writer? {
      OtherWrites(s, j, s', i);
    } else if p.at.Test? && (p.role.Reader? || p.role.Closer?) {
      OtherTests(s, j, s', i);
    } else if p.at.Copy? {
      OtherCopies(s, j, s', i);
    }
  }

  lemma OtherWakes(s: State, j: nat, chan: Chan, k: nat, after: After, s': State, i: nat)
    requires j < |s.procs| && i < |s.procs| && i != j && s' == WakeStep(s, j, chan, k, after)
    ensures SamePlace(s, s', i)
  {
  }

  lemma OtherWrites(s: State, j: nat, s': State, i: nat)
    requires j < |s.procs| && i < |s.procs| && i != j && s.procs[j].role.Writer? && |s.data| == PIPESIZE
    requires s' == WriterTest(s, j)
    ensures SamePlace(s, s', i)
  {
  }

  lemma OtherTests(s: State, j: nat, s': State, i: nat)
    requires j < |s.procs| && i < |s.procs| && i != j
    requires if s.procs[j].role.Closer? then s' == CloserTest(s, j) else s' == ReaderTest(s, j)
    ensures SamePlace(s, s', i)
  {
  }

  lemma OtherCopies(s: State, j: nat, s': State, i: nat)
    requires j < |s.procs| && i < |s.procs| && i != j && s.procs[j].role.Reader? && |s.data| == PIPESIZE
    requires s' == ReaderCopy(s, j)
    ensures SamePlace(s, s', i)
  {
  }

  lemma {:induction false} DoneAtEnd(ss: seq<State>, acts: seq<Action>, i: nat, w: nat, x: nat)
    requires IsRun(ss, acts) && InWrite(ss, acts, i, w, x) && !FailsBefore(acts, i, w, x)
    ensures OnlyWhenDone(ss[x].procs[i])
    decreases x
  {
    hide Init, Enabled, Next, Base;
    BaseAlways(ss, acts, x - 1);
    assert Enabled(ss[x - 1], acts[x - 1]) && ss[(x - 1) + 1] == Next(ss[x - 1], acts[x - 1]);
    if x == w + 1 {
      StartsOutside(ss[w], acts[w], ss[x]);
    } else {
      DoneAtEnd(ss, acts, i, w, x - 1);
      if acts[x - 1].i == i {
        StartsNoMore(ss[x - 1], acts[x - 1], i);
        SameCount(ss[x - 1], acts[x - 1], ss[x]);
        WriterMoves(ss[x - 1], acts[x - 1], ss[x], i);
      } else {
        OthersMove(ss[x - 1], acts[x - 1], ss[x], i);
      }
    }
  }

  lemma SameCount(s: State, a: Action, s': State)
    requires Base(s) && Enabled(s, a) && s' == Next(s, a)
    ensures |s'.procs| == |s.procs|
  {
    hide Base, Enabled, Next;
    SentStep(s, a, s', 0);
  }

  lemma StartsOutside(s: State, a: Action, s': State)
    requires Enabled(s, a) && s' == Next(s, a) && a.Start?
    ensures a.i < |s'.procs| && s'.procs[a.i].at == Want
  {
  }

  lemma StartsNoMore(s: State, a: Action, i: nat)
    requires Base(s) && Enabled(s, a) && i < |s.procs| && s.procs[i].role != None
    ensures !(a.Start? && a.i == i)
  {
    assert Placed(s, i);
  }

  /** A write returns only with its whole buffer sent, unless its process was killed, there is no
      reader left for a full pipe, or its buffer could not be read. */
  lemma WriteReturns(ss: seq<State>, acts: seq<Action>, i: nat, w: nat, x: nat)
    requires IsRun(ss, acts) && InWrite(ss, acts, i, w, x) && x + 1 < |ss|
    requires i < |ss[x + 1].procs| && !ss[x + 1].procs[i].role.Writer?
    ensures || Of(PutsFrom(ss, acts, w, x), i) == acts[w].role.todo
            || acts[x] == KilledReturn(i) || (!ss[x].readopen && Full(ss[x])) || FailsBefore(acts, i, w, x)
  {
    hide Init, Enabled, Next, Base;
    BaseAlways(ss, acts, x);
    assert Enabled(ss[x], acts[x]) && ss[x + 1] == Next(ss[x], acts[x]);
    if !FailsBefore(acts, i, w, x) {
      DoneAtEnd(ss, acts, i, w, x);
      WriteInOrder(ss, acts, i, w, x);
      SameCount(ss[x], acts[x], ss[x + 1]);
      if acts[x].i == i {
        StartsNoMore(ss[x], acts[x], i);
        WriterMoves(ss[x], acts[x], ss[x + 1], i);
        assert Of(PutsFrom(ss, acts, w, x), i) + [] == Of(PutsFrom(ss, acts, w, x), i);
      } else {
        OthersMove(ss[x], acts[x], ss[x + 1], i);
      }
    }
  }

  // ----- When a read returns -----

  /** Process i is in the read it began at step w, up to state x. */
  ghost predicate InRead(ss: seq<State>, acts: seq<Action>, i: nat, w: nat, x: nat) {
    && w < |acts| && w < x < |ss| && acts[w].Start? && acts[w].i == i && acts[w].role.Reader?
    && forall y :: w < y <= x ==> i < |ss[y].procs| && ss[y].procs[i].role.Reader?
  }

  /** The bytes that process i received from state w to state x. */
  ghost function GotFrom(ss: seq<State>, acts: seq<Action>, i: nat, w: nat, x: nat): seq<nat>
    requires |ss| == |acts| + 1 && w <= x < |ss|
    decreases x
  {
    if w == x then []
    else
      GotFrom(ss, acts, i, w, x - 1)
        + if acts[x - 1].i == i && |ss[x - 1].rcvd| <= |ss[x].rcvd| then ss[x].rcvd[|ss[x - 1].rcvd|..] else []
  }

  /** A reader of n bytes that has begun to copy, or has finished: it has received something, or
      the pipe was not both empty and open. */
  predicate ReadOk(s: State, p: Proc, n: nat) {
    && (p.role.Reader? ==> p.role.want <= n)
    && (p.role.Reader? && p.at.Copy? && p.role.want == n ==> !(Empty(s) && s.writeopen))
    && (p.role.Reader? && Finishing(p) ==> p.role.want == 0 || Empty(s))
    && (p.role.Reader? && Finishing(p) && 0 < p.role.want == n ==> !s.writeopen)
  }

  lemma ReaderMoves(s: State, a: Action, s': State, i: nat, n: nat)
    requires Enabled(s, a) && s' == Next(s, a) && i < |s.procs| == |s'.procs| && a.i == i && s.procs[i].role.Reader?
    requires ReadOk(s, s.procs[i], n) && !a.Start? && a != CopyFails(i)
    ensures s'.procs[i].role.Reader? ==> ReadOk(s', s'.procs[i], n) && Received(s, s', i)
    ensures s'.procs[i].role.Reader? || a == KilledReturn(i) || Finishing(s.procs[i])
  {
    hide ReaderCopy, ReaderTest, CloserTest, WriterTest, WakeStep;
    var at := s.procs[i].at;
    if a.Step? && at.Test? {
      ReaderTests(s, s', i, n);
    } else if a.Step? && at.Waking? {
      ReaderWakes(s, at.chan, at.k, at.after, s', i, n);
    } else if a.Step? && at.Copy? {
      ReaderCopies(s, s', i, n);
    }
  }

  /** The reader has received what it no longer wants. */
  predicate Received(s: State, s': State, i: nat)
    requires i < |s.procs| == |s'.procs| && s.procs[i].role.Reader? && s'.procs[i].role.Reader?
  {
    |s'.rcvd| - |s.rcvd| == s.procs[i].role.want - s'.procs[i].role.want >= 0
  }

  lemma ReaderTests(s: State, s': State, i: nat, n: nat)
    requires i < |s.procs| && s.procs[i].role.Reader? && ReadOk(s, s.procs[i], n) && s' == ReaderTest(s, i)
    ensures |s'.procs| == |s.procs| && s'.procs[i].role.Reader? && ReadOk(s', s'.procs[i], n) && Received(s, s', i)
  {
  }

  lemma ReaderWakes(s: State, chan: Chan, k: nat, after: After, s': State, i: nat, n: nat)
    requires i < |s.procs| && s.procs[i].role.Reader? && s.procs[i].at == Waking(chan, k, after)
    requires ReadOk(s, s.procs[i], n) && s' == WakeStep(s, i, chan, k, after)
    ensures |s'.procs| == |s.procs|
    ensures s'.procs[i].role.Reader? ==> ReadOk(s', s'.procs[i], n) && Received(s, s', i)
    ensures s'.procs[i].role.Reader? || Finishing(s.procs[i])
  {
  }

  lemma ReaderCopies(s: State, s': State, i: nat, n: nat)
    requires i < |s.procs| && s.procs[i].role.Reader? && s.procs[i].at.Copy? && |s.data| == PIPESIZE
    requires ReadOk(s, s.procs[i], n) && s' == ReaderCopy(s, i)
    ensures |s'.procs| == |s.procs| && s'.procs[i].role.Reader? && ReadOk(s', s'.procs[i], n) && Received(s, s', i)
  {
  }

  /** Nobody else touches the pipe while process i holds its lock. */
  lemma PipeHeld(s: State, a: Action, s': State, i: nat)
    requires Base(s) && Enabled(s, a) && s' == Next(s, a) && i < |s.procs| && a.i != i && Holds(s.procs[i].at)
    ensures s'.nread == s.nread && s'.nwrite == s.nwrite && s'.writeopen == s.writeopen
  {
    assert Placed(s, i) && Placed(s, a.i);
    hide Base, Placed;
    if a.Step? {
      HeldStep(s, a.i, s');
    } else {
      hide StepOf;
    }
  }

  lemma HeldStep(s: State, j: nat, s': State)
    requires Enabled(s, Step(j)) && s' == StepOf(s, j) && !Holds(s.procs[j].at)
    ensures s'.nread == s.nread && s'.nwrite == s.nwrite && s'.writeopen == s.writeopen
  {
    hide ReaderCopy, ReaderTest, CloserTest, WriterTest, WakeStep;
  }

  lemma {:induction false} ReadSoFar(ss: seq<State>, acts: seq<Action>, i: nat, w: nat, x: nat)
    requires IsRun(ss, acts) && InRead(ss, acts, i, w, x) && !FailsBefore(acts, i, w, x)
    ensures ReadOk(ss[x], ss[x].procs[i], acts[w].role.want)
    ensures |GotFrom(ss, acts, i, w, x)| + ss[x].procs[i].role.want == acts[w].role.want
    decreases x
  {
    hide Init, Enabled, Next, Base;
    var n := acts[w].role.want;
    BaseAlways(ss, acts, x - 1);
    assert Enabled(ss[x - 1], acts[x - 1]) && ss[(x - 1) + 1] == Next(ss[x - 1], acts[x - 1]);
    if x == w + 1 {
      StartsRead(ss[w], acts[w], ss[x]);
    } else {
      ReadSoFar(ss, acts, i, w, x - 1);
      if acts[x - 1].i == i {
        StartsNoMore(ss[x - 1], acts[x - 1], i);
        SameCount(ss[x - 1], acts[x - 1], ss[x]);
        ReaderMoves(ss[x - 1], acts[x - 1], ss[x], i, n);
      } else {
        OthersMove(ss[x - 1], acts[x - 1], ss[x], i);
        OthersRead(ss[x - 1], acts[x - 1], ss[x], i, n);
      }
    }
  }

  lemma OthersRead(s: State, a: Action, s': State, i: nat, n: nat)
    requires Base(s) && Enabled(s, a) && s' == Next(s, a) && i < |s.procs| && a.i != i && SamePlace(s, s', i)
    requires ReadOk(s, s.procs[i], n)
    ensures ReadOk(s', s'.procs[i], n)
  {
    hide Base, Enabled, Next;
    if Holds(s.procs[i].at) {
      PipeHeld(s, a, s', i);
    }
  }

  lemma StartsRead(s: State, a: Action, s': State)
    requires Enabled(s, a) && s' == Next(s, a) && a.Start?
    ensures a.i < |s'.procs| && s'.procs[a.i].at == Want && s'.procs[a.i].role == a.role && s'.rcvd == s.rcvd
  {
  }

  /** A read of n bytes returns with all of them; or with what there was when the pipe is empty, and
      then with nothing only if nobody can write any more; or because its process was killed or
      its buffer could not be written. */
  lemma ReadReturns(ss: seq<State>, acts: seq<Action>, i: nat, w: nat, x: nat)
    requires IsRun(ss, acts) && InRead(ss, acts, i, w, x) && x + 1 < |ss|
    requires i < |ss[x + 1].procs| && !ss[x + 1].procs[i].role.Reader?
    ensures var n, got := acts[w].role.want, GotFrom(ss, acts, i, w, x);
            || |got| == n || (|got| < n && Empty(ss[x]) && (got != [] || !ss[x].writeopen))
            || acts[x] == KilledReturn(i) || FailsBefore(acts, i, w, x + 1)
  {
    hide Init, Enabled, Next, Base;
    BaseAlways(ss, acts, x);
    assert Enabled(ss[x], acts[x]) && ss[x + 1] == Next(ss[x], acts[x]);
    if !FailsBefore(acts, i, w, x + 1) {
      ReadSoFar(ss, acts, i, w, x);
      SameCount(ss[x], acts[x], ss[x + 1]);
      if acts[x].i == i {
        StartsNoMore(ss[x], acts[x], i);
        ReaderMoves(ss[x], acts[x], ss[x + 1], i, acts[w].role.want);
      } else {
        OthersMove(ss[x], acts[x], ss[x + 1], i);
      }
    }
  }
}
