/** Pipes (kernel/pipe.c) as a client of sleep and wakeup (kernel/proc.c), as a step system:
    any number of processes write, read and close one pipe. sleep takes the sleeper's lock
    before it gives up the pipe's lock; wakeup visits the processes one by one, taking each
    one's lock; any steps of other processes may come in between. */
module PipeMonitor {
  const PIPESIZE: nat := 512
  const U32: nat := 0x1_0000_0000
  const FREE: int := -1

  /** &pi->nread and &pi->nwrite: where readers and writers sleep. */
  datatype Chan = NRead | NWrite

  /** What a process is doing with the pipe. */
  datatype Role = None | Writer(todo: seq<nat>) | Reader(want: nat) | Closer(writable: bool)

  datatype After = ThenSleep | ThenDone

  datatype Where =
    | Out
    | Want                                 // about to acquire the pipe's lock
    | Test                                 // holding it, at the loop's test
    | Copy                                 // piperead's copying loop
    | Waking(chan: Chan, k: nat, after: After) // wakeup(chan), at process k
    | Sleep1                               // sleep: about to take p->lock
    | Sleep2                               // about to release the pipe's lock
    | Sleep3                               // about to become SLEEPING
    | Sleep4                               // SLEEPING, about to leave the CPU
    | Asleep
    | Back                                 // awake, about to take the pipe's lock again

  datatype RunState = Awake | Sleeping | Woken

  datatype Proc = Proc(role: Role, at: Where, st: RunState, killed: bool)

  datatype State = State(
    procs: seq<Proc>,
    lk: int,                               // who holds pi->lock
    plock: seq<int>,                       // who holds each p->lock
    data: seq<nat>, nread: nat, nwrite: nat, readopen: bool, writeopen: bool,
    sent: seq<nat>, rcvd: seq<nat>)        // history: all bytes that entered and left

  datatype Action =
    | Start(i: nat, role: Role)
    | Step(i: nat)
    | CopyFails(i: nat)                    // copyin or copyout returns -1
    | KilledReturn(i: nat)
    | Dispatch(i: nat)
    | Kill(i: nat)

  function ChanOf(role: Role): Chan { if role.Reader? then NRead else NWrite }

  predicate Full(s: State) { s.nwrite == (s.nread + PIPESIZE) % U32 }

  predicate Empty(s: State) { s.nread == s.nwrite }

  predicate Holds(at: Where) { at.Test? || at.Copy? || at.Waking? || at.Sleep1? || at.Sleep2? }

  predicate HoldsOwn(at: Where) { at.Sleep2? || at.Sleep3? || at.Sleep4? }

  function WithProc(s: State, i: nat, p: Proc): State
    requires i < |s.procs|
  {
    s.(procs := s.procs[i := p])
  }

  function Go(s: State, i: nat, at: Where): State
    requires i < |s.procs|
  {
    WithProc(s, i, s.procs[i].(at := at))
  }

  /** Leaves the pipe and gives up its lock. */
  function Leave(s: State, i: nat): State
    requires i < |s.procs|
  {
    WithProc(s, i, s.procs[i].(at := Out, role := None)).(lk := FREE)
  }

  // ----- Guards -----

  /** fileclose closes an end with its last descriptor: a process uses an end only while it is
      open and nobody closes it, and closes it only when no process uses it. */
  ghost predicate MayStart(s: State, role: Role) {
    match role
    case None => false
    case Writer(_) => s.writeopen && forall j :: 0 <= j < |s.procs| ==> s.procs[j].role != Closer(true)
    case Reader(_) => s.readopen && forall j :: 0 <= j < |s.procs| ==> s.procs[j].role != Closer(false)
    case Closer(w) =>
      && (if w then s.writeopen else s.readopen)
      && forall j :: 0 <= j < |s.procs| ==> !InUse(s.procs[j].role, w)
  }

  /** The role uses the writable or the readable end. */
  predicate InUse(role: Role, writable: bool) {
    match role
    case None => false
    case Writer(_) => writable
    case Reader(_) => !writable
    case Closer(w) => w == writable
  }

  /** At a test that makes the process return because it was killed. */
  predicate SeesKilled(s: State, i: nat)
    requires i < |s.procs|
  {
    && s.procs[i].at.Test? && s.procs[i].killed
    && ((s.procs[i].role.Writer? && s.procs[i].role.todo != [] && Full(s) && s.readopen)
        || (s.procs[i].role.Reader? && Empty(s) && s.writeopen))
  }

  predicate StepEnabled(s: State, i: nat)
    requires i < |s.procs|
  {
    match s.procs[i].at
    case Out => false
    case Want => s.lk == FREE
    case Test => !SeesKilled(s, i)
    case Copy => s.procs[i].role.Reader?
    case Waking(_, k, _) => k < |s.plock| ==> s.plock[k] == FREE
    case Sleep1 => i < |s.plock| && s.plock[i] == FREE
    case Sleep2 => true
    case Sleep3 => true
    case Sleep4 => i < |s.plock|
    case Asleep => false
    case Back => s.lk == FREE
  }

  ghost predicate Enabled(s: State, a: Action) {
    && |s.plock| == |s.procs| && |s.data| == PIPESIZE
    && match a
       case Start(i, role) => i < |s.procs| && s.procs[i].at.Out? && MayStart(s, role)
       case Step(i) => i < |s.procs| && StepEnabled(s, i)
       case CopyFails(i) =>
         && i < |s.procs|
         && ((s.procs[i].at.Test? && s.procs[i].role.Writer? && s.procs[i].role.todo != [] && !Full(s))
             || (s.procs[i].at.Copy? && s.procs[i].role.Reader? && s.procs[i].role.want > 0 && !Empty(s)))
       case KilledReturn(i) => i < |s.procs| && SeesKilled(s, i)
       case Dispatch(i) => i < |s.procs| && s.procs[i].at.Asleep? && s.procs[i].st == Woken && s.plock[i] == FREE
       case Kill(i) => i < |s.procs| && s.plock[i] == FREE
  }

  // ----- Steps -----

  function PutByte(s: State, ch: nat): State
    requires |s.data| == PIPESIZE
  {
    s.(data := s.data[s.nwrite % PIPESIZE := ch], nwrite := (s.nwrite + 1) % U32, sent := s.sent + [ch])
  }

  function TakeByte(s: State): State
    requires |s.data| == PIPESIZE
  {
    s.(nread := (s.nread + 1) % U32, rcvd := s.rcvd + [s.data[s.nread % PIPESIZE]])
  }

  /** pipewrite, at the test of its inner loop. */
  function WriterTest(s: State, i: nat): State
    requires i < |s.procs| && s.procs[i].role.Writer? && |s.data| == PIPESIZE
  {
    var todo := s.procs[i].role.todo;
    if todo == [] then Go(s, i, Waking(NRead, 0, ThenDone))
    else if Full(s) then if !s.readopen then Leave(s, i) else Go(s, i, Waking(NRead, 0, ThenSleep))
    else WithProc(PutByte(s, todo[0]), i, s.procs[i].(role := Writer(todo[1..])))
  }

  function ReaderTest(s: State, i: nat): State
    requires i < |s.procs|
  {
    if Empty(s) && s.writeopen then Go(s, i, Sleep1) else Go(s, i, Copy)
  }

  function ReaderCopy(s: State, i: nat): State
    requires i < |s.procs| && s.procs[i].role.Reader? && |s.data| == PIPESIZE
  {
    var want := s.procs[i].role.want;
    if want == 0 || Empty(s) then Go(s, i, Waking(NWrite, 0, ThenDone))
    else WithProc(TakeByte(s), i, s.procs[i].(role := Reader(want - 1)))
  }

  /** pipeclose */
  function CloserTest(s: State, i: nat): State
    requires i < |s.procs| && s.procs[i].role.Closer?
  {
    if s.procs[i].role.writable then Go(s, i, Waking(NRead, 0, ThenDone)).(writeopen := false)
    else Go(s, i, Waking(NWrite, 0, ThenDone)).(readopen := false)
  }

  /** wakeup: process k is made runnable if it sleeps on the channel. */
  function WakeStep(s: State, i: nat, chan: Chan, k: nat, after: After): State
    requires i < |s.procs|
  {
    if k >= |s.procs| then (if after == ThenSleep then Go(s, i, Sleep1) else Leave(s, i))
    else
      var q := s.procs[k];
      var s1 := if q.st == Sleeping && ChanOf(q.role) == chan then WithProc(s, k, q.(st := Woken)) else s;
      Go(s1, i, Waking(chan, k + 1, after))
  }

  function StepOf(s: State, i: nat): State
    requires i < |s.procs| == |s.plock| && |s.data| == PIPESIZE && StepEnabled(s, i)
  {
    var p := s.procs[i];
    match p.at
    case Want => Go(s, i, Test).(lk := i)
    case Test =>
      if p.role.Writer? then WriterTest(s, i) else if p.role.Reader? then ReaderTest(s, i)
      else if p.role.Closer? then CloserTest(s, i) else s
    case Copy => ReaderCopy(s, i)
    case Waking(chan, k, after) => WakeStep(s, i, chan, k, after)
    case Sleep1 => Go(s, i, Sleep2).(plock := s.plock[i := i])
    case Sleep2 => Go(s, i, Sleep3).(lk := FREE)
    case Sleep3 => WithProc(s, i, p.(at := Sleep4, st := Sleeping))
    case Sleep4 => Go(s, i, Asleep).(plock := s.plock[i := FREE])
    case Back => Go(s, i, Test).(lk := i)
    case _ => s
  }

  ghost function Next(s: State, a: Action): State
    requires Enabled(s, a)
  {
    match a
    case Start(i, role) => WithProc(s, i, s.procs[i].(role := role, at := Want, st := Awake))
    case Step(i) => StepOf(s, i)
    case CopyFails(i) =>
      if s.procs[i].role.Writer? then Go(s, i, Waking(NRead, 0, ThenDone))
      else Go(TakeByte(s), i, Waking(NWrite, 0, ThenDone))
    case KilledReturn(i) => Leave(s, i)
    case Dispatch(i) => WithProc(s, i, s.procs[i].(st := Awake, at := Back))
    case Kill(i) =>
      var p := s.procs[i];
      WithProc(s, i, p.(killed := true, st := if p.st == Sleeping then Woken else p.st))
  }

  /** pipealloc's pipe. */
  ghost predicate Init(s: State) {
    && |s.plock| == |s.procs| && |s.data| == PIPESIZE
    && s.lk == FREE && s.nread == s.nwrite == 0 && s.readopen && s.writeopen && s.sent == s.rcvd == []
    && forall i :: 0 <= i < |s.procs| ==>
         s.plock[i] == FREE && s.procs[i].at == Out && s.procs[i].role == None && s.procs[i].st == Awake
  }

  ghost predicate IsRun(ss: seq<State>, acts: seq<Action>) {
    && |ss| == |acts| + 1 && Init(ss[0])
    && forall x {:trigger acts[x]} :: 0 <= x < |acts| ==>
         Enabled(ss[x], acts[x]) && ss[x + 1] == Next(ss[x], acts[x])
  }
}
