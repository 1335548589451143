/** Concurrent operations on the redo log (kernel/log.c) as a step system: any number of
    processes interleave begin_op, bread, log_write, brelse and end_op, and others read blocks
    outside operations; the commit and the boot-time recovery take one block write per step;
    the machine may crash before any step.

    The state carries a history (which operation stored what, which groups committed) that
    no step consults; the theorems compare the disk with that history. */
module LogProtocol {
  import opened Params
  import opened RedoLog

  /** Operation `op` stored `data` in block `b`. */
  datatype Entry = Entry(op: nat, b: nat, data: Contents)

  /** A process is outside any operation, or between begin_op and end_op and has logged
      the blocks `logged`. */
  datatype Proc = Outside | InOp(op: nat, logged: set<nat>)

  /** What commit() or recover_from_log() does next. */
  datatype Phase =
    | Running
    | WriteLog(tail: nat) | CommitHead | Install(tail: nat) | ClearHead | Finish
    | Boot | RecInstall(tail: nat) | RecClear

  datatype History = History(
    init: seq<Contents>,        // the home blocks at the very first boot
    done: seq<seq<Entry>>,      // the groups whose header write happened
    current: seq<Entry>,        // stores since then, lost in a crash
    issued: seq<Entry>,         // every store ever made
    nextOp: nat,
    base: nat,                  // the first operation of the current group
    ended: set<nat>,            // operations that reached end_op
    com: seq<Contents>,         // the home blocks after `done`
    cur: seq<Contents>)         // the home blocks after `done` and `current`

  datatype State = State(
    l: Layout,
    disk: Disk,
    cache: map<nat, Contents>,  // contents of the valid buffers
    holder: map<nat, nat>,      // which process in an operation holds a buffer's sleep lock
    reading: set<nat>,          // buffers whose lock is held outside operations
    dirty: set<nat>,            // held buffers changed since the last log_write
    checking: set<nat>,         // buffers inside log_write, past its unlocked tests
    lh: seq<nat>,
    outstanding: int,
    committing: bool,
    phase: Phase,
    procs: seq<Proc>,
    hist: History)

  datatype Action =
    | Begin(p: nat)
    | Acquire(p: nat, b: nat)
    | Store(p: nat, b: nat, data: Contents)
    | Check(p: nat, b: nat)
    | Append(p: nat, b: nat)
    | Release(p: nat, b: nat)
    | End(p: nat)
    | ReadLock(b: nat)          // ilock, readi: a bread and a brelse outside operations
    | ReadUnlock(b: nat)
    | Load(b: nat)
    | Evict(b: nat)
    | Advance
    | Crash

  // ----- Reading the state -----

  predicate InOpAt(s: State, p: nat) { p < |s.procs| && s.procs[p].InOp? }

  /** What bread returns for block b. */
  function View(s: State, b: nat): Contents
    requires b < |s.disk.blocks|
  {
    if b in s.cache then s.cache[b] else s.disk.blocks[b]
  }

  /** Blocks lh[PinFrom..] carry the pin that log_write took. */
  function PinFrom(s: State): nat {
    match s.phase
    case Running => 0
    case WriteLog(_) => 0
    case CommitHead => 0
    case Install(t) => t
    case _ => |s.lh|
  }

  ghost predicate Pinned(s: State, b: nat) {
    exists i :: PinFrom(s) <= i < |s.lh| && s.lh[i] == b
  }

  predicate Holds(s: State, p: nat, b: nat) { InOpAt(s, p) && b in s.holder && s.holder[b] == p }

  predicate Recovering(ph: Phase) { ph.Boot? || ph.RecInstall? || ph.RecClear? }

  predicate Committing(ph: Phase) { ph.WriteLog? || ph.CommitHead? || ph.Install? || ph.ClearHead? || ph.Finish? }

  /** commit's bread of the next home block waits for a reader of that block. */
  predicate Waits(s: State) {
    match s.phase
    case WriteLog(t) => t < |s.lh| && s.lh[t] in s.reading
    case Install(t) => t < |s.lh| && s.lh[t] in s.reading
    case _ => false
  }

  // ----- The steps -----

  /** Guards. Conditions marked (caller) are what log.c asks of the code between begin_op
      and end_op; the others are tests in the code or locks it takes. A failed test in
      log_write panics: the step is not enabled and the run halts there. */
  ghost predicate Enabled(s: State, a: Action) {
    match a
    case Begin(p) =>
      && p < |s.procs| && s.procs[p].Outside?
      && !Recovering(s.phase) && !s.committing
      && |s.lh| + (s.outstanding + 1) * MAXOPBLOCKS <= LOGSIZE
    case Acquire(p, b) =>
      InOpAt(s, p) && IsHome(s.l, s.disk, b) && b !in s.holder && b !in s.reading
    case Store(p, b, data) =>
      Holds(s, p, b) && b !in s.checking
    case Check(p, b) =>
      && Holds(s, p, b)
      && !(|s.lh| >= LOGSIZE || |s.lh| >= s.l.nlog - 1)
      && !(s.outstanding < 1)
    case Append(p, b) =>
      && Holds(s, p, b) && b in s.checking
      && |s.procs[p].logged + {b}| <= MAXOPBLOCKS                  // (caller)
    case Release(p, b) =>
      && Holds(s, p, b) && b !in s.checking
      && (b in s.dirty ==> b in s.lh)                              // (caller: logged before brelse)
    case End(p) =>
      InOpAt(s, p) && (forall b :: b in s.holder ==> s.holder[b] != p)   // (caller)
    case ReadLock(b) => !Recovering(s.phase) && IsHome(s.l, s.disk, b) && b !in s.holder && b !in s.reading
    case ReadUnlock(b) => b in s.reading
    case Load(b) => b < |s.disk.blocks| && b != s.l.start && b !in s.cache
    case Evict(b) => b in s.cache && b !in s.holder && b !in s.reading && !Pinned(s, b)
    case Advance => s.phase != Running && !Waits(s)
    case Crash => true
  }

  function WithProc(s: State, p: nat, q: Proc): State
    requires p < |s.procs|
  {
    s.(procs := s.procs[p := q])
  }

  function Cached(s: State, b: nat): State
    requires b < |s.disk.blocks|
  {
    s.(cache := s.cache[b := View(s, b)])
  }

  function BeginOp(s: State, p: nat): State
    requires p < |s.procs|
  {
    WithProc(s, p, InOp(s.hist.nextOp, {})).(outstanding := s.outstanding + 1,
      hist := s.hist.(nextOp := s.hist.nextOp + 1))
  }

  function StoreBlock(s: State, p: nat, b: nat, data: Contents): State
    requires InOpAt(s, p)
  {
    var e := Entry(s.procs[p].op, b, data);
    s.(cache := s.cache[b := data], dirty := s.dirty + {b},
      hist := s.hist.(current := s.hist.current + [e], issued := s.hist.issued + [e],
        cur := if b < |s.hist.cur| then s.hist.cur[b := data] else s.hist.cur))
  }

  /** The locked half of log_write: absorb the block or append it. */
  function LogAppend(s: State, p: nat, b: nat): State
    requires InOpAt(s, p)
  {
    WithProc(s, p, s.procs[p].(logged := s.procs[p].logged + {b})).(
      dirty := s.dirty - {b}, checking := s.checking - {b},
      lh := if b in s.lh then s.lh else s.lh + [b])
  }

  function EndOp(s: State, p: nat): State
    requires InOpAt(s, p)
  {
    var last := s.outstanding - 1 == 0;
    WithProc(s, p, Outside).(outstanding := s.outstanding - 1, committing := last,
      phase := if !last then s.phase else if s.lh == [] then Finish else WriteLog(0),
      hist := s.hist.(ended := s.hist.ended + {s.procs[p].op}))
  }

  /** One step of commit() or recover_from_log(): at most one block write. */
  function Step(s: State): (s': State) {
    match s.phase
    case Running => s
    case WriteLog(t) =>
      if t < |s.lh| && s.lh[t] < |s.disk.blocks| then
        var data := View(s, s.lh[t]);
        s.(disk := Apply(s.disk, Block(s.l.start + 1 + t, data)),
           cache := s.cache[s.l.start + 1 + t := data][s.lh[t] := data], phase := WriteLog(t + 1))
      else s.(phase := CommitHead)
    case CommitHead =>
      s.(disk := Apply(s.disk, Header(s.lh)), phase := Install(0),
         hist := s.hist.(done := s.hist.done + [s.hist.current], current := [], com := s.hist.cur,
           base := s.hist.nextOp))
    case Install(t) =>
      if t < |s.lh| then InstallNext(s, t).(phase := Install(t + 1)) else s.(lh := [], phase := ClearHead)
    case ClearHead => s.(disk := Apply(s.disk, Header([])), phase := Finish)
    case Finish => s.(committing := false, phase := Running)
    case Boot => s.(lh := s.disk.head, phase := RecInstall(0))
    case RecInstall(t) =>
      if t < |s.lh| then InstallNext(s, t).(phase := RecInstall(t + 1)) else s.(lh := [], phase := RecClear)
    case RecClear => s.(disk := Apply(s.disk, Header([])), phase := Running)
  }

  function InstallNext(s: State, t: nat): State
    requires t < |s.lh|
  {
    var p := s.l.start + 1 + t;
    if p < |s.disk.blocks| then
      var data := View(s, p);
      s.(disk := Apply(s.disk, Block(s.lh[t], data)), cache := s.cache[p := data][s.lh[t] := data])
    else s
  }

  function CrashNow(s: State): State {
    s.(cache := map[], holder := map[], reading := {}, dirty := {}, checking := {}, lh := [], outstanding := 0,
       committing := false, phase := Boot, procs := seq(|s.procs|, _ => Outside),
       hist := s.hist.(current := [], cur := s.hist.com, base := s.hist.nextOp))
  }

  ghost function Next(s: State, a: Action): State
    requires Enabled(s, a)
  {
    match a
    case Begin(p) => BeginOp(s, p)
    case Acquire(p, b) => Cached(s, b).(holder := s.holder[b := p])
    case Store(p, b, data) => StoreBlock(s, p, b, data)
    case Check(p, b) => s.(checking := s.checking + {b})
    case Append(p, b) => LogAppend(s, p, b)
    case Release(p, b) => s.(holder := s.holder - {b}, dirty := s.dirty - {b})
    case End(p) => EndOp(s, p)
    case ReadLock(b) => Cached(s, b).(reading := s.reading + {b})
    case ReadUnlock(b) => s.(reading := s.reading - {b})
    case Load(b) => Cached(s, b)
    case Evict(b) => s.(cache := s.cache - {b})
    case Advance => Step(s)
    case Crash => CrashNow(s)
  }

  /** First boot: an arbitrary disk with a well-formed log, about to run recovery. */
  ghost predicate Init(s: State) {
    && LogOk(s.l, s.disk)
    && s.cache == map[] && s.holder == map[] && s.reading == {} && s.dirty == {} && s.checking == {} && s.lh == []
    && s.outstanding == 0 && !s.committing && s.phase == Boot
    && (forall p :: 0 <= p < |s.procs| ==> s.procs[p].Outside?)
    && s.hist.done == [] && s.hist.current == [] && s.hist.issued == []
    && s.hist.base == s.hist.nextOp && s.hist.ended == {}
    && s.hist.com == s.hist.cur == s.hist.init && |s.hist.init| == |s.disk.blocks|
    && (forall b :: IsHome(s.l, s.disk, b) ==> s.hist.init[b] == Recovered(s.l, s.disk, b))
  }

  /** ss[i + 1] results from ss[i] by the enabled action acts[i]; ss[0] is a first boot. */
  ghost predicate IsBehaviour(ss: seq<State>, acts: seq<Action>) {
    && |ss| == |acts| + 1 && Init(ss[0])
    && forall i {:trigger acts[i]} :: 0 <= i < |acts| ==>
         Enabled(ss[i], acts[i]) && ss[i + 1] == Next(ss[i], acts[i])
  }

  lemma ExtendBehaviour(ss: seq<State>, acts: seq<Action>, a: Action)
    requires IsBehaviour(ss, acts) && Enabled(ss[|ss| - 1], a)
    ensures IsBehaviour(ss + [Next(ss[|ss| - 1], a)], acts + [a])
  {
  }
}
