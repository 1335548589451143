/** The on-disk redo log (kernel/log.c): which block writes a commit and a recovery
    issue, in which order, and what a recovery makes of the disk it finds.

    The only atomic operation is the write of one block, so a crash leaves a prefix of a
    sequence of writes applied. */
module RedoLog {
  import opened Params
  import opened Sequences

  /** The contents of one block, as BSIZE / sizeof(int) words. */
  datatype Contents = Contents(words: seq<int>)

  /** A disk image. The header block is kept decoded in `head`, the block numbers it
      announces; blocks[l.start], where it lives, is not looked at. */
  datatype Disk = Disk(head: seq<nat>, blocks: seq<Contents>)

  /** log.start and log.size: the log occupies blocks start .. start + nlog - 1. */
  datatype Layout = Layout(start: nat, nlog: nat)

  /** One atomic block write: the header block, or block b. */
  datatype Write = Header(lh: seq<nat>) | Block(b: nat, data: Contents)

  function Apply(d: Disk, w: Write): (r: Disk)
    ensures |r.blocks| == |d.blocks|
  {
    match w
    case Header(lh) => d.(head := lh)
    case Block(b, data) => if b < |d.blocks| then d.(blocks := d.blocks[b := data]) else d
  }

  /** The disk after the first k of the writes ws. */
  function ApplyPrefix(d: Disk, ws: seq<Write>, k: nat): (r: Disk)
    requires k <= |ws|
    ensures |r.blocks| == |d.blocks|
  {
    if k == 0 then d else Apply(ApplyPrefix(d, ws, k - 1), ws[k - 1])
  }

  /** ds[k] is the disk after the first k of the writes ws. */
  ghost predicate IsRun(ds: seq<Disk>, ws: seq<Write>) {
    && |ds| == |ws| + 1
    && (forall i {:trigger ws[i]} :: 0 <= i < |ws| ==> ds[i + 1] == Apply(ds[i], ws[i]))
    && (forall i :: 0 <= i < |ds| ==> |ds[i].blocks| == |ds[0].blocks|)
  }

  lemma PrefixesAreRun(d: Disk, ws: seq<Write>)
    ensures IsRun(seq(|ws| + 1, k requires 0 <= k <= |ws| => ApplyPrefix(d, ws, k)), ws)
  {
  }

  predicate IsHome(l: Layout, d: Disk, b: int) {
    0 <= b < |d.blocks| && !(l.start <= b < l.start + l.nlog)
  }

  /** A list of block numbers that fits in the log and names distinct blocks outside it. */
  ghost predicate Loggable(l: Layout, d: Disk, lh: seq<nat>) {
    && |lh| <= LOGSIZE
    && 1 + |lh| <= l.nlog
    && (forall i :: 0 <= i < |lh| ==> IsHome(l, d, lh[i]))
    && Distinct(lh)
  }

  ghost predicate LogOk(l: Layout, d: Disk) {
    0 < l.nlog && l.start + l.nlog <= |d.blocks| && Loggable(l, d, d.head)
  }

  /** The i-th block behind the log header. */
  function LogCopy(l: Layout, d: Disk, i: nat): Contents
    requires l.start + 1 + i < |d.blocks|
  {
    d.blocks[l.start + 1 + i]
  }

  /** What block b holds once the log on disk d has been replayed. */
  ghost function Recovered(l: Layout, d: Disk, b: int): Contents
    requires LogOk(l, d) && 0 <= b < |d.blocks|
  {
    if b in d.head then LogCopy(l, d, IndexOf(d.head, b)) else d.blocks[b]
  }

  /** d and e replay to the same home blocks. */
  ghost predicate SameRecovered(l: Layout, d: Disk, e: Disk)
    requires LogOk(l, d) && LogOk(l, e)
  {
    |d.blocks| == |e.blocks| && forall b :: IsHome(l, d, b) ==> Recovered(l, d, b) == Recovered(l, e, b)
  }

  ghost predicate SameHome(l: Layout, d: Disk, e: Disk) {
    |d.blocks| == |e.blocks| && forall b :: IsHome(l, d, b) ==> d.blocks[b] == e.blocks[b]
  }

  /** The log blocks behind the header are the same on both disks. */
  ghost predicate SameLog(l: Layout, d: Disk, e: Disk)
    requires l.start + l.nlog <= |d.blocks|
  {
    |d.blocks| == |e.blocks| && forall p :: l.start < p < l.start + l.nlog ==> d.blocks[p] == e.blocks[p]
  }

  /** The first k announced blocks have reached their home locations. */
  ghost predicate Installed(l: Layout, d: Disk, k: nat)
    requires LogOk(l, d)
  {
    k <= |d.head| && forall i :: 0 <= i < k ==> d.blocks[d.head[i]] == d.blocks[l.start + 1 + i]
  }

  // ----- One block write at a time -----

  /** write_log: a log block written while the header announces nothing. */
  lemma LogBlockWrite(l: Layout, d: Disk, i: nat, v: Contents, e: Disk)
    requires LogOk(l, d) && d.head == [] && 1 + i < l.nlog && e == Apply(d, Block(l.start + 1 + i, v))
    ensures LogOk(l, e) && SameRecovered(l, d, e) && SameHome(l, d, e)
  {
  }

  /** write_head with a nonempty list: the commit point. */
  lemma CommitWrite(l: Layout, d: Disk, lh: seq<nat>, e: Disk)
    requires LogOk(l, d) && d.head == [] && Loggable(l, d, lh) && e == Apply(d, Header(lh))
    ensures LogOk(l, e)
    ensures forall b :: IsHome(l, d, b) ==>
              Recovered(l, e, b) == if b in lh then LogCopy(l, d, IndexOf(lh, b)) else d.blocks[b]
  {
    assert forall i :: 0 <= i < |lh| ==> IsHome(l, d, lh[i]) ==> IsHome(l, e, lh[i]);
  }

  /** install_trans: one home block written with its log block. */
  lemma InstallWrite(l: Layout, d: Disk, t: nat, e: Disk)
    requires LogOk(l, d) && t < |d.head| && Installed(l, d, t)
    requires e == Apply(d, Block(d.head[t], d.blocks[l.start + 1 + t]))
    ensures LogOk(l, e) && e.head == d.head && SameLog(l, d, e)
    ensures Installed(l, e, t + 1) && SameRecovered(l, d, e)
  {
    InstallWriteShape(l, d, t, e);
    assert forall b :: IsHome(l, d, b) && b !in d.head ==> b != d.head[t];
  }

  lemma InstallWriteShape(l: Layout, d: Disk, t: nat, e: Disk)
    requires LogOk(l, d) && t < |d.head| && Installed(l, d, t)
    requires e == Apply(d, Block(d.head[t], d.blocks[l.start + 1 + t]))
    ensures LogOk(l, e) && e.head == d.head && SameLog(l, d, e) && Installed(l, e, t + 1)
  {
    assert IsHome(l, d, d.head[t]);
    assert forall i :: 0 <= i < |d.head| ==> IsHome(l, d, d.head[i]) ==> IsHome(l, e, d.head[i]);
  }

  /** write_head with n == 0, after everything is installed: erases the transaction. */
  lemma ClearWrite(l: Layout, d: Disk, e: Disk)
    requires LogOk(l, d) && Installed(l, d, |d.head|) && e == Apply(d, Header([]))
    ensures LogOk(l, e) && SameRecovered(l, d, e)
    ensures forall b :: IsHome(l, d, b) ==> e.blocks[b] == Recovered(l, d, b)
  {
  }

  // ----- The writes of commit() and recover_from_log() -----

  function LogWrites(l: Layout, vals: seq<Contents>): (ws: seq<Write>) {
    seq(|vals|, i requires 0 <= i < |vals| => Block(l.start + 1 + i, vals[i]))
  }

  function InstallWrites(lh: seq<nat>, vals: seq<Contents>): (ws: seq<Write>)
    requires |lh| == |vals|
  {
    seq(|lh|, i requires 0 <= i < |lh| => Block(lh[i], vals[i]))
  }

  /** commit(): log the blocks, announce them, install them, erase the announcement. */
  function CommitWrites(l: Layout, lh: seq<nat>, vals: seq<Contents>): (ws: seq<Write>)
    requires |lh| == |vals|
  {
    if lh == [] then [] else LogWrites(l, vals) + [Header(lh)] + InstallWrites(lh, vals) + [Header([])]
  }

  function LogBlocks(l: Layout, d: Disk, n: nat): (vals: seq<Contents>)
    requires l.start + 1 + n <= |d.blocks|
  {
    d.blocks[l.start + 1..l.start + 1 + n]
  }

  /** recover_from_log(): install whatever the header announces, then erase it. */
  function RecoverWrites(l: Layout, d: Disk): (ws: seq<Write>)
    requires LogOk(l, d)
  {
    InstallWrites(d.head, LogBlocks(l, d, |d.head|)) + [Header([])]
  }

  lemma RecoverWriteAt(l: Layout, d: Disk, t: nat)
    requires LogOk(l, d) && t < |d.head|
    ensures RecoverWrites(l, d)[t] == Block(d.head[t], d.blocks[l.start + 1 + t])
  {
  }

  // ----- Recovery -----

  function Min(a: nat, b: nat): nat { if a < b then a else b }

  /** The disk after a recovery that crashed once it had issued k writes. */
  function CutRecovery(l: Layout, d: Disk, k: nat): Disk
    requires LogOk(l, d)
  {
    ApplyPrefix(d, RecoverWrites(l, d), Min(k, |RecoverWrites(l, d)|))
  }

  /** The disk after one complete recovery. */
  function Recover(l: Layout, d: Disk): Disk
    requires LogOk(l, d)
  {
    ApplyPrefix(d, RecoverWrites(l, d), |RecoverWrites(l, d)|)
  }

  /** Every prefix of a recovery's writes leaves a disk that replays to the same blocks. */
  lemma {:induction false} RecoveryPrefix(l: Layout, d: Disk, k: nat)
    requires LogOk(l, d) && k <= |d.head|
    ensures var e := ApplyPrefix(d, RecoverWrites(l, d), k);
            && LogOk(l, e) && e.head == d.head && SameLog(l, d, e) && Installed(l, e, k) && SameRecovered(l, d, e)
  {
    if k != 0 {
      var t := k - 1;
      RecoveryPrefix(l, d, t);
      var e := ApplyPrefix(d, RecoverWrites(l, d), t);
      RecoverWriteAt(l, d, t);
      var p := l.start + 1 + t;
      assert e.blocks[p] == d.blocks[p];
      InstallWrite(l, e, t, Apply(e, Block(d.head[t], d.blocks[p])));
    }
  }

  /** A complete recovery brings every home block to its replayed value and empties the log. */
  lemma RecoverCompletes(l: Layout, d: Disk)
    requires LogOk(l, d)
    ensures var e := Recover(l, d);
            && LogOk(l, e) && e.head == [] && SameRecovered(l, d, e)
            && (forall b :: IsHome(l, d, b) ==> e.blocks[b] == Recovered(l, d, b))
  {
    RecoveryPrefix(l, d, |d.head|);
    var before := ApplyPrefix(d, RecoverWrites(l, d), |d.head|);
    ClearWrite(l, before, Recover(l, d));
    assert forall b :: IsHome(l, d, b) <==> IsHome(l, before, b);
  }

  lemma CutRecoveryKeeps(l: Layout, d: Disk, k: nat)
    requires LogOk(l, d)
    ensures LogOk(l, CutRecovery(l, d, k)) && SameRecovered(l, d, CutRecovery(l, d, k))
  {
    if k <= |d.head| {
      RecoveryPrefix(l, d, k);
    } else {
      RecoverCompletes(l, d);
    }
  }

  /** Recovering a recovered disk changes no block. */
  lemma RecoverIdempotent(l: Layout, d: Disk)
    requires LogOk(l, d)
    ensures LogOk(l, Recover(l, d)) && Recover(l, Recover(l, d)) == Recover(l, d)
  {
    RecoverCompletes(l, d);
    var e := Recover(l, d);
    assert RecoverWrites(l, e) == [Header([])];
    assert ApplyPrefix(e, RecoverWrites(l, e), 1) == Apply(ApplyPrefix(e, RecoverWrites(l, e), 0), Header([]));
  }

  /** A boot whose recovery crashes after cuts[0] writes, the next after cuts[1], and so on,
      until one recovery runs to its end. */
  ghost function BootAfterCrashes(l: Layout, d: Disk, cuts: seq<nat>): Disk
    requires LogOk(l, d)
    decreases |cuts|
  {
    if cuts == [] then Recover(l, d) else
    CutRecoveryKeeps(l, d, cuts[0]);
    BootAfterCrashes(l, CutRecovery(l, d, cuts[0]), cuts[1..])
  }

  lemma {:induction false} CrashesInRecovery(l: Layout, d: Disk, cuts: seq<nat>)
    requires LogOk(l, d)
    ensures var e := BootAfterCrashes(l, d, cuts);
            && |e.blocks| == |d.blocks| && LogOk(l, e) && e.head == []
            && (forall b :: IsHome(l, d, b) ==> e.blocks[b] == Recovered(l, d, b))
    decreases |cuts|
  {
    if cuts == [] {
      RecoverCompletes(l, d);
    } else {
      CutRecoveryKeeps(l, d, cuts[0]);
      var c := CutRecovery(l, d, cuts[0]);
      CrashesInRecovery(l, c, cuts[1..]);
      assert forall b :: IsHome(l, d, b) <==> IsHome(l, c, b);
    }
  }

  // ----- Crash atomicity of commit() -----

  ghost predicate CommitReady(l: Layout, d: Disk, lh: seq<nat>, vals: seq<Contents>) {
    LogOk(l, d) && d.head == [] && lh != [] && Loggable(l, d, lh) && |vals| == |lh|
  }

  /** ws are the writes of a commit of lh with contents vals. */
  ghost predicate IsCommit(l: Layout, lh: seq<nat>, vals: seq<Contents>, ws: seq<Write>) {
    var n := |lh|;
    && |vals| == n && |ws| == 2 * n + 2 && ws[n] == Header(lh) && ws[2 * n + 1] == Header([])
    && (forall i {:trigger ws[i]} :: 0 <= i < n ==> ws[i] == Block(l.start + 1 + i, vals[i]))
    && (forall i {:trigger ws[i]} :: n < i <= 2 * n ==> ws[i] == Block(lh[i - n - 1], vals[i - n - 1]))
  }

  lemma CommitWritesAre(l: Layout, lh: seq<nat>, vals: seq<Contents>)
    requires |lh| == |vals| && lh != []
    ensures IsCommit(l, lh, vals, CommitWrites(l, lh, vals))
  {
  }

  /** ds are the disks that a commit of lh with contents vals passes through. */
  ghost predicate CommitRun(l: Layout, ds: seq<Disk>, lh: seq<nat>, vals: seq<Contents>, ws: seq<Write>) {
    IsRun(ds, ws) && IsCommit(l, lh, vals, ws) && CommitReady(l, ds[0], lh, vals)
  }

  /** Up to the header write, nothing but log blocks has changed. */
  lemma {:induction false} CommitCutLogging(l: Layout, ds: seq<Disk>, lh: seq<nat>, vals: seq<Contents>,
                                            ws: seq<Write>, k: nat)
    requires CommitRun(l, ds, lh, vals, ws) && k <= |lh|
    ensures LogOk(l, ds[k]) && ds[k].head == [] && SameRecovered(l, ds[0], ds[k]) && SameHome(l, ds[0], ds[k])
    ensures LogBlocks(l, ds[k], k) == vals[..k]
  {
    if k != 0 {
      var i := k - 1;
      CommitCutLogging(l, ds, lh, vals, ws, i);
      assert ws[i] == Block(l.start + 1 + i, vals[i]);
      LogBlockWrite(l, ds[i], i, vals[i], ds[k]);
      assert LogBlocks(l, ds[k], k) == LogBlocks(l, ds[i], i) + [vals[i]];
    }
  }

  /** Every home block replays to its new contents if it was logged, and to d's otherwise. */
  ghost predicate AllNew(l: Layout, d: Disk, e: Disk, lh: seq<nat>, vals: seq<Contents>)
    requires |lh| == |vals| && LogOk(l, e) && |e.blocks| == |d.blocks|
  {
    forall b :: IsHome(l, d, b) ==> Recovered(l, e, b) == if b in lh then vals[IndexOf(lh, b)] else d.blocks[b]
  }

  lemma AllNewKept(l: Layout, d: Disk, e: Disk, f: Disk, lh: seq<nat>, vals: seq<Contents>)
    requires |lh| == |vals| && LogOk(l, e) && LogOk(l, f) && |e.blocks| == |d.blocks|
    requires AllNew(l, d, e, lh, vals) && SameRecovered(l, e, f)
    ensures AllNew(l, d, f, lh, vals)
  {
    assert forall b :: IsHome(l, d, b) <==> IsHome(l, e, b);
  }

  /** The header announces lh, the log holds vals, and the first t blocks are installed. */
  ghost predicate Committed(l: Layout, d: Disk, e: Disk, lh: seq<nat>, vals: seq<Contents>, t: nat)
    requires |lh| == |vals|
  {
    && |e.blocks| == |d.blocks| && LogOk(l, e) && e.head == lh
    && LogBlocks(l, e, |lh|) == vals && Installed(l, e, t) && AllNew(l, d, e, lh, vals)
  }

  lemma CommitPoint(l: Layout, d: Disk, before: Disk, lh: seq<nat>, vals: seq<Contents>, e: Disk)
    requires CommitReady(l, d, lh, vals) && LogOk(l, before) && before.head == [] && SameHome(l, d, before)
    requires LogBlocks(l, before, |lh|) == vals && e == Apply(before, Header(lh))
    ensures Committed(l, d, e, lh, vals, 0)
  {
    assert forall i :: 0 <= i < |lh| ==> IsHome(l, d, lh[i]) ==> IsHome(l, before, lh[i]);
    CommitWrite(l, before, lh, e);
    forall b | IsHome(l, d, b)
      ensures Recovered(l, e, b) == if b in lh then vals[IndexOf(lh, b)] else d.blocks[b]
    {
      assert IsHome(l, before, b);
      if b in lh {
        assert LogBlocks(l, before, |lh|)[IndexOf(lh, b)] == LogCopy(l, before, IndexOf(lh, b));
      }
    }
  }

  lemma InstallOne(l: Layout, d: Disk, before: Disk, lh: seq<nat>, vals: seq<Contents>, t: nat)
    requires |lh| == |vals| && t < |lh| && Committed(l, d, before, lh, vals, t)
    ensures Committed(l, d, Apply(before, Block(lh[t], vals[t])), lh, vals, t + 1)
  {
    var e := Apply(before, Block(lh[t], vals[t]));
    assert vals[t] == LogBlocks(l, before, |lh|)[t] == before.blocks[l.start + 1 + t];
    InstallWrite(l, before, t, e);
    AllNewKept(l, d, before, e, lh, vals);
    assert LogBlocks(l, e, |lh|) == LogBlocks(l, before, |lh|);
  }

  /** From the header write on, the disk replays to the new contents of every logged block. */
  lemma {:induction false} CommitCutInstalling(l: Layout, ds: seq<Disk>, lh: seq<nat>, vals: seq<Contents>,
                                               ws: seq<Write>, t: nat)
    requires CommitRun(l, ds, lh, vals, ws) && t <= |lh|
    ensures Committed(l, ds[0], ds[|lh| + 1 + t], lh, vals, t)
  {
    var k := |lh| + t;
    assert ds[k + 1] == Apply(ds[k], ws[k]);
    if t == 0 {
      CommitCutLogging(l, ds, lh, vals, ws, k);
      assert vals[..k] == vals;
      CommitPoint(l, ds[0], ds[k], lh, vals, ds[k + 1]);
    } else {
      CommitCutInstalling(l, ds, lh, vals, ws, t - 1);
      InstallOne(l, ds[0], ds[k], lh, vals, t - 1);
    }
  }

  lemma ClearCommitted(l: Layout, d: Disk, before: Disk, lh: seq<nat>, vals: seq<Contents>)
    requires |lh| == |vals| && Committed(l, d, before, lh, vals, |lh|)
    ensures var e := Apply(before, Header([])); LogOk(l, e) && AllNew(l, d, e, lh, vals)
  {
    var e := Apply(before, Header([]));
    ClearWrite(l, before, e);
    AllNewKept(l, d, before, e, lh, vals);
  }

  /** The commit point is the first header write: before it the disk replays to the old
      blocks, after it to the new ones. */
  lemma CommitCutRecovered(l: Layout, ds: seq<Disk>, lh: seq<nat>, vals: seq<Contents>, ws: seq<Write>, k: nat)
    requires CommitRun(l, ds, lh, vals, ws) && k <= |ws|
    ensures LogOk(l, ds[k])
    ensures k <= |lh| ==> SameRecovered(l, ds[0], ds[k])
    ensures |lh| < k ==> AllNew(l, ds[0], ds[k], lh, vals)
  {
    if k <= |lh| {
      CommitCutLogging(l, ds, lh, vals, ws, k);
    } else {
      var n := |ws| - 1;
      CommitCutInstalling(l, ds, lh, vals, ws, if k <= n then k - |lh| - 1 else |lh|);
      if n < k {
        assert ds[n + 1] == Apply(ds[n], ws[n]);
        ClearCommitted(l, ds[0], ds[n], lh, vals);
      }
    }
  }

  /** Crash atomicity. Whatever write of commit() was the last before a crash, and however
      often recovery itself is interrupted, the first recovery that completes leaves every
      home block at its old contents (crash before the header write) or every logged block
      at its new contents and the others untouched (crash after it). */
  lemma CrashAtomicity(l: Layout, d: Disk, lh: seq<nat>, vals: seq<Contents>, k: nat, cuts: seq<nat>)
    requires CommitReady(l, d, lh, vals) && k <= |CommitWrites(l, lh, vals)|
    ensures LogOk(l, ApplyPrefix(d, CommitWrites(l, lh, vals), k))
    ensures var e := BootAfterCrashes(l, ApplyPrefix(d, CommitWrites(l, lh, vals), k), cuts);
            && |e.blocks| == |d.blocks| && LogOk(l, e) && e.head == []
            && (k <= |lh| ==> SameHome(l, d, e))
            && (|lh| < k ==> forall b :: IsHome(l, d, b) ==>
                               e.blocks[b] == if b in lh then vals[IndexOf(lh, b)] else d.blocks[b])
  {
    var ws := CommitWrites(l, lh, vals);
    var ds := seq(|ws| + 1, i requires 0 <= i <= |ws| => ApplyPrefix(d, ws, i));
    PrefixesAreRun(d, ws);
    CommitWritesAre(l, lh, vals);
    CommitCutRecovered(l, ds, lh, vals, ws, k);
    CrashesInRecovery(l, ds[k], cuts);
    assert forall b :: IsHome(l, d, b) ==> IsHome(l, ds[k], b);
  }
}
