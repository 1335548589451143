/** Recovery at boot and the reference counts: install_trans (kernel/log.c) ends each block with
    bunpin, but only log_write pins blocks, so recovery takes away a reference nobody holds. */
module RecoveryPins {
  import opened Sequences
  import opened Counting
  import opened BufferRing
  import BufferCache

  /** No buffer is referenced, and no block of the device is cached twice. */
  ghost predicate AtRest(tags: seq<Tag>, dev: nat) {
    |tags| == NBUF && OneEach(tags, dev) && forall b :: 0 <= b < NBUF ==> tags[b].refcnt == 0
  }

  ghost predicate OneEach(tags: seq<Tag>, dev: nat) {
    && |tags| == NBUF
    && forall b, c :: 0 <= b < NBUF && 0 <= c < NBUF && tags[b].dev == dev && tags[c].dev == dev ==>
         (tags[b].blockno == tags[c].blockno ==> b == c)
  }

  /** The buffers at[..] hold the blocks lh[..] with a count of -1; nothing else is referenced. */
  ghost predicate Stuck(tags: seq<Tag>, dev: nat, lh: seq<nat>, at: seq<nat>) {
    && OneEach(tags, dev) && |at| == |lh| && Buffers(at)
    && (forall t :: 0 <= t < |lh| ==> at[t] < NBUF && Hit(tags[at[t]], dev, lh[t]) && tags[at[t]].refcnt == UINT - 1)
    && (forall b :: 0 <= b < NBUF && b !in at ==> tags[b].refcnt == 0)
  }

  /** NBUF buffers and no more. */
  lemma Pigeonhole(at: seq<nat>)
    requires Buffers(at)
    ensures |at| <= NBUF
    ensures |at| == NBUF <==> forall b: nat :: b < NBUF ==> b in at
  {
    Fill(at, NBUF);
  }

  lemma Fill(at: seq<nat>, n: nat)
    requires Distinct(at) && forall x :: x in at ==> x < n
    ensures |at| <= n
    ensures |at| == n <==> forall b: nat :: b < n ==> b in at
  {
    var used, all := (set x: nat | x in at), Interval(0, n);
    CountedAll(at);
    assert used <= all;
    assert all == used + (all - used) && used !! (all - used);
    if |at| == n {
      forall b: nat | b < n ensures b in at {
        assert b in all;
      }
    }
  }

  /** Exactly the buffers of `busy` are referenced. */
  ghost predicate Busy(tags: seq<Tag>, busy: seq<nat>) {
    |tags| == NBUF && Buffers(busy) && forall b: nat :: b < NBUF ==> (tags[b].refcnt == 0 <==> b !in busy)
  }

  /** bget of a block that no busy buffer holds: it finds a buffer iff one is not busy. */
  lemma GetFree(order: seq<nat>, tags: seq<Tag>, busy: seq<nat>, dev: nat, blockno: nat, r: int, tags': seq<Tag>)
    requires Busy(tags, busy) && OneEach(tags, dev) && GetSpec(order, tags, dev, blockno, r, tags')
    requires forall b: nat :: b < NBUF && b in busy ==> !Hit(tags[b], dev, blockno)
    ensures |busy| <= NBUF && (r < 0 <==> |busy| == NBUF)
    ensures r >= 0 ==> r < NBUF && r !in busy && |tags'| == NBUF && tags' == tags[r := tags'[r]]
    ensures r >= 0 ==> Hit(tags'[r], dev, blockno) && tags'[r].refcnt == 1
    ensures r >= 0 ==> Busy(tags', busy + [r]) && OneEach(tags', dev)
  {
    Pigeonhole(busy);
    if |busy| < NBUF {
      var b: nat :| b < NBUF && b !in busy;
      assert tags[b].refcnt == 0;
    }
    if r >= 0 {
      assert tags[r].refcnt == 0;
      Added(busy, r);
    }
  }

  lemma Added(busy: seq<nat>, r: nat)
    requires Buffers(busy) && r < NBUF && r !in busy
    ensures Buffers(busy + [r])
  {
    var more := busy + [r];
    forall i | 0 <= i < |more| ensures more[i] < NBUF && IndexOf(more, more[i]) == i {
      var j := IndexOf(more, more[i]);
      assert j < |busy| ==> more[j] == busy[j];
      assert i < |busy| ==> more[i] == busy[i];
    }
  }

  /** The counts of one round of recovery, from the five calls it makes. */
  ghost predicate Round(tags0: seq<Tag>, r1: nat, r2: nat, tags2: seq<Tag>, tags': seq<Tag>) {
    && |tags0| == |tags2| == |tags'| == NBUF && r1 < NBUF && r2 < NBUF && r1 != r2
    && tags' == tags2[r2 := Dec(tags2[r2])][r1 := Dec(tags2[r1])][r2 := Dec(Dec(tags2[r2]))]
  }

  lemma RoundSticks(tags: seq<Tag>, dev: nat, lh: seq<nat>, at: seq<nat>, x: nat, r1: nat, r2: nat,
                    tags1: seq<Tag>, tags2: seq<Tag>, tags': seq<Tag>)
    requires Stuck(tags, dev, lh, at) && x !in lh
    requires |tags1| == NBUF && r1 < NBUF && r1 !in at && tags1 == tags[r1 := tags1[r1]] && tags1[r1].refcnt == 1
    requires r2 < NBUF && r2 !in at && r2 != r1 && |tags2| == NBUF && tags2 == tags1[r2 := tags2[r2]]
    requires Hit(tags2[r2], dev, x) && tags2[r2].refcnt == 1 && OneEach(tags2, dev)
    requires Round(tags, r1, r2, tags2, tags')
    ensures Stuck(tags', dev, lh + [x], at + [r2])
  {
    Added(at, r2);
    var lh', at' := lh + [x], at + [r2];
    forall t | 0 <= t < |lh'|
      ensures at'[t] < NBUF && Hit(tags'[at'[t]], dev, lh'[t]) && tags'[at'[t]].refcnt == UINT - 1
    {
      if t < |lh| { assert at[t] != r1 && at[t] != r2; }
    }
  }

  /** One round of install_trans: the log block, the home block, and the five counts. */
  method InstallOne(c: Bcache, dev: nat, logged: nat, home: nat, ghost lh: seq<nat>, ghost at: seq<nat>)
    returns (dbuf: int)
    requires c.Valid() && Stuck(c.tags, dev, lh, at) && |lh| < NBUF
    requires logged !in lh && home !in lh && logged != home
    modifies c
    ensures c.Valid() && (dbuf < 0 <==> |lh| + 1 == NBUF)
    ensures dbuf >= 0 ==> Stuck(c.tags, dev, lh + [home], at + [dbuf])
  {
    ghost var tags0 := c.tags;
    StuckBusy(tags0, dev, lh, at);
    var lbuf := c.Bget(dev, logged);
    ghost var tags1 := c.tags;
    GetFree(c.order, tags0, at, dev, logged, lbuf, tags1);
    dbuf := c.Bget(dev, home);
    ghost var tags2 := c.tags;
    GetFree(c.order, tags1, at + [lbuf], dev, home, dbuf, tags2);
    if dbuf < 0 { return; }
    c.Bunpin(dbuf);
    c.Brelse(lbuf);
    c.Brelse(dbuf);
    RoundSticks(tags0, dev, lh, at, home, lbuf, dbuf, tags1, tags2, c.tags);
  }

  lemma StuckBusy(tags: seq<Tag>, dev: nat, lh: seq<nat>, at: seq<nat>)
    requires Stuck(tags, dev, lh, at)
    ensures Busy(tags, at)
    ensures forall x, b: nat :: x !in lh && b < NBUF && b in at ==> !Hit(tags[b], dev, x)
  {
    forall b: nat | b in at ensures b < NBUF && tags[b].refcnt != 0 && tags[b].blockno in lh {
      assert at[IndexOf(at, b)] == b;
    }
  }

  /** install_trans during recovery. It panics for want of a buffer exactly when the log is as
      long as the cache; otherwise every recovered block's buffer is left with a count of -1,
      so that all counts are zero again exactly when the log was empty. (The contents of the
      blocks are the subject of the redo log's model.) */
  method InstallTrans(c: Bcache, dev: nat, start: nat, lh: seq<nat>) returns (ok: bool, ghost at: seq<nat>)
    requires c.Valid() && AtRest(c.tags, dev) && Distinct(lh)
    requires forall x :: x in lh ==> !(start <= x <= start + |lh|)
    modifies c
    ensures c.Valid() && (ok <==> |lh| < NBUF)
    ensures ok ==> Stuck(c.tags, dev, lh, at) && (AtRest(c.tags, dev) <==> lh == [])
  {
    ok, at := true, [];
    var tail := 0;
    while tail < |lh|
      invariant 0 <= tail <= |lh| && c.Valid() && Stuck(c.tags, dev, lh[..tail], at) && tail < NBUF
    {
      assert lh[..tail + 1] == lh[..tail] + [lh[tail]];
      NotBefore(lh, tail);
      assert lh[tail] in lh && forall x :: x in lh[..tail] ==> x in lh;
      var dbuf := InstallOne(c, dev, start + tail + 1, lh[tail], lh[..tail], at);
      if dbuf < 0 {
        ok := false;
        return;
      }
      at := at + [dbuf];
      tail := tail + 1;
    }
    assert lh[..tail] == lh;
    if lh != [] { assert c.tags[at[0]].refcnt != 0; }
  }

  // ----- What a stuck count does later -----

  /** NBUF blocks that are not cached are read, none of them released: one of them gets the
      unreferenced buffer r. */
  method ReadOthers(c: Bcache, dev: nat, r: nat, others: seq<nat>) returns (i: nat)
    requires c.Valid() && r < NBUF && c.tags[r].refcnt == 0 && |others| == NBUF && Distinct(others)
    requires forall b, x :: 0 <= b < NBUF && x in others ==> !Hit(c.tags[b], dev, x)
    modifies c`tags
    ensures c.Valid() && i < NBUF && Hit(c.tags[r], dev, others[i])
  {
    ghost var taken: seq<nat> := [];
    assert forall j :: 0 <= j < NBUF ==> others[j] in others;
    i := 0;
    while true
      invariant i < NBUF && |taken| == i && Buffers(taken) && r !in taken && c.Valid() && c.tags[r].refcnt == 0
      invariant forall b: nat :: b in taken ==> c.tags[b].refcnt != 0
      invariant forall b, j :: 0 <= b < NBUF && i <= j < NBUF ==> !Hit(c.tags[b], dev, others[j])
      decreases NBUF - i
    {
      var b := c.Bget(dev, others[i]);
      if b == r { return; }
      Added(taken, b);
      Added(taken + [b], r);
      Pigeonhole(taken + [b] + [r]);
      taken := taken + [b];
      i := i + 1;
    }
  }

  /** After a recovery, reading a recovered block takes its count from -1 to 0 while the caller
      holds the buffer, so reading other blocks hands the same buffer out a second time. */
  method Collision(c: Bcache, dev: nat, lh: seq<nat>, ghost at: seq<nat>, others: seq<nat>)
    returns (r: int, i: nat)
    requires c.Valid() && Stuck(c.tags, dev, lh, at) && lh != [] && |others| == NBUF && Distinct(others)
    requires forall b, x :: 0 <= b < NBUF && x in others ==> !Hit(c.tags[b], dev, x)
    modifies c`tags
    ensures c.Valid() && r == at[0] && Hit(old(c.tags)[at[0]], dev, lh[0])
    ensures i < NBUF && Hit(c.tags[r], dev, others[i])
  {
    assert Hit(c.tags[at[0]], dev, lh[0]);
    r := c.Bget(dev, lh[0]);
    i := ReadOthers(c, dev, r, others);
  }

  // ----- Runs of the cache that start with a recovery -----

  /** A step of the cache, or recovery's bunpin of a buffer that it holds and nobody pinned. */
  datatype BootStep = Plain(a: BufferCache.Action) | BareUnpin(i: nat)

  ghost predicate BootEnabled(s: BufferCache.State, step: BootStep) {
    match step
    case Plain(a) => BufferCache.Enabled(s, a)
    case BareUnpin(i) => BufferCache.Holding(s, i) && s.uses[i].pins == 0
  }

  ghost function BootNext(s: BufferCache.State, step: BootStep): BufferCache.State
    requires BootEnabled(s, step)
  {
    match step
    case Plain(a) => BufferCache.Next(s, a)
    case BareUnpin(i) => BufferCache.WithTag(s, i, Dec(s.tags[i]))
  }

  ghost predicate IsBoot(ss: seq<BufferCache.State>, steps: seq<BootStep>) {
    && |ss| == |steps| + 1 && BufferCache.Init(ss[0])
    && forall n {:trigger steps[n]} :: 0 <= n < |steps| ==>
         BootEnabled(ss[n], steps[n]) && ss[n + 1] == BootNext(ss[n], steps[n])
  }

  /** Every count is the number of references there are. */
  ghost predicate CountsRight(s: BufferCache.State) {
    |s.tags| == |s.uses| == NBUF && forall i :: 0 <= i < NBUF ==> s.tags[i].refcnt == BufferCache.Refs(s.uses[i])
  }

  /** The blocks whose buffers recovery unpins in the first n steps, in order. */
  ghost function Unpinned(ss: seq<BufferCache.State>, steps: seq<BootStep>, n: nat): seq<BufferCache.Key>
    requires IsBoot(ss, steps) && n <= |steps|
  {
    if n == 0 then []
    else if steps[n - 1].BareUnpin? then
      assert BootEnabled(ss[n - 1], steps[n - 1]);
      Unpinned(ss, steps, n - 1) + [BufferCache.KeyOf(ss[n - 1].tags[steps[n - 1].i])]
    else Unpinned(ss, steps, n - 1)
  }

  /** A run from a boot that finds header lh on the log's device: recovery unpins the buffers of
      the announced blocks, one by one. */
  ghost predicate IsBootOf(ss: seq<BufferCache.State>, steps: seq<BootStep>, dev: nat, lh: seq<nat>) {
    IsBoot(ss, steps) && Unpinned(ss, steps, |steps|) == seq(|lh|, t requires 0 <= t < |lh| => (dev, lh[t]))
  }

  lemma {:induction false} UnpinnedNone(ss: seq<BufferCache.State>, steps: seq<BootStep>, n: nat)
    requires IsBoot(ss, steps) && n <= |steps|
    ensures Unpinned(ss, steps, n) == [] <==> forall m {:trigger steps[m]} :: 0 <= m < n ==> !steps[m].BareUnpin?
  {
    hide BufferCache.Init, BootEnabled, BootNext;
    if n > 0 {
      UnpinnedNone(ss, steps, n - 1);
    }
  }

  /** The counts are right throughout a run exactly when the boot found an empty header. */
  lemma CountsIff(ss: seq<BufferCache.State>, steps: seq<BootStep>, dev: nat, lh: seq<nat>)
    requires IsBootOf(ss, steps, dev, lh)
    ensures (forall n :: 0 <= n < |ss| ==> CountsRight(ss[n])) <==> lh == []
  {
    hide CountsRight, BufferCache.Init, BootEnabled, BootNext;
    UnpinnedNone(ss, steps, |steps|);
    if lh == [] {
      PlainRight(ss, steps);
    } else {
      assert Unpinned(ss, steps, |steps|) != [];
      var n :| 0 <= n < |steps| && steps[n].BareUnpin?;
      BareWrong(ss, steps, n);
    }
  }

  lemma PlainRight(ss: seq<BufferCache.State>, steps: seq<BootStep>)
    requires IsBoot(ss, steps) && forall n {:trigger steps[n]} :: 0 <= n < |steps| ==> !steps[n].BareUnpin?
    ensures forall n :: 0 <= n < |ss| ==> CountsRight(ss[n])
  {
    hide BufferCache.Init, BufferCache.Enabled, BufferCache.Next;
    var acts := seq(|steps|, n requires 0 <= n < |steps| => steps[n].a);
    forall n {:trigger acts[n]} | 0 <= n < |acts|
      ensures BufferCache.Enabled(ss[n], acts[n]) && ss[n + 1] == BufferCache.Next(ss[n], acts[n])
    {
      assert steps[n] == Plain(acts[n]);
    }
    forall n | 0 <= n < |ss| ensures CountsRight(ss[n]) {
      BufferCache.Always(ss, acts, n);
    }
  }

  lemma BareWrong(ss: seq<BufferCache.State>, steps: seq<BootStep>, n: nat)
    requires IsBoot(ss, steps) && n < |steps| && steps[n].BareUnpin?
    ensures !(CountsRight(ss[n]) && CountsRight(ss[n + 1]))
  {
    hide BufferCache.Init, BufferCache.Enabled, BufferCache.Next;
    assert BootEnabled(ss[n], steps[n]) && ss[n + 1] == BootNext(ss[n], steps[n]);
    var i := steps[n].i;
    assert CountsRight(ss[n]) ==> ss[n + 1].tags[i].refcnt != BufferCache.Refs(ss[n + 1].uses[i]);
  }
}
