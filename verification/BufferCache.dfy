/** The buffer cache under concurrency: bget's and brelse's critical sections, the sleep
    lock of each buffer, disk transfers, and the log's pins, one step each, in any
    interleaving. A history variable `stored` remembers the last value stored in each
    block; the theorems say the cache is a transparent block store. */
module BufferCache {
  import opened Sequences
  import opened BufferRing
  import RedoLog

  type Contents = RedoLog.Contents
  type Key = (nat, nat)          // dev, blockno

  /** Who uses a buffer: processes waiting for its lock, the one holding it, those that
      released the lock and have not yet dropped their reference, and the log's pins.
      `dirty`: the data differs from the disk as far as the holder knows. */
  datatype Use = Use(waiting: nat, locked: bool, leaving: nat, pins: nat, dirty: bool, data: Contents)

  datatype State = State(
    tags: seq<Tag>, order: seq<nat>, uses: seq<Use>,
    disk: map<Key, Contents>, stored: map<Key, Contents>,
    stamp: seq<nat>, clock: nat)   // when each buffer was last released for good

  datatype Action =
    | Get(key: Key, r: nat)        // bget, returning buffer r
    | Lock(i: nat)                 // acquiresleep succeeds
    | Fill(i: nat)                 // bread's virtio_disk_rw(b, 0)
    | Store(i: nat, data: Contents)
    | Write(i: nat)                // bwrite
    | Pin(i: nat) | Unpin(i: nat)
    | Unlock(i: nat)               // brelse's releasesleep
    | Drop(i: nat)                 // brelse's critical section

  function KeyOf(t: Tag): Key { (t.dev, t.blockno) }

  function Refs(u: Use): nat { u.waiting + (if u.locked then 1 else 0) + u.leaving + u.pins }

  function GetTags(s: State, key: Key, r: nat): seq<Tag>
    requires r < |s.tags|
  {
    s.tags[r := if Hit(s.tags[r], key.0, key.1) then Inc(s.tags[r]) else Tag(key.0, key.1, 1, false)]
  }

  predicate Holding(s: State, i: nat) { i < NBUF && |s.uses| == NBUF == |s.tags| && s.uses[i].locked }

  /** (caller): bread is asked for real blocks of a real device; a buffer's data changes only
      under its lock and after it was read; a changed buffer is written, or pinned by the
      log, before brelse; the log unpins a buffer it holds and has just written. */
  ghost predicate Enabled(s: State, a: Action) {
    && |s.tags| == |s.uses| == |s.stamp| == NBUF
    && match a
       case Get(key, r) =>
         && key.0 != 0 && key in s.disk                                   // (caller)
         && r < NBUF && Refs(s.uses[r]) + 1 < UINT
         && GetSpec(s.order, s.tags, key.0, key.1, r, GetTags(s, key, r))
       case Lock(i) => i < NBUF && s.uses[i].waiting > 0 && !s.uses[i].locked
       case Fill(i) => Holding(s, i) && !s.tags[i].valid && KeyOf(s.tags[i]) in s.disk
       case Store(i, _) => Holding(s, i) && s.tags[i].valid               // (caller)
       case Write(i) => Holding(s, i) && s.tags[i].valid
       case Pin(i) => Holding(s, i) && Refs(s.uses[i]) + 1 < UINT         // (caller)
       case Unpin(i) => Holding(s, i) && s.uses[i].pins > 0 && !s.uses[i].dirty   // (caller)
       case Unlock(i) => Holding(s, i) && s.tags[i].valid && (!s.uses[i].dirty || s.uses[i].pins > 0)   // (caller)
       case Drop(i) => i < NBUF && s.uses[i].leaving > 0 && i in s.order
  }

  function WithUse(s: State, i: nat, u: Use): State
    requires i < |s.uses|
  {
    s.(uses := s.uses[i := u])
  }

  function WithTag(s: State, i: nat, t: Tag): State
    requires i < |s.tags|
  {
    s.(tags := s.tags[i := t])
  }

  ghost function Next(s: State, a: Action): State
    requires Enabled(s, a)
  {
    match a
    case Get(key, r) =>
      var u := s.uses[r];
      var hit := Hit(s.tags[r], key.0, key.1);
      var u' := if hit then u.(waiting := u.waiting + 1) else Use(1, false, 0, 0, false, u.data);
      WithUse(s, r, u').(tags := GetTags(s, key, r))
    case Lock(i) => WithUse(s, i, s.uses[i].(waiting := s.uses[i].waiting - 1, locked := true))
    case Fill(i) =>
      WithTag(WithUse(s, i, s.uses[i].(data := s.disk[KeyOf(s.tags[i])])), i, s.tags[i].(valid := true))
    case Store(i, data) =>
      WithUse(s, i, s.uses[i].(data := data, dirty := true)).(stored := s.stored[KeyOf(s.tags[i]) := data])
    case Write(i) =>
      WithUse(s, i, s.uses[i].(dirty := false)).(disk := s.disk[KeyOf(s.tags[i]) := s.uses[i].data])
    case Pin(i) => WithTag(WithUse(s, i, s.uses[i].(pins := s.uses[i].pins + 1)), i, Inc(s.tags[i]))
    case Unpin(i) => WithTag(WithUse(s, i, s.uses[i].(pins := s.uses[i].pins - 1)), i, Dec(s.tags[i]))
    case Unlock(i) => WithUse(s, i, s.uses[i].(locked := false, leaving := s.uses[i].leaving + 1))
    case Drop(i) =>
      var t := Dec(s.tags[i]);
      WithTag(WithUse(s, i, s.uses[i].(leaving := s.uses[i].leaving - 1)), i, t).(
        order := Released(s.order, i, t),
        stamp := if t.refcnt == 0 then s.stamp[i := s.clock] else s.stamp, clock := s.clock + 1)
  }

  /** binit's result over any disk. */
  ghost predicate Init(s: State) {
    && |s.tags| == |s.order| == |s.uses| == |s.stamp| == NBUF && s.clock == NBUF && s.stored == s.disk
    && forall b :: 0 <= b < NBUF ==>
         && s.tags[b] == Tag(0, 0, 0, false) && s.order[b] == NBUF - 1 - b && s.stamp[b] == b
         && Refs(s.uses[b]) == 0 && !s.uses[b].dirty
  }

  ghost predicate IsBehaviour(ss: seq<State>, acts: seq<Action>) {
    && |ss| == |acts| + 1 && Init(ss[0])
    && forall i {:trigger acts[i]} :: 0 <= i < |acts| ==> Enabled(ss[i], acts[i]) && ss[i + 1] == Next(ss[i], acts[i])
  }

  // ----- The invariant -----

  ghost predicate ListInv(s: State) {
    && |s.tags| == |s.uses| == |s.stamp| == |s.order| == NBUF
    && Buffers(s.order) && (forall b :: 0 <= b < NBUF ==> b in s.order)
    && (forall i :: 0 <= i < NBUF ==> s.tags[i].refcnt == Refs(s.uses[i]) < UINT)
  }

  ghost function BufferOf(tags: seq<Tag>, key: Key): (i: nat)
    requires exists i :: 0 <= i < |tags| && KeyOf(tags[i]) == key
    ensures i < |tags| && KeyOf(tags[i]) == key
  {
    var i :| 0 <= i < |tags| && KeyOf(tags[i]) == key;
    i
  }

  /** A block of a real device is in at most one buffer. */
  ghost predicate UniqueInv(s: State)
    requires |s.tags| == NBUF
  {
    forall i :: 0 <= i < NBUF && s.tags[i].dev != 0 ==> BufferOf(s.tags, KeyOf(s.tags[i])) == i
  }

  ghost predicate InBuffer(s: State, key: Key)
    requires |s.tags| == NBUF
  {
    exists i :: 0 <= i < NBUF && KeyOf(s.tags[i]) == key && s.tags[i].valid
  }

  ghost predicate DataInv(s: State)
    requires |s.tags| == |s.uses| == NBUF
  {
    && s.disk.Keys == s.stored.Keys
    && (forall i :: 0 <= i < NBUF && s.tags[i].dev != 0 ==> BufferOk(s, i))
    && (forall i :: 0 <= i < NBUF && s.tags[i].dev == 0 ==>
         !s.tags[i].valid && Refs(s.uses[i]) == 0 && !s.uses[i].dirty)
    && (forall key :: key in s.disk && key.0 != 0 && !InBuffer(s, key) ==> s.disk[key] == s.stored[key])
  }

  /** A valid buffer holds the block's last stored value, and so does the disk unless the
      buffer is locked or pinned; an unread buffer has not been changed. */
  ghost predicate BufferOk(s: State, i: nat)
    requires i < NBUF && |s.tags| == |s.uses| == NBUF
  {
    var key := KeyOf(s.tags[i]);
    && key in s.disk && key in s.stored
    && (s.tags[i].valid ==> s.uses[i].data == s.stored[key])
    && (s.tags[i].valid && !s.uses[i].dirty ==> s.disk[key] == s.uses[i].data)
    && (s.uses[i].dirty ==> s.tags[i].valid && (s.uses[i].locked || s.uses[i].pins > 0))
  }

  ghost predicate MostRecentFirst(order: seq<nat>, stamp: seq<nat>)
    requires |stamp| == NBUF && Buffers(order)
  {
    forall i, j :: 0 <= i < j < |order| ==> stamp[order[i]] > stamp[order[j]]
  }

  /** The list runs from the most to the least recently released buffer. */
  ghost predicate RecencyInv(s: State)
    requires |s.stamp| == |s.order| == NBUF && Buffers(s.order)
  {
    MostRecentFirst(s.order, s.stamp) && forall i :: 0 <= i < NBUF ==> s.stamp[i] < s.clock
  }

  ghost predicate Core(s: State) { ListInv(s) && UniqueInv(s) && DataInv(s) }

  ghost predicate Inv(s: State) { Core(s) && RecencyInv(s) }

  // ----- Every step keeps it -----

  /** Only buffer i changed, and not which block it holds or whether it was read. */
  ghost predicate OnlyUse(s: State, s': State, i: nat) {
    && i < NBUF && |s.tags| == |s.uses| == |s'.tags| == |s'.uses| == NBUF
    && KeyOf(s'.tags[i]) == KeyOf(s.tags[i]) && s'.tags[i].valid == s.tags[i].valid
    && (forall j :: 0 <= j < NBUF && j != i ==> s'.tags[j] == s.tags[j] && s'.uses[j] == s.uses[j])
    && s'.stamp == s.stamp && s'.order == s.order && s'.clock == s.clock
  }

  /** Steps that change one buffer's counters. */
  lemma KeepCounters(s: State, s': State, i: nat)
    requires Core(s) && OnlyUse(s, s', i) && s'.disk == s.disk && s'.stored == s.stored
    requires s'.uses[i].data == s.uses[i].data && s'.uses[i].dirty == s.uses[i].dirty
    requires s'.tags[i].refcnt == Refs(s'.uses[i]) < UINT
    requires s.tags[i].dev == 0 ==> Refs(s'.uses[i]) == 0
    requires s.uses[i].dirty ==> s'.uses[i].locked || s'.uses[i].pins > 0
    ensures Core(s')
  {
    assert forall key :: InBuffer(s', key) <==> InBuffer(s, key);
    assert forall j :: 0 <= j < NBUF && s.tags[j].dev != 0 && BufferOk(s, j) ==> BufferOk(s', j);
  }

  lemma KeepFill(s: State, i: nat, s': State)
    requires Core(s) && Enabled(s, Fill(i)) && s' == Next(s, Fill(i))
    ensures Core(s')
  {
    assert s.tags[i].dev != 0;
    assert !InBuffer(s, KeyOf(s.tags[i]));
    assert forall j :: 0 <= j < NBUF && j != i ==> s'.tags[j] == s.tags[j] && s'.uses[j] == s.uses[j];
    assert forall key :: InBuffer(s, key) ==> InBuffer(s', key);
    assert forall j :: 0 <= j < NBUF && s.tags[j].dev != 0 && BufferOk(s, j) && j != i ==> BufferOk(s', j);
  }

  /** Steps that transfer data between the holder, the buffer and the disk. */
  lemma KeepTransfer(s: State, i: nat, s': State)
    requires Core(s) && OnlyUse(s, s', i) && s.tags[i].dev != 0 && s.tags[i].valid && s'.tags == s.tags
    requires Refs(s'.uses[i]) == Refs(s.uses[i])
    requires s'.disk.Keys == s.disk.Keys && s'.stored.Keys == s.stored.Keys
    requires forall key :: key in s.disk && key != KeyOf(s.tags[i]) ==>
               s'.disk[key] == s.disk[key] && s'.stored[key] == s.stored[key]
    requires BufferOk(s', i)
    ensures Core(s')
  {
    assert forall j :: 0 <= j < NBUF && j != i ==> KeyOf(s.tags[j]) != KeyOf(s.tags[i]);
    assert ListInv(s') && UniqueInv(s');
    hide ListInv, UniqueInv, BufferOf;
    TransferOthers(s, i, s');
    assert forall key :: InBuffer(s', key) <==> InBuffer(s, key);
    assert InBuffer(s, KeyOf(s.tags[i]));
  }

  lemma TransferOthers(s: State, i: nat, s': State)
    requires OnlyUse(s, s', i) && s'.tags == s.tags && s'.disk.Keys == s.disk.Keys && s'.stored.Keys == s.stored.Keys
    requires forall key :: key in s.disk && key != KeyOf(s.tags[i]) && key in s.stored ==>
               s'.disk[key] == s.disk[key] && s'.stored[key] == s.stored[key]
    requires forall j :: 0 <= j < NBUF && j != i ==> KeyOf(s.tags[j]) != KeyOf(s.tags[i])
    ensures forall j :: 0 <= j < NBUF && j != i && BufferOk(s, j) ==> BufferOk(s', j)
  {
  }

  /** A recycled buffer had no reference, so it was clean and its block survives on disk. */
  lemma KeepMiss(s: State, key: Key, r: nat, s': State)
    requires Core(s) && Enabled(s, Get(key, r)) && !Hit(s.tags[r], key.0, key.1) && s' == Next(s, Get(key, r))
    ensures Core(s') && Refs(s.uses[r]) == 0
  {
    assert forall j :: 0 <= j < NBUF ==> !Hit(s.tags[j], key.0, key.1);
    assert forall j :: 0 <= j < NBUF && j != r ==> s'.tags[j] == s.tags[j] && s'.uses[j] == s.uses[j];
    assert forall k :: InBuffer(s, k) && !InBuffer(s', k) ==> k == KeyOf(s.tags[r]);
    assert forall j :: 0 <= j < NBUF && s.tags[j].dev != 0 && BufferOk(s, j) && j != r ==> BufferOk(s', j);
  }

  lemma FrontDistinct(order: seq<nat>, k: nat)
    requires Buffers(order) && k < |order| && order[k] !in Without(order, k) && Buffers(Without(order, k))
    ensures Buffers([order[k]] + Without(order, k))
  {
    var rest := Without(order, k);
    var front := [order[k]] + rest;
    forall i | 0 <= i < |front|
      ensures front[i] < NBUF && IndexOf(front, front[i]) == i
    {
      var j := IndexOf(front, front[i]);
      if i > 0 && j > 0 {
        assert rest[i - 1] == rest[j - 1];
      }
    }
  }

  /** Moving the buffer just released to the front keeps the list sorted by release time. */
  lemma MoveToFront(order: seq<nat>, stamp: seq<nat>, k: nat, clock: nat, front: seq<nat>)
    requires |stamp| == NBUF && Buffers(order) && MostRecentFirst(order, stamp) && k < |order|
    requires forall i :: 0 <= i < NBUF ==> stamp[i] < clock
    requires front == [order[k]] + Without(order, k) && Buffers(front)
    ensures order[k] < NBUF && MostRecentFirst(front, stamp[order[k] := clock])
  {
    DistinctWithout(order, k);
    assert order[k] < NBUF;
    var stamp' := stamp[order[k] := clock];
    forall a, b | 0 <= a < b < |front|
      ensures stamp'[front[a]] > stamp'[front[b]]
    {
      FrontAt(order, k, front, b);
      if a > 0 {
        FrontAt(order, k, front, a);
      }
    }
  }

  lemma FrontAt(order: seq<nat>, k: nat, front: seq<nat>, b: nat)
    requires Buffers(order) && k < |order| && front == [order[k]] + Without(order, k) && 0 < b < |front|
    ensures var c := if b - 1 < k then b - 1 else b; front[b] == order[c] && order[c] != order[k]
  {
    DistinctWithout(order, k);
    assert front[b] == Without(order, k)[b - 1];
  }

  lemma ReorderCore(s: State, t: State)
    requires Core(s) && t == s.(order := t.order, stamp := t.stamp, clock := t.clock)
    requires |t.stamp| == |t.order| == NBUF && Buffers(t.order) && forall b :: 0 <= b < NBUF ==> b in t.order
    ensures Core(t)
  {
    assert forall key :: InBuffer(t, key) <==> InBuffer(s, key);
    assert forall j :: 0 <= j < NBUF && s.tags[j].dev != 0 && BufferOk(s, j) ==> BufferOk(t, j);
  }

  lemma DropOrder(s: State, i: nat, s': State)
    requires Inv(s) && Enabled(s, Drop(i)) && s' == Next(s, Drop(i))
    ensures |s'.order| == NBUF && Buffers(s'.order) && (forall b :: 0 <= b < NBUF ==> b in s'.order)
    ensures RecencyInv(s')
  {
    var k := IndexOf(s.order, i);
    AllIn(s.order, k);
    DistinctWithout(s.order, k);
    FrontDistinct(s.order, k);
    if s'.tags[i].refcnt == 0 {
      MoveToFront(s.order, s.stamp, k, s.clock, s'.order);
    }
  }

  lemma DropCore(s: State, i: nat, s': State)
    requires Core(s) && Enabled(s, Drop(i)) && s' == Next(s, Drop(i))
    requires |s'.order| == NBUF && Buffers(s'.order) && (forall b :: 0 <= b < NBUF ==> b in s'.order)
    ensures Core(s')
  {
    var t := s.(order := s'.order, stamp := s'.stamp, clock := s'.clock);
    ReorderCore(s, t);
    assert Refs(s'.uses[i]) == Refs(s.uses[i]) - 1;
    KeepCounters(t, s', i);
  }

  lemma KeepDrop(s: State, i: nat, s': State)
    requires Inv(s) && Enabled(s, Drop(i)) && s' == Next(s, Drop(i))
    ensures Inv(s')
  {
    DropOrder(s, i, s');
    DropCore(s, i, s');
  }

  lemma KeepGet(s: State, key: Key, r: nat, s': State)
    requires Core(s) && Enabled(s, Get(key, r)) && s' == Next(s, Get(key, r))
    ensures Core(s')
  {
    if Hit(s.tags[r], key.0, key.1) {
      KeepCounters(s, s', r);
    } else {
      KeepMiss(s, key, r, s');
    }
  }

  lemma KeepLock(s: State, i: nat, s': State)
    requires Core(s) && Enabled(s, Lock(i)) && s' == Next(s, Lock(i))
    ensures Core(s')
  {
    KeepCounters(s, s', i);
  }

  lemma KeepPins(s: State, a: Action, i: nat, s': State)
    requires Core(s) && (a == Pin(i) || a == Unpin(i)) && Enabled(s, a) && s' == Next(s, a)
    ensures Core(s')
  {
    KeepCounters(s, s', i);
  }

  lemma KeepUnlock(s: State, i: nat, s': State)
    requires Core(s) && Enabled(s, Unlock(i)) && s' == Next(s, Unlock(i))
    ensures Core(s')
  {
    KeepCounters(s, s', i);
  }

  lemma KeepStore(s: State, i: nat, data: Contents, s': State)
    requires Core(s) && Enabled(s, Store(i, data)) && s' == Next(s, Store(i, data))
    ensures Core(s')
  {
    assert s.tags[i].dev != 0 && BufferOk(s, i);
    KeepTransfer(s, i, s');
  }

  lemma KeepWrite(s: State, i: nat, s': State)
    requires Core(s) && Enabled(s, Write(i)) && s' == Next(s, Write(i))
    ensures Core(s')
  {
    assert s.tags[i].dev != 0 && BufferOk(s, i);
    KeepTransfer(s, i, s');
  }

  lemma Keep(s: State, a: Action)
    requires Inv(s) && Enabled(s, a)
    ensures Inv(Next(s, a))
  {
    var s' := Next(s, a);
    match a
    case Get(key, r) => KeepGet(s, key, r, s');
    case Lock(i) => KeepLock(s, i, s');
    case Fill(i) => KeepFill(s, i, s');
    case Store(i, data) => KeepStore(s, i, data, s');
    case Write(i) => KeepWrite(s, i, s');
    case Pin(i) => KeepPins(s, a, i, s');
    case Unpin(i) => KeepPins(s, a, i, s');
    case Unlock(i) => KeepUnlock(s, i, s');
    case Drop(i) => KeepDrop(s, i, s');
  }

  lemma InitInv(s: State)
    requires Init(s)
    ensures Inv(s)
  {
    forall b | 0 <= b < NBUF
      ensures b in s.order
    {
      assert s.order[NBUF - 1 - b] == b;
    }
    forall i | 0 <= i < NBUF
      ensures IndexOf(s.order, s.order[i]) == i
    {
      assert s.order[IndexOf(s.order, s.order[i])] == s.order[i];
    }
    assert forall key :: key in s.disk ==> s.disk[key] == s.stored[key];
  }

  lemma {:induction false} Always(ss: seq<State>, acts: seq<Action>, n: nat)
    requires IsBehaviour(ss, acts) && n < |ss|
    ensures Inv(ss[n])
  {
    if n == 0 {
      InitInv(ss[0]);
    } else {
      Always(ss, acts, n - 1);
      assert ss[(n - 1) + 1] == Next(ss[n - 1], acts[n - 1]);
      Keep(ss[n - 1], acts[n - 1]);
    }
  }

  // ----- Theorems -----

  /** The cache refines a plain block store: whoever holds a read buffer sees the last value
      stored in its block, whatever was evicted and read back in between. */
  lemma ReadsSeeLastStore(ss: seq<State>, acts: seq<Action>, n: nat, i: nat)
    requires IsBehaviour(ss, acts) && n < |ss| && Holding(ss[n], i) && ss[n].tags[i].valid
    ensures var key := KeyOf(ss[n].tags[i]); key in ss[n].stored && ss[n].uses[i].data == ss[n].stored[key]
  {
    Always(ss, acts, n);
  }

  /** No step gives a buffer that is held, awaited or pinned to another block. */
  lemma ReferencedNotRecycled(ss: seq<State>, acts: seq<Action>, n: nat, i: nat)
    requires IsBehaviour(ss, acts) && n < |acts| && i < NBUF
    ensures |ss[n].tags| == |ss[n].uses| == |ss[n + 1].tags| == NBUF
    ensures ss[n].tags[i].refcnt == Refs(ss[n].uses[i])
    ensures Refs(ss[n].uses[i]) > 0 ==> KeyOf(ss[n + 1].tags[i]) == KeyOf(ss[n].tags[i])
  {
    Always(ss, acts, n);
    assert Enabled(ss[n], acts[n]) && ss[n + 1] == Next(ss[n], acts[n]);
  }

  /** bget recycles, among the unreferenced buffers, the one released longest ago. */
  lemma RecyclesLeastRecent(ss: seq<State>, acts: seq<Action>, n: nat, key: Key, r: nat, b: nat)
    requires IsBehaviour(ss, acts) && n < |acts| && acts[n] == Get(key, r)
    requires r < NBUF && |ss[n].tags| == |ss[n].stamp| == NBUF && !Hit(ss[n].tags[r], key.0, key.1)
    requires b < NBUF && b != r && ss[n].tags[b].refcnt == 0
    ensures ss[n].stamp[r] < ss[n].stamp[b]
  {
    Always(ss, acts, n);
    var s := ss[n];
    assert Enabled(s, acts[n]);
    assert LeastRecent(s.order, s.tags, r);
    var i, j := IndexOf(s.order, b), IndexOf(s.order, r);
    assert s.stamp[s.order[i]] > s.stamp[s.order[j]];
  }

  /** In every state a block of a real device is in at most one buffer. */
  lemma AtMostOneBuffer(ss: seq<State>, acts: seq<Action>, n: nat, i: nat, j: nat)
    requires IsBehaviour(ss, acts) && n < |ss| && i < NBUF && j < NBUF && |ss[n].tags| == NBUF
    requires ss[n].tags[i].dev != 0 && KeyOf(ss[n].tags[i]) == KeyOf(ss[n].tags[j])
    ensures i == j
  {
    Always(ss, acts, n);
  }
}
