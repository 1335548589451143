/** The virtio disk driver (kernel/virtio_disk.c) and a device that serves its requests in any
    order (split virtqueues and block device of OASIS VIRTIO 1.1, sections 2.6 and 5.2). A call
    of virtio_disk_rw is Submit, from its start to the first sleep, and Finish, after the last;
    each runs under vdisk_lock, as does the interrupt handler. */
module VirtioRing {
  import opened Sequences
  import opened Counting

  const NUM: nat := 8
  const U16: nat := 0x1_0000
  const U32: nat := 0x1_0000_0000
  const BSIZE: nat := 1024
  const SECTOR_SIZE: nat := 512
  const NOBUF: int := -1
  const NOONE: nat := NUM

  /** What a descriptor points to: the request header, the data of buffer b, or info[h].status. */
  datatype Addr = Nil | Header(write: bool, sector: nat) | Data(b: nat) | Status(h: nat)

  /** next and write are the flags VRING_DESC_F_NEXT and VRING_DESC_F_WRITE. */
  datatype Desc = Desc(addr: Addr, len: nat, next: bool, write: bool, to: nat)

  /** A request: what is asked for, and the descriptors behind its head. */
  datatype Req = Req(b: nat, write: bool, sector: nat, second: nat, third: nat)

  /** Where a request is: offered in avail, taken by the device, reported in used, or reported to
      the process that waits for it. */
  datatype Stage = Offered | Working | Reported | Acked

  /** The requests by head, and what the two rings hold that the other side has not seen yet. */
  datatype Ghost = Ghost(reqs: map<nat, Req>, stage: map<nat, Stage>, owner: seq<nat>,
                         offered: seq<nat>, reported: seq<nat>, taken: nat, seen: nat)

  /** b->blockno * (BSIZE / 512), in 32 bits. */
  function Sector(blockno: nat): nat { blockno * (BSIZE / SECTOR_SIZE) % U32 }

  /** Where on the disk, in bytes, the device looks for that sector. */
  function DiskOffset(blockno: nat): nat { Sector(blockno) * SECTOR_SIZE }

  /** A block is where the file system expects it, unless its sector number does not fit in 32 bits. */
  lemma BlockPlace(blockno: nat)
    requires blockno < U32
    ensures DiskOffset(blockno) == BSIZE * blockno <==> blockno < U32 / 2
    ensures DiskOffset(blockno) == BSIZE * (blockno % (U32 / 2))
  {
    if blockno < U32 / 2 {
      assert Sector(blockno) == 2 * blockno;
    } else {
      assert Sector(blockno) == 2 * blockno - U32 && blockno % (U32 / 2) == blockno - U32 / 2;
    }
    hide Sector;
  }

  /** The BSIZE bytes of two blocks overlap exactly if 31 bits do not tell their numbers apart. */
  lemma BlocksApart(b: nat, c: nat)
    requires b < U32 && c < U32
    ensures DiskOffset(b) + BSIZE <= DiskOffset(c) || DiskOffset(c) + BSIZE <= DiskOffset(b) <==>
              b % (U32 / 2) != c % (U32 / 2)
  {
    BlockPlace(b);
    BlockPlace(c);
    hide DiskOffset;
  }

  // ----- The invariant -----

  /** The three descriptors of a request as the device reads them. */
  ghost predicate Chain(desc: seq<Desc>, h: nat, r: Req)
    requires |desc| == NUM
  {
    && h < NUM && r.second < NUM && r.third < NUM
    && desc[h] == Desc(Header(r.write, r.sector), 16, true, false, r.second)
    && desc[r.second] == Desc(Data(r.b), BSIZE, true, !r.write, r.third)
    && desc[r.third].addr == Status(h) && !desc[r.third].next && desc[r.third].write
  }

  ghost predicate Owns(g: Ghost, h: nat)
    requires |g.owner| == NUM && h in g.reqs
  {
    var r := g.reqs[h];
    && h < NUM && r.second < NUM && r.third < NUM && h != r.second && h != r.third && r.second != r.third
    && g.owner[h] == h && g.owner[r.second] == h && g.owner[r.third] == h
  }

  /** A descriptor is free or belongs to the one request it is chained into. */
  ghost predicate Placed(free: seq<bool>, g: Ghost, i: nat)
    requires |free| == |g.owner| == NUM && i < NUM
  {
    if free[i] then g.owner[i] == NOONE
    else g.owner[i] in g.reqs && var r := g.reqs[g.owner[i]]; i in {g.owner[i], r.second, r.third}
  }

  ghost predicate DescInv(free: seq<bool>, desc: seq<Desc>, g: Ghost) {
    && |free| == |desc| == |g.owner| == NUM && g.stage.Keys == g.reqs.Keys
    && (forall h {:trigger Owns(g, h)} :: h in g.reqs ==> Owns(g, h) && Chain(desc, h, g.reqs[h]))
    && (forall i {:trigger Placed(free, g, i)} :: 0 <= i < NUM ==> Placed(free, g, i))
  }

  /** info[h].b is the buffer of the request, and b->disk says whether the device has it. */
  ghost predicate InfoInv(info: seq<int>, busy: set<nat>, g: Ghost) {
    && |info| == NUM && g.stage.Keys == g.reqs.Keys
    && (forall h :: h in g.reqs ==> h < NUM && info[h] == g.reqs[h].b && (g.stage[h] != Acked ==> g.reqs[h].b in busy))
    && (forall h :: 0 <= h < NUM && h !in g.reqs ==> info[h] == NOBUF)
    && (forall h, k :: h in g.reqs && k in g.reqs && g.reqs[h].b == g.reqs[k].b ==> h == k)
  }

  /** What one side has put on a ring and the other has not yet taken off it. */
  ghost predicate OnRing(ring: seq<nat>, from: nat, queue: seq<nat>) {
    |ring| == NUM && |queue| <= NUM && forall j {:trigger queue[j]} :: 0 <= j < |queue| ==>
        ring[(from + j) % NUM] == queue[j]
  }

  ghost predicate AtStage(g: Ghost, queue: seq<nat>, st: Stage) {
    && Distinct(queue) && (forall j :: 0 <= j < |queue| ==> queue[j] in g.stage && g.stage[queue[j]] == st)
    && forall h :: h in g.stage && g.stage[h] == st ==> h in queue
  }

  ghost predicate AvailInv(ring: seq<nat>, availIdx: nat, devIdx: nat, g: Ghost) {
    && OnRing(ring, g.taken, g.offered) && AtStage(g, g.offered, Offered)
    && availIdx == (g.taken + |g.offered|) % U16 && devIdx == g.taken % U16
  }

  ghost predicate UsedInv(elems: seq<nat>, usedIdx: nat, usedId: nat, g: Ghost) {
    && OnRing(elems, g.seen, g.reported) && AtStage(g, g.reported, Reported)
    && usedIdx == g.seen % NUM && usedId == (g.seen + |g.reported|) % U16
  }

  /** The requests that the device has in hand. */
  ghost predicate WorkInv(working: set<nat>, g: Ghost) {
    forall h :: h in working <==> h in g.stage && g.stage[h] == Working
  }

  // ----- At most two requests -----

  ghost function Descs(g: Ghost, hs: set<nat>): set<nat>
    requires |g.owner| == NUM
  {
    set i | 0 <= i < NUM && g.owner[i] in hs
  }

  lemma Mine(g: Ghost, hs: set<nat>, h: nat)
    requires |g.owner| == NUM && h in hs && h in g.reqs && Owns(g, h)
    ensures |Descs(g, hs)| >= |Descs(g, hs - {h})| + 3
  {
    var mine := {h, g.reqs[h].second, g.reqs[h].third};
    var rest, all := Descs(g, hs - {h}), Descs(g, hs);
    assert mine <= all && rest <= all && mine !! rest;
    Smaller(rest + mine, all);
  }

  lemma {:induction false} ThreeEach(g: Ghost, hs: set<nat>)
    requires |g.owner| == NUM && hs <= g.reqs.Keys && forall h {:trigger Owns(g, h)} :: h in g.reqs ==> Owns(g, h)
    ensures |Descs(g, hs)| >= 3 * |hs|
    decreases |hs|
  {
    hide Owns, Descs;
    if hs != {} {
      var h :| h in hs;
      ThreeEach(g, hs - {h});
      assert Owns(g, h);
      Mine(g, hs, h);
    }
  }

  lemma AtMostTwo(free: seq<bool>, desc: seq<Desc>, g: Ghost)
    requires DescInv(free, desc, g)
    ensures |g.reqs.Keys| <= 2
  {
    ThreeEach(g, g.reqs.Keys);
    TotalDescs(g, NUM);
  }

  lemma TotalDescs(g: Ghost, n: nat)
    requires n == NUM == |g.owner|
    ensures |Descs(g, g.reqs.Keys)| <= n
  {
    Smaller(Descs(g, g.reqs.Keys), Interval(0, n));
  }

  /** Both queues together hold at most as many requests as there are. */
  lemma ShortQueue(g: Ghost, queue: seq<nat>, st: Stage)
    requires AtStage(g, queue, st) && g.stage.Keys == g.reqs.Keys
    ensures |queue| <= |g.reqs.Keys|
  {
    CountedAll(queue);
    assert forall x :: x in queue ==> x in g.stage by {
      forall x | x in queue ensures x in g.stage {
        assert queue[IndexOf(queue, x)] == x;
      }
    }
    Smaller((set x: nat | x in queue), g.reqs.Keys);
  }

  // ----- The rings -----

  lemma SlotsDiffer(from: nat, j: nat, n: nat)
    requires j < n < NUM
    ensures (from + j) % NUM != (from + n) % NUM
  {
  }

  /** The counters count modulo 2^16, the slots modulo NUM; the two agree. */
  lemma Wraps(x: nat)
    ensures (x % U16) % NUM == x % NUM
  {
    var q := x / U16;
    assert x == (q * 8192) * NUM + x % U16;
  }

  lemma Counts(x: nat, n: nat)
    requires n in {NUM, U16}
    ensures (x % n + 1) % n == (x + 1) % n
  {
  }

  lemma RingPut(ring: seq<nat>, from: nat, queue: seq<nat>, x: nat)
    requires OnRing(ring, from, queue) && |queue| < NUM
    ensures OnRing(ring[(from + |queue|) % NUM := x], from, queue + [x])
  {
    var ring', queue' := ring[(from + |queue|) % NUM := x], queue + [x];
    forall j {:trigger queue'[j]} | 0 <= j < |queue'| ensures ring'[(from + j) % NUM] == queue'[j] {
      if j < |queue| {
        SlotsDiffer(from, j, |queue|);
        assert queue'[j] == queue[j];
      }
    }
  }

  lemma RingTake(ring: seq<nat>, from: nat, queue: seq<nat>)
    requires OnRing(ring, from, queue) && queue != []
    ensures ring[from % NUM] == queue[0] && OnRing(ring, from + 1, queue[1..])
  {
    assert ring[(from + 0) % NUM] == queue[0];
    forall j {:trigger queue[1..][j]} | 0 <= j < |queue| - 1 ensures ring[(from + 1 + j) % NUM] == queue[1..][j] {
      assert queue[1..][j] == queue[j + 1];
      assert from + 1 + j == from + (j + 1);
    }
  }

  /** Few enough entries that a counter modulo n tells an empty ring. */
  lemma EmptyTest(from: nat, len: nat, n: nat)
    requires len < NUM && n in {NUM, U16}
    ensures from % n == (from + len) % n <==> len == 0
  {
  }

  lemma StagePut(g: Ghost, queue: seq<nat>, st: Stage, x: nat, g': Ghost)
    requires AtStage(g, queue, st) && g'.stage == g.stage[x := st] && (x in g.stage ==> g.stage[x] != st)
    ensures AtStage(g', queue + [x], st)
  {
    var queue' := queue + [x];
    assert x !in queue;
    forall i | 0 <= i < |queue'| ensures IndexOf(queue', queue'[i]) == i {
      var j := IndexOf(queue', queue'[i]);
      if i < |queue| && j < |queue| { assert IndexOf(queue, queue[i]) == i && IndexOf(queue, queue[j]) == j; }
    }
    forall h | h in g'.stage && g'.stage[h] == st ensures h in queue' {
      if h == x { assert queue'[|queue|] == x; } else { assert queue'[IndexOf(queue, h)] == h; }
    }
  }

  lemma StageTake(g: Ghost, queue: seq<nat>, st: Stage, st': Stage, g': Ghost)
    requires AtStage(g, queue, st) && queue != [] && st' != st && g'.stage == g.stage[queue[0] := st']
    ensures queue[0] in g.stage && g.stage[queue[0]] == st && AtStage(g', queue[1..], st)
  {
    var queue' := queue[1..];
    forall i | 0 <= i < |queue'| ensures IndexOf(queue', queue'[i]) == i && queue'[i] != queue[0] {
      var j := IndexOf(queue', queue'[i]);
      assert IndexOf(queue, queue[i + 1]) == i + 1 && IndexOf(queue, queue[j + 1]) == j + 1
          && IndexOf(queue, queue[0]) == 0;
    }
    forall h | h in g'.stage && g'.stage[h] == st ensures h in queue' {
      assert queue[IndexOf(queue, h)] == h;
      assert queue'[IndexOf(queue, h) - 1] == h;
    }
  }

  /** A step of a request between two other stages. */
  lemma StageOther(g: Ghost, queue: seq<nat>, st: Stage, h: nat, g': Ghost)
    requires AtStage(g, queue, st) && (h in g.stage ==> g.stage[h] != st)
    requires g'.stage == g.stage - {h} || (h in g'.stage && g'.stage == g.stage[h := g'.stage[h]] && g'.stage[h] != st)
    ensures AtStage(g', queue, st)
  {
    assert h !in queue;
  }

  // ----- Requests come and go -----

  ghost function Added(g: Ghost, h: nat, r: Req): Ghost
    requires |g.owner| == NUM && h < NUM && r.second < NUM && r.third < NUM
  {
    g.(reqs := g.reqs[h := r], stage := g.stage[h := Offered],
       owner := g.owner[h := h][r.second := h][r.third := h], offered := g.offered + [h])
  }

  ghost function Gone(g: Ghost, h: nat): Ghost
    requires |g.owner| == NUM && h in g.reqs && Owns(g, h)
  {
    var r := g.reqs[h];
    g.(reqs := g.reqs - {h}, stage := g.stage - {h},
       owner := g.owner[h := NOONE][r.second := NOONE][r.third := NOONE])
  }

  function Marked(free: seq<bool>, i: nat, j: nat, k: nat, v: bool): seq<bool>
    requires i < |free| && j < |free| && k < |free|
  {
    free[i := v][j := v][k := v]
  }

  /** A request owns none of the free descriptors. */
  lemma NotFree(free: seq<bool>, desc: seq<Desc>, g: Ghost, h: nat)
    requires DescInv(free, desc, g) && h in g.reqs
    ensures var r := g.reqs[h]; Owns(g, h) && !free[h] && !free[r.second] && !free[r.third]
  {
    assert Owns(g, h);
    var r := g.reqs[h];
    assert Placed(free, g, h) && Placed(free, g, r.second) && Placed(free, g, r.third);
  }

  lemma AddDesc(free: seq<bool>, desc: seq<Desc>, g: Ghost, h: nat, r: Req, desc': seq<Desc>, free': seq<bool>)
    requires DescInv(free, desc, g) && h < NUM && r.second < NUM && r.third < NUM
    requires h != r.second && h != r.third && r.second != r.third && free[h] && free[r.second] && free[r.third]
    requires |desc'| == NUM && forall i :: 0 <= i < NUM && i !in {h, r.second, r.third} ==> desc'[i] == desc[i]
    requires Chain(desc', h, r) && free' == Marked(free, h, r.second, r.third, false)
    ensures h !in g.reqs && DescInv(free', desc', Added(g, h, r))
  {
    var g' := Added(g, h, r);
    assert Placed(free, g, h) && Placed(free, g, r.second) && Placed(free, g, r.third);
    if h in g.reqs { NotFree(free, desc, g, h); assert false; }
    forall k {:trigger Owns(g', k)} | k in g'.reqs ensures Owns(g', k) && Chain(desc', k, g'.reqs[k]) {
      if k != h {
        assert Owns(g, k) && Chain(desc, k, g.reqs[k]);
        NotFree(free, desc, g, k);
      }
    }
    forall i {:trigger Placed(free', g', i)} | 0 <= i < NUM ensures Placed(free', g', i) {
      assert Placed(free, g, i);
    }
  }

  lemma GoneDesc(free: seq<bool>, desc: seq<Desc>, g: Ghost, h: nat, desc': seq<Desc>, free': seq<bool>)
    requires DescInv(free, desc, g) && h in g.reqs && Owns(g, h)
    requires var r := g.reqs[h];
             && |desc'| == NUM && (forall i :: 0 <= i < NUM && i !in {h, r.second, r.third} ==> desc'[i] == desc[i])
             && free' == Marked(free, h, r.second, r.third, true)
    ensures DescInv(free', desc', Gone(g, h))
  {
    var g', r := Gone(g, h), g.reqs[h];
    forall k {:trigger Owns(g', k)} | k in g'.reqs ensures Owns(g', k) && Chain(desc', k, g'.reqs[k]) {
      assert Owns(g, k) && Chain(desc, k, g.reqs[k]);
    }
    forall i {:trigger Placed(free', g', i)} | 0 <= i < NUM ensures Placed(free', g', i) {
      assert Placed(free, g, i);
    }
  }

  /** Steps that move requests along leave the descriptors alone. */
  lemma SameDesc(free: seq<bool>, desc: seq<Desc>, g: Ghost, g': Ghost)
    requires DescInv(free, desc, g) && g'.reqs == g.reqs && g'.owner == g.owner && g'.stage.Keys == g.stage.Keys
    ensures DescInv(free, desc, g')
  {
    forall k {:trigger Owns(g', k)} | k in g'.reqs ensures Owns(g', k) && Chain(desc, k, g'.reqs[k]) {
      assert Owns(g, k);
    }
    forall i {:trigger Placed(free, g', i)} | 0 <= i < NUM ensures Placed(free, g', i) {
      assert Placed(free, g, i);
    }
  }

  // ----- What each step does to the other parts -----

  lemma AddInfo(info: seq<int>, busy: set<nat>, g: Ghost, h: nat, r: Req)
    requires InfoInv(info, busy, g) && |g.owner| == NUM && h < NUM && h !in g.reqs && r.second < NUM && r.third < NUM
    requires forall k :: k in g.reqs ==> g.reqs[k].b != r.b
    ensures InfoInv(info[h := r.b], busy + {r.b}, Added(g, h, r))
  {
  }

  lemma AddRings(ring: seq<nat>, availIdx: nat, devIdx: nat, elems: seq<nat>, usedIdx: nat, usedId: nat, g: Ghost,
                 h: nat, r: Req)
    requires AvailInv(ring, availIdx, devIdx, g) && UsedInv(elems, usedIdx, usedId, g) && h !in g.stage
    requires |g.offered| < NUM
    requires |g.owner| == NUM && h < NUM && r.second < NUM && r.third < NUM
    ensures AvailInv(ring[availIdx % NUM := h], (availIdx + 1) % U16, devIdx, Added(g, h, r))
    ensures UsedInv(elems, usedIdx, usedId, Added(g, h, r))
  {
    hide OnRing, AtStage;
    var g' := Added(g, h, r);
    var n := g.taken + |g.offered|;
    Wraps(n);
    Counts(n, U16);
    RingPut(ring, g.taken, g.offered, h);
    StagePut(g, g.offered, Offered, h, g');
    StageOther(g, g.reported, Reported, h, g');
  }

  /** The device takes the next request off the avail ring. */
  ghost function Fetched(g: Ghost): Ghost
    requires g.offered != []
  {
    g.(stage := g.stage[g.offered[0] := Working], offered := g.offered[1..], taken := g.taken + 1)
  }

  /** The device reports request h. */
  ghost function Served(g: Ghost, h: nat): Ghost {
    g.(stage := g.stage[h := Reported], reported := g.reported + [h])
  }

  /** The interrupt handler sees the next report. */
  ghost function Noted(g: Ghost): Ghost
    requires g.reported != []
  {
    g.(stage := g.stage[g.reported[0] := Acked], reported := g.reported[1..], seen := g.seen + 1)
  }

  lemma FetchRings(ring: seq<nat>, availIdx: nat, devIdx: nat, elems: seq<nat>, usedIdx: nat, usedId: nat, g: Ghost)
    requires AvailInv(ring, availIdx, devIdx, g) && UsedInv(elems, usedIdx, usedId, g) && g.offered != []
    ensures ring[devIdx % NUM] == g.offered[0]
    ensures AvailInv(ring, availIdx, (devIdx + 1) % U16, Fetched(g)) && UsedInv(elems, usedIdx, usedId, Fetched(g))
  {
    hide OnRing, AtStage;
    Wraps(g.taken);
    Counts(g.taken, U16);
    RingTake(ring, g.taken, g.offered);
    StageTake(g, g.offered, Offered, Working, Fetched(g));
    StageOther(g, g.reported, Reported, g.offered[0], Fetched(g));
  }

  lemma ServeRings(ring: seq<nat>, availIdx: nat, devIdx: nat, elems: seq<nat>, usedIdx: nat, usedId: nat, g: Ghost,
                   h: nat)
    requires AvailInv(ring, availIdx, devIdx, g) && UsedInv(elems, usedIdx, usedId, g)
    requires h in g.stage && g.stage[h] == Working && |g.reported| < NUM
    ensures AvailInv(ring, availIdx, devIdx, Served(g, h))
    ensures UsedInv(elems[usedId % NUM := h], usedIdx, (usedId + 1) % U16, Served(g, h))
  {
    hide OnRing, AtStage;
    var n := g.seen + |g.reported|;
    Wraps(n);
    Counts(n, U16);
    RingPut(elems, g.seen, g.reported, h);
    StagePut(g, g.reported, Reported, h, Served(g, h));
    StageOther(g, g.offered, Offered, h, Served(g, h));
  }

  lemma NoteRings(ring: seq<nat>, availIdx: nat, devIdx: nat, elems: seq<nat>, usedIdx: nat, usedId: nat, g: Ghost)
    requires AvailInv(ring, availIdx, devIdx, g) && UsedInv(elems, usedIdx, usedId, g) && g.reported != []
    ensures usedIdx < NUM && elems[usedIdx] == g.reported[0]
    ensures AvailInv(ring, availIdx, devIdx, Noted(g))
    ensures UsedInv(elems, (usedIdx + 1) % NUM, usedId, Noted(g))
  {
    hide OnRing, AtStage;
    Counts(g.seen, NUM);
    RingTake(elems, g.seen, g.reported);
    StageTake(g, g.reported, Reported, Acked, Noted(g));
    StageOther(g, g.offered, Offered, g.reported[0], Noted(g));
  }

  lemma GoneRings(ring: seq<nat>, availIdx: nat, devIdx: nat, elems: seq<nat>, usedIdx: nat, usedId: nat, g: Ghost,
                  h: nat)
    requires AvailInv(ring, availIdx, devIdx, g) && UsedInv(elems, usedIdx, usedId, g)
    requires |g.owner| == NUM && h in g.reqs && Owns(g, h) && h in g.stage && g.stage[h] == Acked
    ensures AvailInv(ring, availIdx, devIdx, Gone(g, h)) && UsedInv(elems, usedIdx, usedId, Gone(g, h))
  {
    hide OnRing, AtStage;
    StageOther(g, g.reported, Reported, h, Gone(g, h));
    StageOther(g, g.offered, Offered, h, Gone(g, h));
  }

  /** A request moves to another stage that the device still has, or is done. */
  lemma SameInfo(info: seq<int>, busy: set<nat>, g: Ghost, g': Ghost)
    requires InfoInv(info, busy, g) && g'.reqs == g.reqs && g'.stage.Keys == g.stage.Keys
    requires forall h :: h in g.stage && g.stage[h] == Acked ==> g'.stage[h] == Acked
    ensures InfoInv(info, busy, g')
  {
  }

  lemma NoteInfo(info: seq<int>, busy: set<nat>, g: Ghost, h: nat)
    requires InfoInv(info, busy, g) && g.reported != [] && h == g.reported[0] && h in g.stage && g.stage[h] == Reported
    ensures h < NUM && info[h] == g.reqs[h].b && g.reqs[h].b in busy
    ensures InfoInv(info, busy - {g.reqs[h].b}, Noted(g))
  {
  }

  lemma GoneInfo(info: seq<int>, busy: set<nat>, g: Ghost, h: nat)
    requires InfoInv(info, busy, g) && |g.owner| == NUM && h in g.reqs && Owns(g, h)
    ensures InfoInv(info[h := NOBUF], busy, Gone(g, h))
  {
  }

  lemma KeptDesc(free: seq<bool>, desc: seq<Desc>, g: Ghost, desc': seq<Desc>)
    requires DescInv(free, desc, g) && |desc'| == NUM && forall k :: 0 <= k < NUM && !free[k] ==> desc'[k] == desc[k]
    ensures DescInv(free, desc', g)
  {
    forall k {:trigger Owns(g, k)} | k in g.reqs ensures Owns(g, k) && Chain(desc', k, g.reqs[k]) {
      assert Owns(g, k);
      NotFree(free, desc, g, k);
    }
  }

  // ----- Facts the driver relies on -----

  lemma Few(free: seq<bool>, desc: seq<Desc>, queue: seq<nat>, st: Stage, g: Ghost)
    requires DescInv(free, desc, g) && AtStage(g, queue, st)
    ensures |queue| <= 2
  {
    AtMostTwo(free, desc, g);
    ShortQueue(g, queue, st);
  }

  /** The device's test: something is offered exactly when the counters differ. */
  lemma OfferedTest(free: seq<bool>, desc: seq<Desc>, ring: seq<nat>, availIdx: nat, devIdx: nat, g: Ghost)
    requires DescInv(free, desc, g) && AvailInv(ring, availIdx, devIdx, g)
    ensures g.offered != [] <==> devIdx != availIdx
    ensures |ring| == NUM && |g.offered| < NUM
    ensures g.offered != [] ==> g.offered[0] in g.stage && g.stage[g.offered[0]] == Offered
  {
    Few(free, desc, g.offered, Offered, g);
    EmptyTest(g.taken, |g.offered|, U16);
  }

  /** The handler's test modulo NUM: something is reported exactly when it fails to hold. */
  lemma ReportedTest(free: seq<bool>, desc: seq<Desc>, elems: seq<nat>, usedIdx: nat, usedId: nat, g: Ghost)
    requires DescInv(free, desc, g) && UsedInv(elems, usedIdx, usedId, g)
    ensures g.reported != [] <==> usedIdx % NUM != usedId % NUM
    ensures |elems| == NUM && |g.reported| < NUM
    ensures g.reported != [] ==> g.reported[0] in g.stage && g.stage[g.reported[0]] == Reported
  {
    Few(free, desc, g.reported, Reported, g);
    EmptyTest(g.seen, |g.reported|, NUM);
    Wraps(g.seen + |g.reported|);
  }

  lemma WorkMoves(working: set<nat>, g: Ghost, h: nat, g': Ghost)
    requires WorkInv(working, g)
    requires g'.stage == g.stage - {h} || (h in g'.stage && g'.stage == g.stage[h := g'.stage[h]])
    ensures WorkInv(if h in g'.stage && g'.stage[h] == Working then working + {h} else working - {h}, g')
    ensures h in working <==> h in g.stage && g.stage[h] == Working
  {
  }
}
