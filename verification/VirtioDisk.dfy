/** The driver's state and methods (kernel/virtio_disk.c), with the device's two steps. */
module VirtioDisk {
  import opened VirtioRing

  /** The descriptors of idx are gone from the free ones. */
  ghost predicate Without(free: seq<bool>, idx: seq<nat>, free': seq<bool>) {
    |free| == |free'| == NUM && forall k {:trigger free'[k]} :: 0 <= k < NUM ==> free'[k] == (free[k] && k !in idx)
  }

  /** Descriptors in use keep their contents. */
  ghost predicate InUseSame(free: seq<bool>, desc: seq<Desc>, desc': seq<Desc>) {
    |free| == |desc| == |desc'| == NUM && forall k :: 0 <= k < NUM && !free[k] ==> desc'[k] == desc[k]
  }

  ghost predicate Rising(idx: seq<nat>) {
    (forall x :: 0 <= x < |idx| ==> idx[x] < NUM) && forall x, y :: 0 <= x < y < |idx| ==> idx[x] < idx[y]
  }

  /** At least three descriptors are free. */
  predicate ThreeFree(free: seq<bool>) {
    exists i, j, k :: 0 <= i < j < k < |free| && free[i] && free[j] && free[k]
  }

  lemma FewFree(free: seq<bool>, idx: seq<nat>, free': seq<bool>)
    requires Without(free, idx, free') && |idx| < 3 && forall k :: 0 <= k < NUM ==> !free'[k]
    ensures !ThreeFree(free)
  {
    forall k | 0 <= k < NUM && free[k] ensures k in idx {
      assert !free'[k];
    }
  }

  lemma ThreeMarked(free: seq<bool>, idx: seq<nat>, free': seq<bool>)
    requires Without(free, idx, free') && |idx| == 3 && Rising(idx) && forall x :: 0 <= x < 3 ==> free[idx[x]]
    ensures ThreeFree(free) && free' == Marked(free, idx[0], idx[1], idx[2], false)
  {
    assert idx == [idx[0], idx[1], idx[2]];
  }

  lemma WithoutMore(free: seq<bool>, idx: seq<nat>, free1: seq<bool>, d: nat, free2: seq<bool>)
    requires Without(free, idx, free1) && d < NUM && free2 == free1[d := false]
    ensures Without(free, idx + [d], free2)
  {
  }

  class Driver {
    var free: seq<bool>
    var desc: seq<Desc>
    var info: seq<int>
    var ring: seq<nat>
    var availIdx: nat
    var usedIdx: nat
    var elems: seq<nat>          // the used area, which the device writes
    var usedId: nat
    var devIdx: nat              // how far the device has looked in avail
    var working: set<nat>        // the requests the device has taken and not yet reported
    var busy: set<nat>           // the buffers with b->disk == 1
    ghost var g: Ghost

    ghost predicate Valid()
      reads this
    {
      && DescInv(free, desc, g) && InfoInv(info, busy, g)
      && AvailInv(ring, availIdx, devIdx, g) && UsedInv(elems, usedIdx, usedId, g)
      && WorkInv(working, g)
    }

    constructor ()
      ensures Valid() && g.reqs == map[]
    {
      free, desc, info := seq(NUM, _ => true), seq(NUM, _ => Desc(Nil, 0, false, false, 0)), seq(NUM, _ => NOBUF);
      ring, elems := seq(NUM, _ => 0), seq(NUM, _ => 0);
      availIdx, usedIdx, usedId, devIdx, working, busy := 0, 0, 0, 0, {}, {};
      g := Ghost(map[], map[], seq(NUM, _ => NOONE), [], [], 0, 0);
    }

    method AllocDesc() returns (i: int)
      requires |free| == NUM
      modifies `free
      ensures i < 0 ==> free == old(free) && forall k :: 0 <= k < NUM ==> !free[k]
      ensures i >= 0 ==> i < NUM && old(free)[i] && free == old(free)[i := false] && forall k :: 0 <= k < i ==> !free[k]
    {
      i := 0;
      while i < NUM
        invariant 0 <= i <= NUM && free == old(free) && forall k :: 0 <= k < i ==> !free[k]
      {
        if free[i] {
          free := free[i := false];
          return;
        }
        i := i + 1;
      }
      i := -1;
    }

    method FreeDesc(i: nat)
      requires |free| == |desc| == NUM && i < NUM && !free[i]        // no panic
      modifies `free, `desc
      ensures free == old(free)[i := true] && desc == old(desc)[i := old(desc)[i].(addr := Nil)]
    {
      desc := desc[i := desc[i].(addr := Nil)];
      free := free[i := true];
    }

    /** Three different free descriptors, or nothing if there are fewer. */
    method Alloc3Desc() returns (ok: bool, idx: seq<nat>)
      requires |free| == |desc| == NUM
      modifies `free, `desc
      ensures InUseSame(old(free), old(desc), desc) && (ok <==> ThreeFree(old(free)))
      ensures !ok ==> free == old(free)
      ensures ok ==> |idx| == 3 && Rising(idx) && forall x :: 0 <= x < 3 ==> old(free)[idx[x]]
      ensures ok ==> free == Marked(old(free), idx[0], idx[1], idx[2], false)
    {
      hide ThreeFree;
      idx := [];
      var i := 0;
      while i < 3
        invariant i == |idx| <= 3 && desc == old(desc) && Without(old(free), idx, free) && Rising(idx)
        invariant forall x :: 0 <= x < i ==> old(free)[idx[x]]
        invariant i > 0 ==> forall k :: 0 <= k < idx[i - 1] ==> !free[k]
      {
        ghost var free1 := free;
        var d := AllocDesc();
        if d < 0 {
          FewFree(old(free), idx, free);
          GiveBack(idx, old(free), old(desc));
          return false, idx;
        }
        WithoutMore(old(free), idx, free1, d, free);
        assert i > 0 ==> !free1[idx[i - 1]];
        idx := idx + [d];
        i := i + 1;
      }
      ThreeMarked(old(free), idx, free);
      ok := true;
    }

    /** alloc3_desc's way out: frees what it got. */
    method GiveBack(idx: seq<nat>, ghost free0: seq<bool>, ghost desc0: seq<Desc>)
      requires Without(free0, idx, free) && Rising(idx) && desc == desc0 && |desc| == NUM
      requires forall x :: 0 <= x < |idx| ==> free0[idx[x]]
      modifies `free, `desc
      ensures free == free0 && InUseSame(free0, desc0, desc)
    {
      var j := 0;
      while j < |idx|
        invariant 0 <= j <= |idx| && Without(free0, idx[j..], free) && InUseSame(free0, desc0, desc)
      {
        assert idx[j] in idx[j..];
        ghost var free1 := free;
        FreeDesc(idx[j]);
        forall k {:trigger free[k]} | 0 <= k < NUM ensures free[k] == (free0[k] && k !in idx[j + 1..]) {
          assert free1[k] == (free0[k] && k !in idx[j..]);
          assert idx[j..] == [idx[j]] + idx[j + 1..];
        }
        j := j + 1;
      }
      forall k | 0 <= k < NUM ensures free[k] == free0[k] {
      }
    }

    /** Gives back the three descriptors of a request, following the links. */
    method FreeChain(h: nat, ghost r: Req)
      requires |free| == |desc| == NUM && Chain(desc, h, r)
      requires h != r.second && h != r.third && r.second != r.third && !free[h] && !free[r.second] && !free[r.third]
      modifies `free, `desc
      ensures free == Marked(old(free), h, r.second, r.third, true)
      ensures |desc| == NUM && forall i :: 0 <= i < NUM && i !in {h, r.second, r.third} ==> desc[i] == old(desc)[i]
    {
      var i := h;
      ghost var n := 0;
      while true
        invariant n < 3 && i == (if n == 0 then h else if n == 1 then r.second else r.third) && |desc| == NUM
        invariant free == if n == 0 then old(free) else if n == 1 then old(free)[h := true]
                          else old(free)[h := true][r.second := true]
        invariant forall k :: 0 <= k < NUM && k !in {h, r.second, r.third} ==> desc[k] == old(desc)[k]
        invariant forall k :: 0 <= k < NUM ==> desc[k] == old(desc)[k] || desc[k] == old(desc)[k].(addr := Nil)
        decreases 3 - n
      {
        FreeDesc(i);
        if desc[i].next {
          i := desc[i].to;
          n := n + 1;
        } else {
          break;
        }
      }
    }

    /** Formats the three descriptors of a request. */
    method Format(h: nat, r: Req)
      requires |desc| == NUM && h < r.second < r.third < NUM
      modifies `desc
      ensures |desc| == NUM && Chain(desc, h, r)
      ensures forall i :: 0 <= i < NUM && i !in {h, r.second, r.third} ==> desc[i] == old(desc)[i]
    {
      desc := desc[h := Desc(Header(r.write, r.sector), 16, true, false, r.second)];
      desc := desc[r.second := Desc(Data(r.b), BSIZE, true, !r.write, r.third)];
      desc := desc[r.third := Desc(Status(h), 1, false, true, 0)];
    }

    /** virtio_disk_rw up to its first sleep: the request is in the ring, or there are no
        descriptors for it and nothing changed. (caller: holds the buffer's lock, so no other
        request is for it.) */
    method Submit(b: nat, write: bool, blockno: nat) returns (ok: bool, h: nat)
      requires Valid() && forall k :: k in g.reqs ==> g.reqs[k].b != b
      modifies this
      ensures Valid() && (ok <==> ThreeFree(old(free)))
      ensures !ok ==> g == old(g) && busy == old(busy)
      ensures ok ==> h < NUM && h !in old(g.reqs) && h in g.reqs && g.reqs == old(g.reqs)[h := g.reqs[h]]
      ensures ok ==> g.stage == old(g.stage)[h := Offered] && busy == old(busy) + {b}
      ensures ok ==> g.reqs[h].b == b && g.reqs[h].write == write && g.reqs[h].sector == Sector(blockno)
      ensures ok && blockno < U32 / 2 ==> g.reqs[h].sector * SECTOR_SIZE == BSIZE * blockno
    {
      hide InfoInv, AvailInv, UsedInv, WorkInv, ThreeFree, Placed, Owns, DescInv, Chain;
      var idx;
      Sizes(free, desc, info, busy, g);
      ok, idx := Alloc3Desc();
      KeptDesc(old(free), old(desc), g, desc);
      if !ok {
        return false, 0;
      }
      h := idx[0];
      Offer(h, Req(b, write, Sector(blockno), idx[1], idx[2]), old(free));
    }

    /** Formats the request and puts its head in the avail ring. */
    method Offer(h: nat, r: Req, ghost free0: seq<bool>)
      requires DescInv(free0, desc, g) && InfoInv(info, busy, g) && WorkInv(working, g)
      requires AvailInv(ring, availIdx, devIdx, g) && UsedInv(elems, usedIdx, usedId, g)
      requires |free0| == NUM && h < r.second < r.third < NUM && free0[h] && free0[r.second] && free0[r.third]
      requires free == Marked(free0, h, r.second, r.third, false) && forall k :: k in g.reqs ==> g.reqs[k].b != r.b
      modifies this
      ensures Valid() && h !in old(g.reqs) && |old(g.owner)| == NUM && g == Added(old(g), h, r)
      ensures busy == old(busy) + {r.b}
    {
      hide InfoInv, AvailInv, UsedInv, WorkInv, Placed, Owns, DescInv, Chain;
      OfferedTest(free0, desc, ring, availIdx, devIdx, g);
      Sizes(free0, desc, info, busy, g);
      ghost var desc0 := desc;
      Format(h, r);
      AddDesc(free0, desc0, g, h, r, desc, free);
      AddInfo(info, busy, g, h, r);
      AddRings(ring, availIdx, devIdx, elems, usedIdx, usedId, g, h, r);
      WorkMoves(working, g, h, Added(g, h, r));
      assert working - {h} == working;
      busy := busy + {r.b};
      info := info[h := r.b];
      ring := ring[availIdx % NUM := h];
      availIdx := (availIdx + 1) % U16;
      g := Added(g, h, r);
    }

    /** The device takes the next request that it has been offered. */
    method Fetch() returns (h: nat)
      requires Valid() && devIdx != availIdx
      modifies this
      ensures Valid() && h in old(g.stage) && old(g.stage)[h] == Offered && g.stage == old(g.stage)[h := Working]
      ensures g.reqs == old(g.reqs) && busy == old(busy)
    {
      hide InfoInv, DescInv, AvailInv, UsedInv, WorkInv;
      OfferedTest(free, desc, ring, availIdx, devIdx, g);
      FetchRings(ring, availIdx, devIdx, elems, usedIdx, usedId, g);
      h := ring[devIdx % NUM];
      SameDesc(free, desc, g, Fetched(g));
      SameInfo(info, busy, g, Fetched(g));
      WorkMoves(working, g, h, Fetched(g));
      g := Fetched(g);
      devIdx := (devIdx + 1) % U16;
      working := working + {h};
    }

    /** The device carries out a request it has taken, as its descriptors say, and reports it: it
        moves len bytes between buffer b and the disk, from byte `at` of the disk on. */
    method Serve(h: nat) returns (b: nat, write: bool, at: nat, len: nat)
      requires Valid() && h in working
      modifies this
      ensures Valid() && h in old(g.reqs) && g.reqs == old(g.reqs) && busy == old(busy)
      ensures b == g.reqs[h].b && write == g.reqs[h].write
      ensures at == g.reqs[h].sector * SECTOR_SIZE && len == BSIZE
      ensures g.stage == old(g.stage)[h := Reported]
    {
      hide InfoInv, AvailInv, UsedInv, WorkInv;
      WorkMoves(working, g, h, Served(g, h));
      assert Owns(g, h);
      var first := desc[h];
      var second := desc[first.to];
      write, at, b, len := first.addr.write, first.addr.sector * SECTOR_SIZE, second.addr.b, second.len;
      ReportedTest(free, desc, elems, usedIdx, usedId, g);
      ServeRings(ring, availIdx, devIdx, elems, usedIdx, usedId, g, h);
      SameDesc(free, desc, g, Served(g, h));
      SameInfo(info, busy, g, Served(g, h));
      hide DescInv;
      g := Served(g, h);
      elems := elems[usedId % NUM := h];
      usedId := (usedId + 1) % U16;
      working := working - {h};
    }

    /** One round of the handler's loop: it finds the buffer of the next report, still marked as
        the device's, and unmarks it. */
    method NoteOne() returns (id: nat)
      requires Valid() && usedIdx % NUM != usedId % NUM
      modifies this
      ensures Valid() && old(g.reported) != [] && id == old(g.reported)[0] && g == Noted(old(g))
      ensures id in g.reqs && g.reqs[id].b in old(busy) && busy == old(busy) - {g.reqs[id].b}
      ensures id in old(g.stage) && old(g.stage)[id] == Reported
    {
      hide InfoInv, DescInv, AvailInv, UsedInv, WorkInv;
      ReportedTest(free, desc, elems, usedIdx, usedId, g);
      ReportedStage(elems, usedIdx, usedId, g);
      NoteRings(ring, availIdx, devIdx, elems, usedIdx, usedId, g);
      id := elems[usedIdx];
      Sizes(free, desc, info, busy, g);
      NoteInfo(info, busy, g, id);
      assert info[id] != NOBUF;
      SameDesc(free, desc, g, Noted(g));
      WorkMoves(working, g, id, Noted(g));
      assert working - {id} == working;
      busy := busy - {info[id]};
      usedIdx := (usedIdx + 1) % NUM;
      g := Noted(g);
    }

    /** virtio_disk_intr: every report is seen once, in order, and unmarks its buffer. */
    method Intr() returns (ghost ids: seq<nat>)
      requires Valid()
      modifies this
      ensures Valid() && ids == old(g.reported) && g.reported == [] && g.reqs == old(g.reqs)
      ensures AckedSince(old(g.stage), g.stage, ids)
      ensures busy == old(busy) - Buffers(old(g.reqs), ids)
      ensures forall h :: h in ids ==> h in old(g.reqs) && old(g.reqs)[h].b in old(busy)
      ensures forall h :: h in ids ==> h in old(g.stage) && old(g.stage)[h] == Reported
    {
      hide InfoInv, DescInv, AvailInv, UsedInv, WorkInv, Buffers, AckedSince;
      AckedNone(g.stage);
      ReportedStage(elems, usedIdx, usedId, g);
      ids := [];
      assert Buffers(old(g.reqs), ids) == {} by { NoBuffers(old(g.reqs)); }
      while usedIdx % NUM != usedId % NUM
        invariant Valid() && g.reqs == old(g.reqs) && ids + g.reported == old(g.reported)
        invariant AckedSince(old(g.stage), g.stage, ids)
        invariant busy == old(busy) - Buffers(old(g.reqs), ids)
        invariant forall h :: h in ids ==> h in old(g.reqs) && old(g.reqs)[h].b in old(busy)
        decreases |g.reported|
      {
        ghost var g0 := g;
        assert g0.reported != [] ==>
            g0.reported[0] in g0.stage by { ReportedTest(free, desc, elems, usedIdx, usedId, g); }
        var id := NoteOne();
        MoreBuffers(g.reqs, ids, id);
        AckedMore(old(g.stage), g0.stage, ids, id);
        ids := ids + [id];
      }
      ReportedTest(free, desc, elems, usedIdx, usedId, g);
    }

    /** virtio_disk_rw after its last sleep: the three descriptors are free again. */
    method Finish(h: nat)
      requires Valid() && h in g.reqs && g.reqs[h].b !in busy
      modifies this
      ensures Valid() && h in old(g.stage) && old(g.stage)[h] == Acked && g.reqs == old(g.reqs) - {h}
      ensures g.stage == old(g.stage) - {h} && busy == old(busy)
      ensures var r := old(g.reqs)[h];
              && r.second < NUM && r.third < NUM && h < |old(free)| == NUM
              && free == Marked(old(free), h, r.second, r.third, true)
    {
      Done(info, busy, g, h);
      NotFree(free, desc, g, h);
      hide InfoInv, AvailInv, UsedInv, WorkInv;
      ghost var r := g.reqs[h];
      GoneInfo(info, busy, g, h);
      GoneRings(ring, availIdx, devIdx, elems, usedIdx, usedId, g, h);
      WorkMoves(working, g, h, Gone(g, h));
      assert working - {h} == working;
      info := info[h := NOBUF];
      FreeChain(h, r);
      GoneDesc(old(free), old(desc), g, h, desc, free);
      hide DescInv;
      g := Gone(g, h);
    }
  }

  // ----- Whole runs -----

  /** What can happen next: a request, a step of the device, a round of the interrupt handler's
      loop, all its rounds at once, a process going on. */
  datatype Event = Ask(b: nat, write: bool, blockno: nat) | Take | Complete(h: nat) | Note | Interrupt | Wake(h: nat)

  /** len bytes moved between a buffer and the disk. */
  datatype Transfer = Transfer(b: nat, write: bool, at: nat, len: nat)

  /** The life of a request: what was asked for, what the device did for it, and its first
      descriptor, or RETURNED once the process that asked has gone on. */
  datatype Life = Life(asked: Transfer, moved: seq<Transfer>, head: int)

  const RETURNED: int := -1

  function Wanted(r: Req): Transfer { Transfer(r.b, r.write, r.sector * SECTOR_SIZE, BSIZE) }

  predicate Before(s: Stage) { s == Offered || s == Working }

  /** who numbers the requests in the driver. */
  ghost predicate Current(g: Ghost, lives: seq<Life>, who: map<nat, nat>, h: nat) {
    && h in who && h in g.reqs && h in g.stage && who[h] < |lives|
    && lives[who[h]] == Life(Wanted(g.reqs[h]), if Before(g.stage[h]) then [] else [Wanted(g.reqs[h])], h)
  }

  /** A request in the driver has a number; any other has returned, after exactly the one transfer
      that it asked for. */
  ghost predicate Known(lives: seq<Life>, who: map<nat, nat>, i: nat)
    requires i < |lives|
  {
    if lives[i].head == RETURNED then lives[i].moved == [lives[i].asked]
    else lives[i].head >= 0 && lives[i].head in who && who[lives[i].head] == i
  }

  ghost predicate Tracked(g: Ghost, lives: seq<Life>, who: map<nat, nat>) {
    && who.Keys == g.reqs.Keys == g.stage.Keys
    && (forall h {:trigger Current(g, lives, who, h)} :: h in who ==> Current(g, lives, who, h))
    && (forall i {:trigger Known(lives, who, i)} :: 0 <= i < |lives| ==> Known(lives, who, i))
  }

  lemma TrackAsk(g: Ghost, lives: seq<Life>, who: map<nat, nat>, g': Ghost, h: nat, lives': seq<Life>)
    requires Tracked(g, lives, who) && h !in g.reqs && h in g'.reqs && g'.reqs == g.reqs[h := g'.reqs[h]]
    requires g'.stage == g.stage[h := Offered] && lives' == lives + [Life(Wanted(g'.reqs[h]), [], h)]
    ensures Tracked(g', lives', who[h := |lives|])
  {
    var who' := who[h := |lives|];
    forall k {:trigger Current(g', lives', who', k)} | k in who' ensures Current(g', lives', who', k) {
      assert k != h ==> Current(g, lives, who, k);
    }
    forall i {:trigger Known(lives', who', i)} | 0 <= i < |lives'| ensures Known(lives', who', i) {
      assert i < |lives| ==> Known(lives, who, i);
    }
  }

  /** A step that is nothing new for any request's life. */
  lemma TrackStages(g: Ghost, lives: seq<Life>, who: map<nat, nat>, g': Ghost)
    requires Tracked(g, lives, who) && g'.reqs == g.reqs && g'.stage.Keys == g.stage.Keys
    requires forall h :: h in g.stage ==> (Before(g'.stage[h]) <==> Before(g.stage[h]))
    ensures Tracked(g', lives, who)
  {
    forall h {:trigger Current(g', lives, who, h)} | h in who ensures Current(g', lives, who, h) {
      assert Current(g, lives, who, h);
    }
  }

  lemma TrackMove(g: Ghost, lives: seq<Life>, who: map<nat, nat>, g': Ghost, h: nat, lives': seq<Life>)
    requires Tracked(g, lives, who) && h in g.reqs && g'.reqs == g.reqs && g'.stage == g.stage[h := Reported]
    requires h in g.stage && Before(g.stage[h]) && h in who && who[h] < |lives|
    requires var life := lives[who[h]]; lives' == lives[who[h] := life.(moved := life.moved + [Wanted(g.reqs[h])])]
    ensures Tracked(g', lives', who)
  {
    assert Current(g, lives, who, h);
    forall k {:trigger Current(g', lives', who, k)} | k in who ensures Current(g', lives', who, k) {
      assert Current(g, lives, who, k);
    }
    forall i {:trigger Known(lives', who, i)} | 0 <= i < |lives'| ensures Known(lives', who, i) {
      assert Known(lives, who, i);
    }
  }

  lemma TrackReturn(g: Ghost, lives: seq<Life>, who: map<nat, nat>, g': Ghost, h: nat, lives': seq<Life>)
    requires Tracked(g, lives, who) && h in g.reqs && h in g.stage && g.stage[h] == Acked
    requires h in who && who[h] < |lives|
    requires g'.reqs == g.reqs - {h} && g'.stage == g.stage - {h}
    requires lives' == lives[who[h] := lives[who[h]].(head := RETURNED)]
    ensures Tracked(g', lives', who - {h})
  {
    var who' := who - {h};
    assert Current(g, lives, who, h);
    forall k {:trigger Current(g', lives', who', k)} | k in who' ensures Current(g', lives', who', k) {
      assert Current(g, lives, who, k);
    }
    forall i {:trigger Known(lives', who', i)} | 0 <= i < |lives'| ensures Known(lives', who', i) {
      assert Known(lives, who, i);
    }
  }

  lemma Numbered(g: Ghost, lives: seq<Life>, who: map<nat, nat>, h: nat)
    requires Tracked(g, lives, who) && h in g.reqs
    ensures h in who && who[h] < |lives| && h in g.stage
  {
    assert Current(g, lives, who, h);
  }

  /** Any number of requests, device steps and interrupts in any order: all events that can happen
      do, and no panic is reached. Never are more than two requests in flight, and every request
      that has returned was moved exactly once, between its buffer and the bytes of its block. */
  method Run(d: Driver, events: seq<Event>, ghost lives0: seq<Life>, ghost who0: map<nat, nat>)
      returns (ghost lives: seq<Life>, ghost who: map<nat, nat>)
    requires d.Valid() && Tracked(d.g, lives0, who0)
    modifies d
    ensures d.Valid() && |d.g.reqs.Keys| <= 2 && Tracked(d.g, lives, who)
    ensures |lives0| <= |lives| && forall i :: 0 <= i < |lives0| ==> lives[i].asked == lives0[i].asked
  {
    lives, who := lives0, who0;
    for x := 0 to |events|
      invariant d.Valid() && Tracked(d.g, lives, who)
      invariant |lives0| <= |lives| && forall i :: 0 <= i < |lives0| ==> lives[i].asked == lives0[i].asked
    {
      lives, who := Happen(d, events[x], lives, who);
    }
    AtMostTwo(d.free, d.desc, d.g);
  }

  method Happen(d: Driver, event: Event, ghost lives0: seq<Life>, ghost who0: map<nat, nat>)
      returns (ghost lives: seq<Life>, ghost who: map<nat, nat>)
    requires d.Valid() && Tracked(d.g, lives0, who0)
    modifies d
    ensures d.Valid() && Tracked(d.g, lives, who)
    ensures |lives0| <= |lives| && forall i :: 0 <= i < |lives0| ==> lives[i].asked == lives0[i].asked
    ensures forall i :: |lives0| <= i < |lives| ==>
              event.Ask? && lives[i].asked == Transfer(event.b, event.write, DiskOffset(event.blockno), BSIZE)
  {
    hide DescInv, InfoInv, AvailInv, UsedInv, WorkInv, Tracked;
    lives, who := lives0, who0;
    ghost var g := d.g;
    match event
    case Ask(b, write, blockno) =>
      if b as int !in d.info {
        NoRequest(d.info, d.busy, d.g, b);
        var ok, h := d.Submit(b, write, blockno);
        if ok {
          lives, who := lives + [Life(Transfer(b, write, DiskOffset(blockno), BSIZE), [], h)], who[h := |lives|];
          TrackAsk(g, lives0, who0, d.g, h, lives);
        }
      }
    case Take =>
      if d.devIdx != d.availIdx {
        var _ := d.Fetch();
        TrackStages(g, lives, who, d.g);
      }
    case Complete(h) =>
      if h in d.working {
        Worked(d.working, g, h);
        var b, write, at, len := d.Serve(h);
        Numbered(g, lives, who, h);
        lives := lives[who[h] := lives[who[h]].(moved := lives[who[h]].moved + [Transfer(b, write, at, len)])];
        TrackMove(g, lives0, who, d.g, h, lives);
      }
    case Note =>
      if d.usedIdx % NUM != d.usedId % NUM {
        var _ := d.NoteOne();
        TrackStages(g, lives, who, d.g);
      }
    case Interrupt =>
      var _ := d.Intr();
      TrackStages(g, lives, who, d.g);
    case Wake(h) =>
      if h < |d.info| && d.info[h] >= 0 && d.info[h] !in d.busy {
        HasRequest(d.info, d.busy, d.g, h);
        d.Finish(h);
        Numbered(g, lives, who, h);
        lives, who := lives[who[h] := lives[who[h]].(head := RETURNED)], who - {h};
        TrackReturn(g, lives0, who0, d.g, h, lives);
      }
  }

  /** The requests ids have been reported to those who wait for them, and no others. */
  ghost predicate AckedSince(before: map<nat, Stage>, after: map<nat, Stage>, ids: seq<nat>) {
    after.Keys == before.Keys && forall h :: h in after ==> after[h] == if h in ids then Acked else before[h]
  }

  lemma AckedNone(stage: map<nat, Stage>)
    ensures AckedSince(stage, stage, [])
  {
  }

  lemma AckedMore(before: map<nat, Stage>, after: map<nat, Stage>, ids: seq<nat>, id: nat)
    requires AckedSince(before, after, ids) && id in after
    ensures AckedSince(before, after[id := Acked], ids + [id])
  {
  }

  /** The buffers of some requests. */
  ghost function Buffers(reqs: map<nat, Req>, ids: seq<nat>): set<nat> {
    set h | h in ids && h in reqs :: reqs[h].b
  }

  lemma ReportedStage(elems: seq<nat>, usedIdx: nat, usedId: nat, g: Ghost)
    requires UsedInv(elems, usedIdx, usedId, g)
    ensures forall h :: h in g.reported ==> h in g.stage && g.stage[h] == Reported
  {
  }

  lemma Worked(working: set<nat>, g: Ghost, h: nat)
    requires WorkInv(working, g) && h in working
    ensures h in g.stage && Before(g.stage[h])
  {
  }

  lemma NoRequest(info: seq<int>, busy: set<nat>, g: Ghost, b: nat)
    requires InfoInv(info, busy, g) && b as int !in info
    ensures forall k :: k in g.reqs ==> g.reqs[k].b != b
  {
    forall k | k in g.reqs ensures g.reqs[k].b != b {
      assert info[k] in info;
    }
  }

  lemma HasRequest(info: seq<int>, busy: set<nat>, g: Ghost, h: nat)
    requires InfoInv(info, busy, g) && h < |info| && info[h] != NOBUF
    ensures h in g.reqs && g.reqs[h].b == info[h]
  {
  }

  lemma NoBuffers(reqs: map<nat, Req>)
    ensures Buffers(reqs, []) == {}
  {
  }

  lemma MoreBuffers(reqs: map<nat, Req>, ids: seq<nat>, id: nat)
    requires id in reqs
    ensures Buffers(reqs, ids + [id]) == Buffers(reqs, ids) + {reqs[id].b}
  {
    assert id in ids + [id];
  }

  lemma Sizes(free: seq<bool>, desc: seq<Desc>, info: seq<int>, busy: set<nat>, g: Ghost)
    requires DescInv(free, desc, g) && InfoInv(info, busy, g)
    ensures |free| == |desc| == |info| == |g.owner| == NUM && g.stage.Keys == g.reqs.Keys
  {
  }

  /** A buffer that is no longer the device's: its request has been acknowledged. */
  lemma Done(info: seq<int>, busy: set<nat>, g: Ghost, h: nat)
    requires InfoInv(info, busy, g) && h in g.reqs && g.reqs[h].b !in busy
    ensures h in g.stage && g.stage[h] == Acked && h < |info|
  {
  }
}
