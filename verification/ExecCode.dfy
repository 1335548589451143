/** exec (kernel/exec.c) up to the point of no return: a new address space with the segments, the
    stack and the arguments in it. */
module ExecCode {
  import opened Sequences
  import opened Sv39
  import opened PageTables
  import opened PageBudget
  import opened KernelMemory
  import opened UserMemory
  import opened UserCopy
  import opened ProcessMemory
  import opened ExecImage

  // ----- What the address space holds -----

  ghost predicate ShowsAt(mem: Memory, sp: Space, img: seq<nat>, a: nat)
    requires HasBytes(mem, sp) && a < |img|
  {
    UserMapped(sp, a) && ByteAt(mem, sp, a) == img[a]
  }

  /** The pages below |img| are mapped and hold these bytes. */
  ghost predicate Shows(mem: Memory, sp: Space, img: seq<nat>) {
    HasBytes(mem, sp) && forall a: nat {:trigger ShowsAt(mem, sp, img, a)} :: a < |img| ==> ShowsAt(mem, sp, img, a)
  }

  lemma ShowsNothing(mem: Memory, g: Ghost, pt: nat)
    requires Inv(mem, g) && UserBytes(mem, g.own) && pt in g.spaces
    ensures Shows(mem, g.spaces[pt], [])
  {
    hide Inv, UserBytes;
    ValidBytes(mem, g, pt);
  }

  /** New pages add zeros. */
  lemma ShowsGrown(m0: Memory, g0: Ghost, m1: Memory, g1: Ghost, pt: nat, lo: nat, hi: nat, img: seq<nat>)
    requires lo <= hi && Inv(m0, g0) && Inv(m1, g1) && UserBytes(m1, g1.own) && Grown(m0, g0, m1, g1, pt, lo, hi)
    requires ZeroPages(m1, g1.spaces[pt].leaf, lo, hi) && hi <= TRAPFRAME
    requires Shows(m0, g0.spaces[pt], img) && |img| == lo * PGSIZE
    ensures Shows(m1, g1.spaces[pt], Pad(img, hi * PGSIZE))
  {
    hide Inv, UserBytes, GrownOwners;
    ValidBytes(m1, g1, pt);
    var sp0, sp1, img' := g0.spaces[pt], g1.spaces[pt], Pad(img, hi * PGSIZE);
    forall a: nat {:trigger ShowsAt(m1, sp1, img', a)} | a < |img'| ensures ShowsAt(m1, sp1, img', a) {
      assert a / PGSIZE < hi;
      if a < |img| {
        assert ShowsAt(m0, sp0, img, a);
        LeafPage(m0, g0, pt, a / PGSIZE);
      } else {
        assert lo <= a / PGSIZE && img'[a] == 0;
      }
    }
  }

  lemma ShowsWrote(m0: Memory, m1: Memory, g: Ghost, pt: nat, img: seq<nat>, va: nat, bytes: seq<nat>)
    requires AllBytes(m0, g) && AllBytes(m1, g) && pt in g.spaces && WroteAll(m0, m1, g, pt, va, bytes)
    requires Shows(m0, g.spaces[pt], img) && va + |bytes| <= |img|
    ensures Shows(m1, g.spaces[pt], Splice(img, va, bytes))
  {
    var sp, img' := g.spaces[pt], Splice(img, va, bytes);
    assert Wrote(m0, m1, sp, va, bytes, true);
    hide HasBytes;
    forall a: nat {:trigger ShowsAt(m1, sp, img', a)} | a < |img'| ensures ShowsAt(m1, sp, img', a) {
      assert ShowsAt(m0, sp, img, a);
    }
  }

  /** Steps that leave the contents of this space's pages alone. */
  lemma ShowsKept(m0: Memory, g0: Ghost, m1: Memory, sp1: Space, pt: nat, img: seq<nat>)
    requires Inv(m0, g0) && pt in g0.spaces && Shows(m0, g0.spaces[pt], img) && HasBytes(m1, sp1)
    requires forall v :: v in g0.spaces[pt].leaf ==> v in sp1.leaf && sp1.leaf[v].ppn == g0.spaces[pt].leaf[v].ppn
    requires forall p :: p in g0.own && g0.own[p].User? && g0.own[p].id == pt ==> p in m0 && p in m1 && m1[p] == m0[p]
    ensures Shows(m1, sp1, img)
  {
    hide Inv;
    forall a: nat {:trigger ShowsAt(m1, sp1, img, a)} | a < |img| ensures ShowsAt(m1, sp1, img, a) {
      assert ShowsAt(m0, g0.spaces[pt], img, a);
      LeafPage(m0, g0, pt, a / PGSIZE);
    }
  }

  lemma NoWrap(a: nat, b: nat)
    requires a < U64 && b < U64 && (a + b) % U64 >= a
    ensures a + b < U64 || b == 0
  {
  }

  lemma LeavesSized(leaf: map<nat, Pte>, q: Proc)
    requires ProcLeaves(leaf, q.sz, q.trapframe)
    ensures Sized(leaf, NPages(q.sz))
  {
  }

  lemma GrownLeaves(m0: Memory, g0: Ghost, m1: Memory, g1: Ghost, q: Proc, sz: nat)
    requires Inv(m0, g0) && Inv(m1, g1) && NPages(q.sz) <= NPages(sz)
    requires Grown(m0, g0, m1, g1, q.pagetable, NPages(q.sz), NPages(sz))
    requires ProcLeaves(g0.spaces[q.pagetable].leaf, q.sz, q.trapframe) && NPages(sz) <= TRAPFRAME
    ensures q.pagetable in g1.spaces
    ensures ProcLeaves(g1.spaces[q.pagetable].leaf, sz, q.trapframe) && Only(m0, g0, m1, g1, q.pagetable)
  {
    hide Inv, GrownOwners, SameContents, OnlyPages;
    GrownOnly(m0, g0, m1, g1, q.pagetable, NPages(q.sz), NPages(sz));
    GrownSized(g0.spaces[q.pagetable].leaf, g1.spaces[q.pagetable].leaf, NPages(q.sz), NPages(sz));
  }

  lemma AllocLeaves(m0: Memory, g0: Ghost, m1: Memory, g1: Ghost, q: Proc, newsz: nat, sz1: nat)
    requires Inv(m0, g0) && Inv(m1, g1) && q.pagetable in g0.spaces
    requires ProcLeaves(g0.spaces[q.pagetable].leaf, q.sz, q.trapframe)
    requires AllUser(g0.spaces[q.pagetable].leaf, NPages(q.sz))
    requires newsz < q.sz ==> sz1 == q.sz && m1 == m0 && g1 == g0
    requires newsz >= q.sz ==> NPages(q.sz) <= NPages(newsz)
    requires newsz >= q.sz ==>
               || (sz1 == newsz && Grown(m0, g0, m1, g1, q.pagetable, NPages(q.sz), NPages(newsz))
                   && ZeroPages(m1, g1.spaces[q.pagetable].leaf, NPages(q.sz), NPages(newsz))
                   && NPages(newsz) <= TRAPFRAME)
               || (sz1 == 0 && Grown(m0, g0, m1, g1, q.pagetable, NPages(q.sz), NPages(q.sz)))
    ensures q.pagetable in g1.spaces && Only(m0, g0, m1, g1, q.pagetable)
    ensures var leaf, size := g1.spaces[q.pagetable].leaf, if sz1 == 0 then q.sz else sz1;
            ProcLeaves(leaf, size, q.trapframe) && AllUser(leaf, NPages(size))
    ensures sz1 != 0 ==> newsz <= sz1
  {
    hide Inv, OnlyPages, NPages, GrownOwners, SameContents;
    OnlyRefl(m0, g0, q.pagetable);
    if newsz >= q.sz {
      var size := if sz1 == 0 then q.sz else sz1;
      assert NPages(0) == 0 by {
        RoundsTo(0, 0);
      }
      GrownLeaves(m0, g0, m1, g1, q, size);
    }
  }

  lemma SegmentReachable(sp: Space, seg: Segment, size: nat, tf: nat)
    requires ProcLeaves(sp.leaf, size, tf) && AllUser(sp.leaf, NPages(size)) && seg.vaddr + seg.memsz <= size
    requires seg.filesz <= seg.memsz
    ensures forall a :: seg.vaddr <= a < seg.vaddr + seg.filesz ==> Reachable(sp, a)
  {
    forall a | seg.vaddr <= a < seg.vaddr + seg.filesz
      ensures Reachable(sp, a)
    {
      InSize(size, a / PGSIZE);
    }
  }

  lemma NoneUser(leaf: map<nat, Pte>)
    ensures AllUser(leaf, NPages(0))
  {
    RoundsTo(0, 0);
  }

  // ----- Segments -----

  lemma MorePages(a: nat, b: nat)
    requires a <= b
    ensures NPages(a) <= NPages(b)
  {
  }

  /** What uvmalloc leaves behind when it succeeds. */
  lemma AllocShows(m0: Memory, g0: Ghost, m1: Memory, g1: Ghost, pt: nat, sz: nat, newsz: nat, img: seq<nat>)
    requires Inv(m0, g0) && Inv(m1, g1) && UserBytes(m1, g1.own) && pt in g0.spaces
    requires Shows(m0, g0.spaces[pt], img) && |img| == NPages(sz) * PGSIZE
    requires newsz < sz ==> m1 == m0 && g1 == g0
    requires newsz >= sz ==> NPages(sz) <= NPages(newsz) <= TRAPFRAME
    requires newsz >= sz ==> Grown(m0, g0, m1, g1, pt, NPages(sz), NPages(newsz))
    requires newsz >= sz ==> ZeroPages(m1, g1.spaces[pt].leaf, NPages(sz), NPages(newsz))
    ensures pt in g1.spaces && Shows(m1, g1.spaces[pt], Pad(img, NPages(newsz) * PGSIZE))
    ensures |Pad(img, NPages(newsz) * PGSIZE)| == NPages(if newsz < sz then sz else newsz) * PGSIZE
  {
    if newsz < sz {
      MorePages(newsz, sz);
    } else {
      hide Inv, UserBytes, Grown, ZeroPages, NPages, Shows;
      GrownHas(m0, g0, m1, g1, pt, NPages(sz), NPages(newsz));
      ShowsGrown(m0, g0, m1, g1, pt, NPages(sz), NPages(newsz), img);
    }
  }

  lemma GrownHas(m0: Memory, g0: Ghost, m1: Memory, g1: Ghost, pt: nat, lo: nat, hi: nat)
    requires lo <= hi && Grown(m0, g0, m1, g1, pt, lo, hi)
    ensures pt in g1.spaces
  {
  }

  /** What uvmalloc needs for a segment. */
  ghost predicate SegmentFits(g: Ghost, pt: nat, sz: nat, seg: Segment)
    requires pt in g.spaces
  {
    Monotone(sz, SizeWith(sz, seg));
    SizeWith(sz, seg) > 0 && Affords(g, pt, NPages(sz), NPages(SizeWith(sz, seg)))
  }

  lemma FitsFor(g0: Ghost, g1: Ghost, pt: nat, sz: nat, seg: Segment, sz1: nat)
    requires pt in g0.spaces && NPages(sz) <= NPages(SizeWith(sz, seg))
    requires var newsz := seg.vaddr + seg.memsz;
             if newsz < sz then sz1 == sz && g1 == g0
             else
               && NPages(sz) <= NPages(newsz) && (sz1 == newsz || sz1 == 0)
               && (sz1 == newsz <==> Affords(g0, pt, NPages(sz), NPages(newsz)))
               && (sz1 == newsz ==> Paid(g0, g1, pt, NPages(sz), NPages(newsz), NPages(newsz) - NPages(sz)))
    ensures sz1 != 0 <==> SegmentFits(g0, pt, sz, seg)
    ensures sz1 != 0 ==> sz1 == SizeWith(sz, seg)
    ensures sz1 != 0 ==> Paid(g0, g1, pt, NPages(sz), NPages(sz1), NPages(sz1) - NPages(sz))
  {
    hide NPages, Missing, TablesFor;
    PaidNone(g0, pt, NPages(sz));
  }

  /** One step of exec's loading loop: room for the segment, then its bytes. */
  method LoadSegment(k: Kernel, pt: nat, sz: nat, seg: Segment, ghost tf: nat, ghost img: seq<nat>)
    returns (ok: bool, size: nat)
    requires k.Valid() && pt in k.g.spaces && ProcLeaves(k.g.spaces[pt].leaf, sz, tf)
    requires AllUser(k.g.spaces[pt].leaf, NPages(sz)) && seg.vaddr < U64 && seg.memsz < U64
    requires Shows(k.mem, k.g.spaces[pt], img) && |img| == NPages(sz) * PGSIZE
    modifies k
    ensures k.Valid() && Only(old(k.mem), old(k.g), k.mem, k.g, pt) && pt in k.g.spaces
    ensures ProcLeaves(k.g.spaces[pt].leaf, size, tf) && AllUser(k.g.spaces[pt].leaf, NPages(size))
    ensures ok ==> Loadable(seg) && Shows(k.mem, k.g.spaces[pt], Place(img, seg))
    ensures ok ==> |Place(img, seg)| == NPages(size) * PGSIZE
    ensures ok <==> Acceptable(seg) && SegmentFits(old(k.g), pt, sz, seg)
    ensures ok ==> size == SizeWith(sz, seg) > 0 && NPages(sz) <= NPages(size)
    ensures ok ==> Paid(old(k.g), k.g, pt, NPages(sz), NPages(size), NPages(size) - NPages(sz))
  {
    hide Inv, UserBytes, OnlyPages, Grown, ZeroPages, NPages, ProcLeaves, AllUser, Shows, WroteAll;
    hide Affords, Paid, SegmentFits;
    Monotone(sz, SizeWith(sz, seg));
    OnlyRefl(k.mem, k.g, pt);
    size := sz;
    if seg.memsz < seg.filesz {
      return false, sz;
    }
    if (seg.vaddr + seg.memsz) % U64 < seg.vaddr {
      return false, sz;
    }
    NoWrap(seg.vaddr, seg.memsz);
    ghost var q := Proc(pt, sz, tf);
    ghost var newsz := seg.vaddr + seg.memsz;
    LeavesSized(k.g.spaces[pt].leaf, q);
    var sz1 := UvmAlloc(k, pt, sz, seg.vaddr + seg.memsz);
    AllocLeaves(old(k.mem), old(k.g), k.mem, k.g, q, newsz, sz1);
    FitsFor(old(k.g), k.g, pt, sz, seg, sz1);
    if sz1 == 0 {
      return false, sz;
    }
    size := sz1;
    AllocShows(old(k.mem), old(k.g), k.mem, k.g, pt, sz, newsz, img);
    if seg.vaddr % PGSIZE != 0 {
      return false, size;
    }
    SegmentReachable(k.g.spaces[pt], seg, size, tf);
    ghost var m, h := k.mem, k.g;
    ok := LoadSeg(k, pt, seg.vaddr, seg.data, seg.filesz);
    OnlyTrans(old(k.mem), old(k.g), m, h, k.mem, k.g, pt);
    if ok {
      Room(seg);
      ShowsWrote(m, k.mem, k.g, pt, Pad(img, NPages(newsz) * PGSIZE), seg.vaddr, seg.data[..seg.filesz]);
    }
  }

  /** User code may touch the sz bytes of the image except the guard page below the stack. */
  ghost predicate Guarded(sp: Space, sz: nat) {
    forall a: nat {:trigger Reachable(sp, a)} :: a < sz ==>
        (Reachable(sp, a) <==> !(sz - 2 * PGSIZE <= a < sz - PGSIZE))
  }

  /** Two pages at the next page boundary: a guard page and the user stack. */
  method AddStack(k: Kernel, pt: nat, sz: nat, ghost tf: nat, ghost img: seq<nat>) returns (ok: bool, size: nat)
    requires k.Valid() && pt in k.g.spaces && ProcLeaves(k.g.spaces[pt].leaf, sz, tf)
    requires AllUser(k.g.spaces[pt].leaf, NPages(sz))
    requires Shows(k.mem, k.g.spaces[pt], img) && |img| == NPages(sz) * PGSIZE
    modifies k
    ensures k.Valid() && Only(old(k.mem), old(k.g), k.mem, k.g, pt) && pt in k.g.spaces
    ensures ProcLeaves(k.g.spaces[pt].leaf, size, tf)
    ensures ok ==> size == |img| + 2 * PGSIZE && Shows(k.mem, k.g.spaces[pt], Pad(img, size))
    ensures ok ==> Guarded(k.g.spaces[pt], size)
    ensures ok <==> Affords(old(k.g), pt, NPages(sz), NPages(sz) + 2)
  {
    hide Inv, UserBytes, Only, Grown, ZeroPages, NPages, AllUser, Shows, SameContents, Affords, Paid, Guarded;
    hide ProcLeaves;
    var top := PGROUNDUP(sz);
    RoundTwice(sz);
    NPagesIs(sz);
    RoundsTo(top + 2 * PGSIZE, NPages(sz) + 2);
    ghost var q := Proc(pt, top, tf);
    SameLeaves(k.g.spaces[pt].leaf, sz, q);
    var sz1 := UvmAlloc(k, pt, top, top + 2 * PGSIZE);
    AllocLeaves(old(k.mem), old(k.g), k.mem, k.g, q, top + 2 * PGSIZE, sz1);
    if sz1 == 0 {
      return false, top;
    }
    AllocShows(old(k.mem), old(k.g), k.mem, k.g, pt, top, sz1, img);
    WholePages(sz1);
    GuardMapped(k.g.spaces[pt].leaf, top / PGSIZE, sz1, tf);
    ghost var m, h := k.mem, k.g;
    UvmClear(k, pt, sz1 - 2 * PGSIZE);
    OnlyTrans(old(k.mem), old(k.g), m, h, k.mem, k.g, pt);
    ClearShows(m, h, k.mem, k.g, pt, top / PGSIZE, Pad(img, sz1));
    ClearGuards(h.spaces[pt], k.g.spaces[pt], top / PGSIZE, sz1, tf);
    return true, sz1;
  }

  lemma SameLeaves(leaf: map<nat, Pte>, sz: nat, q: Proc)
    requires ProcLeaves(leaf, sz, q.trapframe) && NPages(q.sz) == NPages(sz)
    ensures ProcLeaves(leaf, q.sz, q.trapframe) && Sized(leaf, NPages(q.sz))
  {
  }

  lemma GuardMapped(leaf: map<nat, Pte>, v: nat, sz: nat, tf: nat)
    requires ProcLeaves(leaf, sz, tf) && sz == (v + 2) * PGSIZE
    ensures v in leaf && v < TRAPFRAME && v * PGSIZE < MAXVA
  {
    InSize(sz, v);
  }

  /** Clearing PTE_U of page v shuts user code out of that page and no other. */
  lemma ClearGuards(sp: Space, sp': Space, v: nat, sz: nat, tf: nat)
    requires ProcLeaves(sp.leaf, sz, tf) && AllUser(sp.leaf, NPages(sz)) && sz == (v + 2) * PGSIZE && v in sp.leaf
    requires sp'.leaf == sp.leaf[v := sp.leaf[v].(flags := sp.leaf[v].flags.(u := false))]
    ensures Guarded(sp', sz) && ProcLeaves(sp'.leaf, sz, tf)
  {
    InSize(sz, v);
    forall a: nat {:trigger Reachable(sp', a)} | a < sz
      ensures Reachable(sp', a) <==> !(sz - 2 * PGSIZE <= a < sz - PGSIZE)
    {
      InSize(sz, a / PGSIZE);
      assert sz - 2 * PGSIZE <= a < sz - PGSIZE <==> a / PGSIZE == v;
    }
  }

  lemma WholePages(sz: nat)
    requires sz % PGSIZE == 0
    ensures NPages(sz) * PGSIZE == sz
  {
    NPagesIs(sz);
  }

  /** uvmclear changes only who may use the guard page. */
  lemma ClearShows(m0: Memory, g0: Ghost, m1: Memory, g1: Ghost, pt: nat, v: nat, img: seq<nat>)
    requires Inv(m0, g0) && Inv(m1, g1) && UserBytes(m1, g1.own) && pt in g0.spaces && pt in g1.spaces
    requires v in g0.spaces[pt].leaf && SameContents(m0, g0.own, m1) && Shows(m0, g0.spaces[pt], img)
    requires var leaf := g0.spaces[pt].leaf;
             g1.spaces[pt].leaf == leaf[v := leaf[v].(flags := leaf[v].flags.(u := false))]
    ensures Shows(m1, g1.spaces[pt], img)
  {
    hide Inv, UserBytes, Shows;
    ValidBytes(m1, g1, pt);
    ShowsKept(m0, g0, m1, g1.spaces[pt], pt, img);
  }

  // ----- Arguments -----

  /** One argument string or the array: copyout cannot fail on the stack's page. */
  method Push(k: Kernel, pt: nat, sp: nat, s: seq<nat>, ghost img: seq<nat>)
    requires k.Valid() && pt in k.g.spaces && Shows(k.mem, k.g.spaces[pt], img) && sp + |s| <= |img|
    requires forall a: nat :: |img| - PGSIZE <= a < |img| ==> Reachable(k.g.spaces[pt], a)
    requires |img| - PGSIZE <= sp
    modifies k
    ensures k.Valid() && k.g == old(k.g) && Only(old(k.mem), old(k.g), k.mem, k.g, pt)
    ensures Shows(k.mem, k.g.spaces[pt], Splice(img, sp, s))
  {
    hide Inv, UserBytes, HasBytes, Shows, WroteAll, Untouched, Only, Splice;
    var r, n := CopyOut(k, pt, sp, s);
    assert r == 0;
    assert s[..n] == s;
    UntouchedOnly(old(k.mem), k.mem, k.g, pt);
    ShowsWrote(old(k.mem), k.mem, k.g, pt, img, sp, s);
  }

  /** The arguments of exec: on the stack if and only if they fit. (caller: sys_exec fetches
      strings of less than a page.) */
  method PushArgs(k: Kernel, pt: nat, sz: nat, argv: seq<seq<nat>>, ghost img: seq<nat>) returns (ok: bool, sp: nat)
    requires k.Valid() && pt in k.g.spaces && Shows(k.mem, k.g.spaces[pt], img) && |img| == sz >= 2 * PGSIZE
    requires forall a :: sz - PGSIZE <= a < sz ==> Reachable(k.g.spaces[pt], a)
    requires forall i :: 0 <= i < |argv| ==> |argv[i]| < PGSIZE
    modifies k
    ensures k.Valid() && k.g == old(k.g) && Only(old(k.mem), old(k.g), k.mem, k.g, pt)
    ensures ok <==> Fit(argv, sz)
    ensures ok ==> sp == ArgvAt(argv, sz) && Shows(k.mem, k.g.spaces[pt], WithArgs(img, argv))
  {
    hide Inv, UserBytes, HasBytes, Shows, Only, Splice, Words, Sp;
    OnlyRefl(k.mem, k.g, pt);
    assert Sp(argv, 0, sz) == sz by { SpFirst(argv, sz); }
    sp := sz;
    var stackbase := sp - PGSIZE;
    var ustack: seq<nat> := [];
    var argc := 0;
    while argc < |argv|
      invariant argc <= |argv| && argc <= MAXARG && |ustack| == argc && stackbase <= sp == Sp(argv, argc, sz)
      invariant StringsFit(argv, argc, sz) && forall i :: 0 <= i < argc ==> ustack[i] == Sp(argv, i + 1, sz)
      invariant k.Valid() && k.g == old(k.g) && Only(old(k.mem), old(k.g), k.mem, k.g, pt)
      invariant Shows(k.mem, k.g.spaces[pt], Pushed(img, argv, argc))
    {
      if argc >= MAXARG {
        return false, sp;
      }
      SpFalls(argv, argc, sz);
      SpNext(argv, argc, sz);
      sp := sp - (|argv[argc]| + 1);
      sp := sp - sp % 16;
      if sp < stackbase {
        return false, sp;
      }
      ghost var m := k.mem;
      Push(k, pt, sp, argv[argc] + [0], Pushed(img, argv, argc));
      OnlyTrans(old(k.mem), old(k.g), m, k.g, k.mem, k.g, pt);
      ustack := ustack + [sp];
      argc := argc + 1;
    }
    SpBelow(argv, argc, sz);
    ustack := ustack + [0];
    sp := sp - (argc + 1) * WORD;
    sp := sp - sp % 16;
    if sp < stackbase {
      return false, sp;
    }
    assert ustack == Pointers(argv, sz);
    ghost var m := k.mem;
    Push(k, pt, sp, Words(ustack), Pushed(img, argv, argc));
    OnlyTrans(old(k.mem), old(k.g), m, k.g, k.mem, k.g, pt);
    return true, sp;
  }

  lemma SpFirst(argv: seq<seq<nat>>, top: nat)
    ensures Sp(argv, 0, top) == top
  {
  }

  lemma SpNext(argv: seq<seq<nat>>, i: nat, top: nat)
    requires i < |argv|
    ensures Sp(argv, i + 1, top) == Align(Sp(argv, i, top) - (|argv[i]| + 1))
  {
  }

  // ----- The image -----

  /** The image of a program with its stack, before the arguments. */
  function ProgramImage(segs: seq<Segment>): (r: seq<nat>)
    requires AllLoadable(segs)
    ensures |r| == |Loaded(segs)| + 2 * PGSIZE
  {
    Pad(Loaded(segs), |Loaded(segs)| + 2 * PGSIZE)
  }

  /** pt holds the program with its arguments, and sp points to the array of their addresses. */
  ghost predicate Complete(mem: Memory, sp: Space, segs: seq<Segment>, argv: seq<seq<nat>>, sz: nat, at: nat) {
    && AllLoadable(segs) && sz == |ProgramImage(segs)| && Fit(argv, sz) && at == ArgvAt(argv, sz)
    && Shows(mem, sp, WithArgs(ProgramImage(segs), argv)) && Guarded(sp, sz)
  }

  /** exec's tests on the program file and the arguments. */
  predicate Runnable(segs: seq<Segment>, argv: seq<seq<nat>>) {
    AllAcceptable(segs) && Fit(argv, |ProgramImage(segs)|)
  }

  /** The pages of the image: the program, its stack, and the tables for both. */
  function ImagePages(segs: seq<Segment>): nat
    requires AllLoadable(segs)
  {
    3 + UserPages(|ProgramImage(segs)| / PGSIZE)
  }

  /** exec's loop over the program headers. */
  method LoadProgram(k: Kernel, pt: nat, segs: seq<Segment>, ghost tf: nat) returns (ok: bool, sz: nat)
    requires k.Valid() && pt in k.g.spaces && ProcLeaves(k.g.spaces[pt].leaf, 0, tf)
    requires forall x :: 0 <= x < |segs| ==> segs[x].vaddr < U64 && segs[x].memsz < U64
    modifies k
    ensures k.Valid() && Only(old(k.mem), old(k.g), k.mem, k.g, pt) && pt in k.g.spaces
    ensures ProcLeaves(k.g.spaces[pt].leaf, sz, tf) && AllUser(k.g.spaces[pt].leaf, NPages(sz))
    ensures ok ==> AllLoadable(segs) && Shows(k.mem, k.g.spaces[pt], Loaded(segs))
    ensures ok ==> |Loaded(segs)| == NPages(sz) * PGSIZE
    ensures ok <==> AllAcceptable(segs) && Affords(old(k.g), pt, 0, |Loaded(segs)| / PGSIZE)
    ensures ok ==> Paid(old(k.g), k.g, pt, 0, NPages(sz), NPages(sz))
  {
    hide Inv, UserBytes, Only, ProcLeaves, AllUser, Shows, Place, Loadable, Acceptable;
    hide Affords, Paid, SegmentFits, NPages, Loaded, AllAcceptable;
    NoSegments();
    PaidNone(k.g, pt, 0);
    RoundsTo(0, 0);
    ok, sz := true, 0;
    NoneUser(k.g.spaces[pt].leaf);
    OnlyRefl(k.mem, k.g, pt);
    ShowsNothing(k.mem, k.g, pt);
    var x := 0;
    while x < |segs|
      invariant x <= |segs| && k.Valid() && Only(old(k.mem), old(k.g), k.mem, k.g, pt) && pt in k.g.spaces
      invariant ProcLeaves(k.g.spaces[pt].leaf, sz, tf) && AllUser(k.g.spaces[pt].leaf, NPages(sz))
      invariant AllLoadable(segs[..x]) && Shows(k.mem, k.g.spaces[pt], Loaded(segs[..x]))
      invariant |Loaded(segs[..x])| == NPages(sz) * PGSIZE
      invariant AllAcceptable(segs[..x]) && (x > 0 <==> sz > 0)
      invariant Paid(old(k.g), k.g, pt, 0, NPages(sz), NPages(sz))
    {
      ghost var m, h, sz0 := k.mem, k.g, sz;
      ok, sz := LoadSegment(k, pt, sz, segs[x], tf, Loaded(segs[..x]));
      OnlyTrans(old(k.mem), old(k.g), m, h, k.mem, k.g, pt);
      if !ok {
        LoadFails(old(k.g), h, pt, segs, x, sz0);
        return;
      }
      PaidMore(old(k.g), h, k.g, pt, 0, NPages(sz0), NPages(sz), NPages(sz0), NPages(sz) - NPages(sz0));
      LoadOneMore(segs, x);
      x := x + 1;
    }
    assert segs[..x] == segs;
    PaidAll(old(k.g), k.g, pt, NPages(sz), |Loaded(segs)|);
  }

  lemma NoSegments()
    ensures AllAcceptable([]) && Loaded([]) == []
  {
  }

  lemma PaidAll(g: Ghost, g1: Ghost, pt: nat, n: nat, len: nat)
    requires Paid(g, g1, pt, 0, n, n) && len == n * PGSIZE
    ensures Affords(g, pt, 0, len / PGSIZE)
  {
    hide Missing, TablesFor;
    assert len / PGSIZE == n;
  }

  /** If segment x cannot be loaded, the program could not be from the start. */
  lemma LoadFails(g: Ghost, g1: Ghost, pt: nat, segs: seq<Segment>, x: nat, sz: nat)
    requires pt in g.spaces && x < |segs| && Paid(g, g1, pt, 0, NPages(sz), NPages(sz)) && AllLoadable(segs[..x])
    requires |Loaded(segs[..x])| == NPages(sz) * PGSIZE && (x > 0 <==> sz > 0)
    requires !(Acceptable(segs[x]) && SegmentFits(g1, pt, sz, segs[x]))
    ensures !(AllAcceptable(segs) && Affords(g, pt, 0, |Loaded(segs)| / PGSIZE))
  {
    hide NPages, Affords, Paid, Place;
    if AllAcceptable(segs) {
      var size, n := SizeWith(sz, segs[x]), |Loaded(segs)| / PGSIZE;
      Monotone(sz, size);
      PlaceLength(Loaded(segs[..x]), segs[x], sz);
      assert segs[..x + 1][..x] == segs[..x];
      LoadedGrows(segs, x + 1);
      AffordsRest(g, g1, pt, 0, NPages(sz), NPages(size));
      if Affords(g, pt, 0, n) {
        AffordsLess(g, pt, 0, NPages(size), n);
      }
    }
  }

  /** exec up to the point of no return: a complete image in pt; or, if the program is not runnable
      or there are too few free pages for the image, 0 and nothing changed. */
  method BuildImage(k: Kernel, tf: nat, trampoline: nat, segs: seq<Segment>, argv: seq<seq<nat>>)
    returns (pt: nat, sz: nat, sp: nat)
    requires k.Valid() && forall x :: 0 <= x < |segs| ==> segs[x].vaddr < U64 && segs[x].memsz < U64
    requires forall i :: 0 <= i < |argv| ==> |argv[i]| < PGSIZE
    modifies k
    ensures k.Valid()
    ensures pt == 0 ==> Same(old(k.mem), old(k.g), k.mem, k.g)
    ensures pt != 0 ==> Only(old(k.mem), old(k.g), k.mem, k.g, pt) && pt !in old(k.g.spaces) && pt in k.g.spaces
    ensures pt != 0 ==> ProcLeaves(k.g.spaces[pt].leaf, sz, tf)
    ensures pt != 0 ==> Complete(k.mem, k.g.spaces[pt], segs, argv, sz, sp)
    ensures pt != 0 <==> Runnable(segs, argv) && ImagePages(segs) <= |old(k.g.free)|
  {
    hide Inv, UserBytes, Only, Same, Released, ProcLeaves, AllUser, Shows, Loaded, Pad, WithArgs, Fit, NPages;
    hide Affords, Paid, AllAcceptable, Bare, UserPages;
    sz, sp := 0, 0;
    pt := ProcPagetable(k, tf, trampoline);
    if pt == 0 {
      return;
    }
    ghost var m, h, bare := k.mem, k.g, k.g;
    var ok;
    ok, sz := LoadProgram(k, pt, segs, tf);
    OnlyTrans(old(k.mem), old(k.g), m, h, k.mem, k.g, pt);
    ImageCost(m, bare, pt, segs);
    if ok {
      m, h := k.mem, k.g;
      AffordsRest(bare, k.g, pt, 0, NPages(sz), NPages(sz) + 2);
      ok, sz := AddStack(k, pt, sz, tf, Loaded(segs));
      OnlyTrans(old(k.mem), old(k.g), m, h, k.mem, k.g, pt);
    }
    if ok {
      m, h := k.mem, k.g;
      ok, sp := PushArgs(k, pt, sz, argv, ProgramImage(segs));
      OnlyTrans(old(k.mem), old(k.g), m, h, k.mem, k.g, pt);
    }
    if !ok {
      m, h := k.mem, k.g;
      ProcFreePagetable(k, pt, sz, tf);
      BuiltAndReleased(old(k.mem), old(k.g), m, h, k.mem, k.g, pt);
      pt := 0;
    }
  }

  lemma TwoMore(len: nat, n: nat)
    requires len % PGSIZE == 0 && n == len / PGSIZE
    ensures len == n * PGSIZE && (len + 2 * PGSIZE) / PGSIZE == n + 2
  {
  }

  lemma ImageCost(m: Memory, g: Ghost, pt: nat, segs: seq<Segment>)
    requires Inv(m, g) && (forall p :: p in g.own ==> KERNBASE <= p < PHYSTOP) && pt in g.spaces && Bare(g.spaces[pt])
    ensures AllAcceptable(segs) ==>
              var n := |Loaded(segs)| / PGSIZE;
              && AllLoadable(segs) && |Loaded(segs)| == n * PGSIZE
              && (Affords(g, pt, 0, n + 2) <==> ImagePages(segs) <= |g.free| + 3)
              && (Affords(g, pt, 0, n + 2) ==> Affords(g, pt, 0, n))
  {
    hide Inv, Affords, Bare, UserPages, Loaded, Pad;
    if AllAcceptable(segs) {
      var n := |Loaded(segs)| / PGSIZE;
      LoadedGrows(segs, 0);
      TwoMore(|Loaded(segs)|, n);
      FreeBound(m, g, KERNBASE, PHYSTOP);
      BareAffords(g, pt, n + 2);
      if Affords(g, pt, 0, n + 2) {
        AffordsLess(g, pt, 0, n, n + 2);
      }
    }
  }

  /** Releasing another address space leaves the image alone. */
  lemma ReleasedShows(m0: Memory, g0: Ghost, m1: Memory, g1: Ghost, from: nat, pt: nat, img: seq<nat>)
    requires Inv(m0, g0) && Inv(m1, g1) && UserBytes(m1, g1.own) && pt in g0.spaces && pt != from
    requires Released(m0, g0, m1, g1, from) && Shows(m0, g0.spaces[pt], img)
    ensures pt in g1.spaces && g1.spaces[pt] == g0.spaces[pt] && Shows(m1, g1.spaces[pt], img)
  {
    hide Inv, UserBytes, Shows;
    ValidBytes(m1, g1, pt);
    ShowsKept(m0, g0, m1, g1.spaces[pt], pt, img);
  }
}
