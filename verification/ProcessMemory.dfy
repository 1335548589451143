/** The memory of processes: proc_pagetable, proc_freepagetable, growproc, the memory side of
    allocproc, freeproc and fork (kernel/proc.c), and exec's replacement of an address space
    (kernel/exec.c). Whatever sequence of these runs, with whatever failures, every page of
    memory is free once or in use once. */
module ProcessMemory {
  import opened Sv39
  import opened PageTables
  import opened PageBudget
  import opened KernelMemory
  import opened UserMemory
  import opened UserCopy

  const RX: Flags := Flags(true, true, false, true, false, 0)
  const RW: Flags := Flags(true, true, true, false, false, 0)

  // ----- What may change when one address space is worked on -----

  predicate Mine(o: Owner, pt: nat) { o.Free? || OwnedBy(o, pt) }

  ghost predicate OnlyPages(m0: Memory, o0: map<nat, Owner>, m1: Memory, o1: map<nat, Owner>, pt: nat) {
    && o1.Keys == o0.Keys
    && forall p :: p in o0 ==>
         if Mine(o0[p], pt) then Mine(o1[p], pt)
             else o1[p] == o0[p] && p in m0 && p in m1 && (o0[p].User? || o0[p].Held? ==> m1[p] == m0[p])
  }

  /** Only free pages and pages of address space pt changed hands or contents. */
  ghost predicate Only(m0: Memory, g0: Ghost, m1: Memory, g1: Ghost, pt: nat) {
    && OnlyPages(m0, g0.own, m1, g1.own, pt)
    && forall id :: id != pt ==>
         (id in g1.spaces <==> id in g0.spaces) && (id in g0.spaces ==> g1.spaces[id] == g0.spaces[id])
  }

  lemma OnlyRefl(m: Memory, g: Ghost, pt: nat)
    requires Inv(m, g)
    ensures Only(m, g, m, g, pt)
  {
  }

  lemma OnlyTrans(m0: Memory, g0: Ghost, m1: Memory, g1: Ghost, m2: Memory, g2: Ghost, pt: nat)
    requires Only(m0, g0, m1, g1, pt) && Only(m1, g1, m2, g2, pt)
    ensures Only(m0, g0, m2, g2, pt)
  {
  }

  lemma GrownOnly(m0: Memory, g0: Ghost, m1: Memory, g1: Ghost, pt: nat, lo: nat, hi: nat)
    requires Inv(m0, g0) && Inv(m1, g1) && lo <= hi && Grown(m0, g0, m1, g1, pt, lo, hi)
    ensures Only(m0, g0, m1, g1, pt)
  {
    hide FreeInv, SpaceInv, PlaceOk, GrownLeaf;
  }

  lemma UnmappedOnly(m0: Memory, g0: Ghost, m1: Memory, g1: Ghost, pt: nat, first: nat, n: nat, doFree: bool)
    requires Inv(m0, g0) && Inv(m1, g1) && PagesUnmapped(m0, g0, m1, g1, pt, first, n, doFree)
    requires (doFree || first >= TRAPFRAME)
    ensures Only(m0, g0, m1, g1, pt)
  {
    hide FreeInv, SpaceInv, RangeUnmapped;
    if !doFree {
      assert forall p :: p in g0.own ==> PlaceOk(g0, p, g0.own[p]);
    }
  }

  lemma MappedOnly(m0: Memory, g0: Ghost, m1: Memory, g1: Ghost, pt: nat, first: nat, n: nat, pn: nat, perm: Flags)
    requires Inv(m0, g0) && Inv(m1, g1) && PagesMapped(m0, g0, m1, g1, pt, first, n, pn, perm) && first >= TRAPFRAME
    ensures Only(m0, g0, m1, g1, pt)
  {
    hide FreeInv, SpaceInv, PlaceOk, RangeMapped;
  }

  /** Memory is as it was, up to which free page is where. */
  ghost predicate Same(m0: Memory, g0: Ghost, m1: Memory, g1: Ghost) {
    && g1.spaces == g0.spaces && g1.own.Keys == g0.own.Keys
    && forall p :: p in g0.own ==>
         if g0.own[p].Free? then g1.own[p].Free?
         else g1.own[p] == g0.own[p] && p in m0 && p in m1 && (g0.own[p].User? || g0.own[p].Held? ==> m1[p] == m0[p])
  }

  /** A space that is not there owns nothing. */
  lemma NothingOwned(m: Memory, g: Ghost, pt: nat)
    requires Inv(m, g) && pt !in g.spaces
    ensures forall p :: p in g.own ==> !OwnedBy(g.own[p], pt)
  {
    assert forall p :: p in g.own ==> PlaceOk(g, p, g.own[p]);
  }

  /** Building an address space and releasing it changes nothing. */
  lemma BuiltAndReleased(m0: Memory, g0: Ghost, m1: Memory, g1: Ghost, m2: Memory, g2: Ghost, pt: nat)
    requires Inv(m0, g0) && pt !in g0.spaces && Only(m0, g0, m1, g1, pt) && Released(m1, g1, m2, g2, pt) && Inv(m2, g2)
    ensures Same(m0, g0, m2, g2)
  {
    hide FreeInv, SpaceInv, PlaceOk;
    NothingOwned(m0, g0, pt);
  }

  // ----- Page tables of processes -----

  /** An empty page table; without a free page, 0 and nothing changed. */
  method UvmCreate(k: Kernel) returns (pt: nat)
    requires k.Valid()
    modifies k
    ensures k.Valid() && Only(old(k.mem), old(k.g), k.mem, k.g, pt)
    ensures pt == 0 ==> k.g == old(k.g) && k.mem == old(k.mem)
    ensures pt != 0 <==> 1 <= |old(k.g.free)|
    ensures pt != 0 ==> |k.g.free| + 1 == |old(k.g.free)|
    ensures pt != 0 ==> pt !in old(k.g.spaces) && pt in k.g.spaces && k.g.spaces[pt] == Space(map[], map[], map[])
    ensures pt != 0 ==> old(pt in k.g.own && k.g.own[pt].Free?)
  {
    hide Inv;
    OnlyRefl(k.mem, k.g, 0);
    pt := NewPage(k, ZeroTable());
    if pt == 0 {
      return;
    }
    ghost var h := k.g;
    ghost var g' := k.g.(own := k.g.own[pt := Top(pt)], spaces := k.g.spaces[pt := Space(map[], map[], map[])]);
    NewSpace(k.mem, k.g, pt, g');
    NewRoot(k.mem, k.g, pt);
    k.g := g';
  }

  lemma NewRoot(mem: Memory, g: Ghost, p: nat)
    requires Inv(mem, g) && p in g.own && g.own[p] == Held
    ensures p !in g.spaces
  {
    assert p in g.spaces ==> SpaceInv(mem, g.own, p, g.spaces[p]);
  }

  /** The leaves of a process: its sz bytes, and the trap frame and the trampoline, which only the
      kernel may use. */
  ghost predicate ProcLeaves(leaf: map<nat, Pte>, sz: nat, trapframe: nat) {
    && Sized(leaf, NPages(sz)) && TRAMPOLINE in leaf && TRAPFRAME in leaf
    && leaf[TRAMPOLINE].flags == RX && leaf[TRAPFRAME] == Pte(trapframe, RW)
    && forall v :: v in leaf ==> v < NVPN
  }

  /** Maps one of the two pages at the top of an address space. */
  method MapTop(k: Kernel, pt: nat, v: nat, pn: nat, perm: Flags) returns (ok: bool)
    requires k.Valid() && pt in k.g.spaces && TRAPFRAME <= v < NVPN && v !in k.g.spaces[pt].leaf && !perm.u
    requires IsLeaf(MakePte(0, perm))
    modifies k
    ensures k.Valid() && Only(old(k.mem), old(k.g), k.mem, k.g, pt) && pt in k.g.spaces
    ensures k.g.spaces[pt].leaf == if ok then old(k.g.spaces[pt].leaf)[v := MakePte(pn, perm)]
              else old(k.g.spaces[pt].leaf)
    ensures ok <==> Missing(old(k.g.spaces[pt]), v, v + 1) <= |old(k.g.free)|
    ensures ok ==> Paid(old(k.g), k.g, pt, v, v + 1, 0)
  {
    hide MakePte;
    hide Inv, UserBytes, MappedOwners, SameContents, OnlyPages, Missing, Paid;
    OnePage(v * PGSIZE);
    MulPage(v);
    assert PageFits(k.mem, k.g, pt, v, pn, perm, v);
    var r, n := k.MapPages(pt, v * PGSIZE, PGSIZE, pn, perm);
    MappedOnly(old(k.mem), old(k.g), k.mem, k.g, pt, v, n, pn, perm);
    ok := r == 0;
  }

  /** uvmunmap(pagetable, TRAMPOLINE or TRAPFRAME, 1, 0) */
  method UnmapTop(k: Kernel, pt: nat, v: nat)
    requires k.Valid() && pt in k.g.spaces && TRAPFRAME <= v < NVPN && v in k.g.spaces[pt].leaf
    modifies k
    ensures k.Valid() && Only(old(k.mem), old(k.g), k.mem, k.g, pt) && pt in k.g.spaces
    ensures k.g.spaces[pt].leaf == old(k.g.spaces[pt].leaf) - {v}
  {
    hide Inv, UserBytes, UnmappedOwners, UnmappedContents, OnlyPages;
    MulPage(v);
    k.UvmUnmap(pt, v * PGSIZE, 1, false);
    UnmappedOnly(old(k.mem), old(k.g), k.mem, k.g, pt, v, 1, false);
  }

  /** A page table with the trampoline and the trap frame: three pages. With fewer free, 0 and
      nothing changed. */
  method ProcPagetable(k: Kernel, trapframe: nat, trampoline: nat) returns (pt: nat)
    requires k.Valid()
    modifies k
    ensures k.Valid()
    ensures pt == 0 ==> Same(old(k.mem), old(k.g), k.mem, k.g)
    ensures pt != 0 ==> Only(old(k.mem), old(k.g), k.mem, k.g, pt) && pt !in old(k.g.spaces) && pt in k.g.spaces
    ensures pt != 0 ==> ProcLeaves(k.g.spaces[pt].leaf, 0, trapframe)
    ensures pt != 0 ==>
              k.g.spaces[pt].leaf == map[TRAMPOLINE := Pte(trampoline, RX), TRAPFRAME := Pte(trapframe, RW)]
    ensures pt != 0 <==> 3 <= |old(k.g.free)|
    ensures pt != 0 ==> |k.g.free| + 3 == |old(k.g.free)| && Bare(k.g.spaces[pt])
  {
    hide Inv, UserBytes, OnlyPages, Released, Same, Missing, Paid, Bare;
    SameRefl(k.mem, k.g);
    pt := UvmCreate(k);
    if pt == 0 {
      return;
    }
    ghost var m, h := k.mem, k.g;
    var ok := MapTop(k, pt, TRAMPOLINE, trampoline, RX);
    TopCost(h, k.g, pt, ok);
    OnlyTrans(old(k.mem), old(k.g), m, h, k.mem, k.g, pt);
    if !ok {
      m, h := k.mem, k.g;
      UvmFree(k, pt, 0);
      BuiltAndReleased(old(k.mem), old(k.g), m, h, k.mem, k.g, pt);
      return 0;
    }
    m, h := k.mem, k.g;
    ok := MapTop(k, pt, TRAPFRAME, trapframe, RW);
    OnlyTrans(old(k.mem), old(k.g), m, h, k.mem, k.g, pt);
    FrameCost(h, k.g, pt);
    if !ok {
      assert false;                                        // the tables are there: mappages cannot fail
    }
  }

  lemma TopCost(g: Ghost, g1: Ghost, pt: nat, ok: bool)
    requires pt in g.spaces && g.spaces[pt] == Space(map[], map[], map[])
    requires ok ==> Paid(g, g1, pt, TRAMPOLINE, TRAMPOLINE + 1, 0)
    ensures Missing(g.spaces[pt], TRAMPOLINE, TRAMPOLINE + 1) == 2
    ensures ok ==> Bare(g1.spaces[pt]) && |g1.free| + 2 == |g.free|
  {
    MissingOne(g.spaces[pt], TRAMPOLINE);
    OnePageTables(TRAMPOLINE);
    hide Missing, Lows, Mids;
  }

  /** The trap frame lies next to the trampoline and needs no table of its own. */
  lemma FrameCost(g: Ghost, g1: Ghost, pt: nat)
    requires pt in g.spaces && Bare(g.spaces[pt])
    ensures Missing(g.spaces[pt], TRAPFRAME, TRAPFRAME + 1) == 0
    ensures Paid(g, g1, pt, TRAPFRAME, TRAPFRAME + 1, 0) ==> Bare(g1.spaces[pt]) && |g1.free| == |g.free|
  {
    MissingOne(g.spaces[pt], TRAPFRAME);
    OnePageTables(TRAPFRAME);
    hide Missing, Lows, Mids;
  }

  lemma SameRefl(m: Memory, g: Ghost)
    requires Inv(m, g)
    ensures Same(m, g, m, g)
  {
  }

  /** Frees a process's page table and the physical memory it refers to. */
  method ProcFreePagetable(k: Kernel, pt: nat, sz: nat, ghost trapframe: nat)
    requires k.Valid() && pt in k.g.spaces && ProcLeaves(k.g.spaces[pt].leaf, sz, trapframe)
    modifies k
    ensures k.Valid() && Released(old(k.mem), old(k.g), k.mem, k.g, pt)
  {
    hide Inv, UserBytes, OnlyPages, Released;
    UnmapTop(k, pt, TRAMPOLINE);
    ghost var m, h := k.mem, k.g;
    UnmapTop(k, pt, TRAPFRAME);
    OnlyTrans(old(k.mem), old(k.g), m, h, k.mem, k.g, pt);
    m, h := k.mem, k.g;
    UvmFree(k, pt, sz);
    OnlyReleased(old(k.mem), old(k.g), m, h, k.mem, k.g, pt);
  }

  lemma OnlyReleased(m0: Memory, g0: Ghost, m1: Memory, g1: Ghost, m2: Memory, g2: Ghost, pt: nat)
    requires Only(m0, g0, m1, g1, pt) && Released(m1, g1, m2, g2, pt)
    ensures Released(m0, g0, m2, g2, pt)
  {
  }

  // ----- exec's new image -----

  /** User code may touch pages 0 .. n - 1. */
  ghost predicate AllUser(leaf: map<nat, Pte>, n: nat) {
    forall v :: 0 <= v < n && v in leaf ==> IsUser(leaf[v])
  }

  /** Marks a page as out of bounds for user code. */
  method UvmClear(k: Kernel, pt: nat, va: nat)
    requires k.Valid() && pt in k.g.spaces && va < MAXVA && va / PGSIZE in k.g.spaces[pt].leaf
    requires va / PGSIZE < TRAPFRAME
    modifies k
    ensures k.Valid() && Only(old(k.mem), old(k.g), k.mem, k.g, pt) && pt in k.g.spaces
    ensures var leaf, v := old(k.g.spaces[pt].leaf), va / PGSIZE;
            k.g.spaces[pt].leaf == leaf[v := leaf[v].(flags := leaf[v].flags.(u := false))]
    ensures SameContents(old(k.mem), old(k.g.own), k.mem)
  {
    hide Inv, UserBytes, OnlyPages;
    LeafPage(k.mem, k.g, pt, va / PGSIZE);
    EntryIsLeaf(k.mem, k.g, pt, va);
    var t := k.Walk(pt, va, false);
    assert t != 0;                                         // no panic
    var pte := k.mem[t].w[PX(0, va)];
    k.SetEntry(pt, va, t, pte.(flags := pte.flags.(u := false)));
    ClearOnly(old(k.mem), old(k.g), k.mem, k.g, pt, t);
  }

  lemma ClearOnly(m0: Memory, g0: Ghost, m1: Memory, g1: Ghost, pt: nat, t: nat)
    requires Inv(m0, g0) && g1.own == g0.own && pt in g0.spaces && pt in g1.spaces
    requires g1.spaces == g0.spaces[pt := g1.spaces[pt]]
    requires t in g0.own && g0.own[t].Low? && m1.Keys == m0.Keys && forall q :: q in m1 && q != t ==> m1[q] == m0[q]
    ensures Only(m0, g0, m1, g1, pt) && SameContents(m0, g0.own, m1)
  {
    hide FreeInv, SpaceInv, PlaceOk;
  }

  lemma UntouchedOnly(m0: Memory, m1: Memory, g: Ghost, pt: nat)
    requires Inv(m0, g) && Untouched(m0, m1, g.own, pt)
    ensures Only(m0, g, m1, g, pt)
  {
    hide FreeInv, SpaceInv, PlaceOk;
  }

  lemma WriteOnly(m0: Memory, m1: Memory, g: Ghost, pt: nat, p: nat)
    requires Inv(m0, g) && p in g.own && OwnedBy(g.own[p], pt) && p in m1 && m1 == m0[p := m1[p]]
    ensures Only(m0, g, m1, g, pt)
  {
    hide FreeInv, SpaceInv, PlaceOk;
  }

  /** Reads filesz bytes of a program into memory from va on, page by page. */
  method LoadSeg(k: Kernel, pt: nat, va: nat, data: seq<nat>, filesz: nat) returns (ok: bool)
    requires k.Valid() && pt in k.g.spaces && va % PGSIZE == 0
    requires forall a :: va <= a < va + filesz ==> Reachable(k.g.spaces[pt], a)
    modifies k
    ensures k.Valid() && k.g == old(k.g) && Only(old(k.mem), old(k.g), k.mem, k.g, pt)
    ensures ok <==> |data| >= filesz
    ensures ok ==> AllBytes(old(k.mem), k.g) && AllBytes(k.mem, k.g)
    ensures ok ==> WroteAll(old(k.mem), k.mem, k.g, pt, va, data[..filesz])
  {
    hide Inv, UserBytes, OnlyPages, HasBytes, Wrote;
    OnlyRefl(k.mem, k.g, pt);
    WroteNothing(k, pt, va);
    var i := 0;
    while i < filesz
      invariant (i <= filesz && i % PGSIZE == 0 && i <= |data|) || (i >= filesz && |data| >= filesz)
      invariant i % PGSIZE == 0
      invariant k.Valid() && k.g == old(k.g) && Only(old(k.mem), old(k.g), k.mem, k.g, pt)
      invariant AllBytes(old(k.mem), k.g) && AllBytes(k.mem, k.g)
      invariant WroteAll(old(k.mem), k.mem, k.g, pt, va, data[..if i <= filesz then i else filesz])
    {
      var p := WalkAddr(k, pt, va + i);
      assert Reachable(k.g.spaces[pt], va + i);
      assert p != 0;                                       // no panic
      var n := if filesz - i < PGSIZE then filesz - i else PGSIZE;
      var chunk := data[i..if i + n <= |data| then i + n else |data|];
      ghost var m := k.mem;
      LeafPage(k.mem, k.g, pt, (va + i) / PGSIZE);
      WritePage(k, pt, va + i, p, chunk);
      WriteOnly(m, k.mem, k.g, pt, p);
      OnlyTrans(old(k.mem), old(k.g), m, k.g, k.mem, k.g, pt);
      if |chunk| != n {
        return false;
      }
      WroteAllMore(old(k.mem), m, k.mem, k.g, pt, va, data[..i], chunk);
      assert data[..i] + chunk == data[..i + n];
      i := i + PGSIZE;
    }
    return true;
  }

  // ----- Processes -----

  datatype Proc = Proc(pagetable: nat, sz: nat, trapframe: nat)

  ghost predicate ProcOk(g: Ghost, q: Proc, i: nat, spaceOf: map<nat, nat>, frameOf: map<nat, nat>) {
    && q.pagetable in g.spaces && q.pagetable in spaceOf && spaceOf[q.pagetable] == i
    && ProcLeaves(g.spaces[q.pagetable].leaf, q.sz, q.trapframe)
    && q.trapframe in g.own && g.own[q.trapframe] == Held && q.trapframe in frameOf && frameOf[q.trapframe] == i
  }

  /** Every process has its own page table and trap frame, and there are no others: each page
      is free, or a trap frame, or part of an address space, of exactly one process. */
  ghost predicate Accounted(g: Ghost, procs: map<nat, Proc>, spaceOf: map<nat, nat>, frameOf: map<nat, nat>) {
    && (forall i :: i in procs ==> ProcOk(g, procs[i], i, spaceOf, frameOf))
    && SpacesUsed(g, procs, spaceOf) && FramesUsed(g, procs, frameOf)
  }

  ghost predicate SpacesUsed(g: Ghost, procs: map<nat, Proc>, spaceOf: map<nat, nat>) {
    forall id :: id in g.spaces ==> id in spaceOf && spaceOf[id] in procs && procs[spaceOf[id]].pagetable == id
  }

  ghost predicate FramesUsed(g: Ghost, procs: map<nat, Proc>, frameOf: map<nat, nat>) {
    forall p :: p in g.own && g.own[p] == Held ==>
        p in frameOf && frameOf[p] in procs && procs[frameOf[p]].trapframe == p
  }

  /** Without processes all memory is free: nothing leaks, whatever ran before. */
  lemma AllFree(m: Memory, g: Ghost, spaceOf: map<nat, nat>, frameOf: map<nat, nat>)
    requires Inv(m, g) && Accounted(g, map[], spaceOf, frameOf)
    ensures g.spaces == map[] && forall p :: p in g.own ==>
              g.own[p].Free? && g.own[p].depth < |g.free| && g.free[g.own[p].depth] == p
  {
    assert forall p :: p in g.own ==> PlaceOk(g, p, g.own[p]);
  }

  lemma SameAccounted(m0: Memory, g0: Ghost, m1: Memory, g1: Ghost, procs: map<nat, Proc>, spaceOf: map<nat, nat>,
                      frameOf: map<nat, nat>)
    requires Same(m0, g0, m1, g1) && Accounted(g0, procs, spaceOf, frameOf)
    ensures Accounted(g1, procs, spaceOf, frameOf)
  {
    hide ProcLeaves;
    assert forall i :: i in procs ==> ProcOk(g0, procs[i], i, spaceOf, frameOf) ==>
        ProcOk(g1, procs[i], i, spaceOf, frameOf);
  }

  lemma ResizeAccounted(m0: Memory, g0: Ghost, m1: Memory, g1: Ghost, procs: map<nat, Proc>, i: nat, sz: nat,
                        spaceOf: map<nat, nat>, frameOf: map<nat, nat>)
    requires i in procs && Accounted(g0, procs, spaceOf, frameOf) && Only(m0, g0, m1, g1, procs[i].pagetable)
    requires procs[i].pagetable in g1.spaces && ProcLeaves(g1.spaces[procs[i].pagetable].leaf, sz, procs[i].trapframe)
    ensures Accounted(g1, procs[i := procs[i].(sz := sz)], spaceOf, frameOf)
  {
    hide ProcLeaves;
    var pt := procs[i].pagetable;
    assert ProcOk(g0, procs[i], i, spaceOf, frameOf);
    var procs' := procs[i := procs[i].(sz := sz)];
    forall j | j in procs'
      ensures ProcOk(g1, procs'[j], j, spaceOf, frameOf)
    {
      assert ProcOk(g0, procs[j], j, spaceOf, frameOf);
    }
  }

  /** A process that uses another page table is not concerned. */
  lemma OnlyKeeps(m0: Memory, g0: Ghost, m1: Memory, g1: Ghost, pt: nat, q: Proc, i: nat, spaceOf: map<nat, nat>,
                  frameOf: map<nat, nat>, j: nat)
    requires ProcOk(g0, q, i, spaceOf, frameOf) && Only(m0, g0, m1, g1, pt) && q.pagetable != pt
    ensures ProcOk(g1, q, i, spaceOf[pt := j], frameOf)
  {
    hide ProcLeaves;
  }

  lemma ReleasedKeeps(m0: Memory, g0: Ghost, m1: Memory, g1: Ghost, pt: nat, q: Proc, i: nat, spaceOf: map<nat, nat>,
                      frameOf: map<nat, nat>)
    requires ProcOk(g0, q, i, spaceOf, frameOf) && Released(m0, g0, m1, g1, pt) && q.pagetable != pt
    ensures ProcOk(g1, q, i, spaceOf, frameOf)
  {
    hide ProcLeaves;
  }

  /** A new process j, with a trap frame tf that was free and a page table pt that was not there. */
  lemma FramesCreated(m1: Memory, g0: Ghost, g1: Ghost, m2: Memory, g2: Ghost, procs: map<nat, Proc>, j: nat,
                      pt: nat, tf: nat, frameOf: map<nat, nat>)
    requires j !in procs && FramesUsed(g0, procs, frameOf) && g1.own == g0.own[tf := Held] && Only(m1, g1, m2, g2, pt)
    ensures FramesUsed(g2, procs[j := Proc(pt, 0, tf)], frameOf[tf := j])
  {
  }

  lemma SpacesCreated(m1: Memory, g1: Ghost, m2: Memory, g2: Ghost, procs: map<nat, Proc>, j: nat, pt: nat, tf: nat,
                      spaceOf: map<nat, nat>)
    requires j !in procs && SpacesUsed(g1, procs, spaceOf) && Only(m1, g1, m2, g2, pt)
    ensures SpacesUsed(g2, procs[j := Proc(pt, 0, tf)], spaceOf[pt := j])
  {
    hide OnlyPages;
  }

  lemma CreateAccounted(m0: Memory, g0: Ghost, m1: Memory, g1: Ghost, m2: Memory, g2: Ghost, procs: map<nat, Proc>,
                        j: nat, pt: nat, tf: nat, spaceOf: map<nat, nat>, frameOf: map<nat, nat>)
    requires j !in procs && Accounted(g0, procs, spaceOf, frameOf) && tf in g0.own && g0.own[tf].Free?
    requires g1.spaces == g0.spaces && g1.own == g0.own[tf := Held] && Only(m1, g1, m2, g2, pt)
    requires pt !in g1.spaces && pt in g2.spaces && ProcLeaves(g2.spaces[pt].leaf, 0, tf)
    ensures Accounted(g2, procs[j := Proc(pt, 0, tf)], spaceOf[pt := j], frameOf[tf := j])
  {
    var procs' := procs[j := Proc(pt, 0, tf)];
    FramesCreated(m1, g0, g1, m2, g2, procs, j, pt, tf, frameOf);
    assert SpacesUsed(g1, procs, spaceOf);
    SpacesCreated(m1, g1, m2, g2, procs, j, pt, tf, spaceOf);
    hide ProcLeaves, FramesUsed, SpacesUsed;
    forall i | i in procs'
      ensures ProcOk(g2, procs'[i], i, spaceOf[pt := j], frameOf[tf := j])
    {
      if i != j {
        assert ProcOk(g0, procs[i], i, spaceOf, frameOf);
        assert ProcOk(g1, procs[i], i, spaceOf, frameOf[tf := j]);
        OnlyKeeps(m1, g1, m2, g2, pt, procs[i], i, spaceOf, frameOf[tf := j], j);
      }
    }
  }

  lemma RemoveAccounted(m0: Memory, g0: Ghost, g1: Ghost, m1: Memory, m2: Memory, g2: Ghost, procs: map<nat, Proc>,
                        j: nat, spaceOf: map<nat, nat>, frameOf: map<nat, nat>)
    requires j in procs && Accounted(g0, procs, spaceOf, frameOf) && g1 == Freed(g0, procs[j].trapframe)
    requires Released(m1, g1, m2, g2, procs[j].pagetable)
    ensures Accounted(g2, procs - {j}, spaceOf, frameOf)
  {
    hide ProcLeaves;
    var procs' := procs - {j};
    assert ProcOk(g0, procs[j], j, spaceOf, frameOf);
    forall i | i in procs'
      ensures ProcOk(g2, procs'[i], i, spaceOf, frameOf)
    {
      assert ProcOk(g0, procs[i], i, spaceOf, frameOf);
    }
  }

  /** Process i has moved from its page table to a new one, pt. */
  lemma FramesReplaced(m0: Memory, g0: Ghost, m1: Memory, g1: Ghost, m2: Memory, g2: Ghost, procs: map<nat, Proc>,
                       i: nat, pt: nat, sz: nat, frameOf: map<nat, nat>)
    requires i in procs && FramesUsed(g0, procs, frameOf) && Only(m0, g0, m1, g1, pt)
    requires Released(m1, g1, m2, g2, procs[i].pagetable)
    ensures FramesUsed(g2, procs[i := Proc(pt, sz, procs[i].trapframe)], frameOf)
  {
  }

  lemma SpacesReplaced(m0: Memory, g0: Ghost, m1: Memory, g1: Ghost, m2: Memory, g2: Ghost, procs: map<nat, Proc>,
                       i: nat, pt: nat, sz: nat, spaceOf: map<nat, nat>)
    requires i in procs && SpacesUsed(g0, procs, spaceOf) && Only(m0, g0, m1, g1, pt)
    requires Released(m1, g1, m2, g2, procs[i].pagetable)
    ensures SpacesUsed(g2, procs[i := Proc(pt, sz, procs[i].trapframe)], spaceOf[pt := i])
  {
    hide OnlyPages;
  }

  lemma ReplacedProc(m0: Memory, g0: Ghost, m1: Memory, g1: Ghost, m2: Memory, g2: Ghost, procs: map<nat, Proc>,
                     i: nat, pt: nat, sz: nat, spaceOf: map<nat, nat>, frameOf: map<nat, nat>, j: nat)
    requires i in procs && j in procs && Only(m0, g0, m1, g1, pt) && pt !in g0.spaces && pt in g1.spaces
    requires ProcOk(g0, procs[i], i, spaceOf, frameOf) && ProcOk(g0, procs[j], j, spaceOf, frameOf)
    requires ProcLeaves(g1.spaces[pt].leaf, sz, procs[i].trapframe) && Released(m1, g1, m2, g2, procs[i].pagetable)
    ensures ProcOk(g2, if j == i then Proc(pt, sz, procs[i].trapframe) else procs[j], j, spaceOf[pt := i], frameOf)
  {
    hide ProcLeaves;
    if j != i {
      OnlyKeeps(m0, g0, m1, g1, pt, procs[j], j, spaceOf, frameOf, i);
      ReleasedKeeps(m1, g1, m2, g2, procs[i].pagetable, procs[j], j, spaceOf[pt := i], frameOf);
    }
  }

  lemma ReplaceAccounted(m0: Memory, g0: Ghost, m1: Memory, g1: Ghost, m2: Memory, g2: Ghost, procs: map<nat, Proc>,
                         i: nat, pt: nat, sz: nat, spaceOf: map<nat, nat>, frameOf: map<nat, nat>)
    requires i in procs && Accounted(g0, procs, spaceOf, frameOf) && Only(m0, g0, m1, g1, pt)
    requires pt !in g0.spaces && pt in g1.spaces
    requires ProcLeaves(g1.spaces[pt].leaf, sz, procs[i].trapframe) && Released(m1, g1, m2, g2, procs[i].pagetable)
    ensures Accounted(g2, procs[i := Proc(pt, sz, procs[i].trapframe)], spaceOf[pt := i], frameOf)
  {
    FramesReplaced(m0, g0, m1, g1, m2, g2, procs, i, pt, sz, frameOf);
    SpacesReplaced(m0, g0, m1, g1, m2, g2, procs, i, pt, sz, spaceOf);
    hide ProcLeaves, FramesUsed, SpacesUsed, Only, Released, ProcOk;
    var procs' := procs[i := Proc(pt, sz, procs[i].trapframe)];
    forall j | j in procs'
      ensures ProcOk(g2, procs'[j], j, spaceOf[pt := i], frameOf)
    {
      ReplacedProc(m0, g0, m1, g1, m2, g2, procs, i, pt, sz, spaceOf, frameOf, j);
    }
  }
}
