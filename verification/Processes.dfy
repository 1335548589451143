/** The process table as owner of memory: allocproc, freeproc, fork and growproc
    (kernel/proc.c) and exec (kernel/exec.c), as far as memory is concerned. */
module Processes {
  import opened Sv39
  import opened PageTables
  import opened PageBudget
  import opened KernelMemory
  import opened UserMemory
  import opened UserCopy
  import opened ProcessMemory
  import opened ExecImage
  import opened ExecCode

  /** The value of an int expression stored in a uint. */
  function Uint(x: int): nat { x % 0x1_0000_0000 }

  const NPROC: nat := 64

  /** No slot of the process table is unused. */
  ghost predicate Full(procs: map<nat, Proc>) { forall j: nat :: j < NPROC ==> j in procs }

  datatype Op =
    | Create | Fork(i: nat) | Grow(i: nat, n: int)
    | Exec(i: nat, segs: seq<Segment>, argv: seq<seq<nat>>) | Exit(i: nat)

  class ProcTable {
    const k: Kernel
    const trampoline: nat
    var procs: map<nat, Proc>
    ghost var spaceOf: map<nat, nat>
    ghost var frameOf: map<nat, nat>

    ghost predicate Valid()
      reads this, k
    {
      k.Valid() && Accounted(k.g, procs, spaceOf, frameOf) && forall i :: i in procs ==> i < NPROC
    }

    constructor (kernel: Kernel, code: nat)
      requires kernel.Valid() && kernel.g.spaces == map[] && forall p :: p in kernel.g.own ==> kernel.g.own[p].Free?
      ensures Valid() && k == kernel && procs == map[]
    {
      k, trampoline, procs, spaceOf, frameOf := kernel, code, map[], map[], map[];
    }

    /** The first unused slot, or NPROC. */
    method FindUnused() returns (j: nat)
      ensures j <= NPROC && (j < NPROC ==> j !in procs) && forall i: nat :: i < j ==> i in procs
    {
      j := 0;
      while j < NPROC && j in procs
        invariant j <= NPROC && forall i: nat :: i < j ==> i in procs
      {
        j := j + 1;
      }
    }

    /** The memory of a new process in an unused slot, four pages; with fewer free, or without a slot,
        nothing. */
    method AllocProc() returns (ok: bool, j: nat)
      requires Valid()
      modifies this, k
      ensures Valid()
      ensures !ok ==> procs == old(procs) && Same(old(k.mem), old(k.g), k.mem, k.g)
      ensures ok ==> j < NPROC && j !in old(procs) && forall i: nat :: i < j ==> i in old(procs)
      ensures ok ==> j in procs && procs == old(procs)[j := procs[j]] && procs[j].sz == 0
      ensures ok ==> procs[j].pagetable !in old(k.g.spaces)
      ensures ok ==> k.g.spaces == old(k.g.spaces)[procs[j].pagetable := k.g.spaces[procs[j].pagetable]]
      ensures ok ==> Added(old(k.mem), old(k.g), k.mem, k.g, procs[j])
      ensures ok <==> !Full(old(procs)) && 4 <= |old(k.g.free)|
      ensures ok ==> |k.g.free| + 4 == |old(k.g.free)| && Bare(k.g.spaces[procs[j].pagetable])
    {
      hide Inv, UserBytes, Accounted, Same, Added, Bare;
      SameRefl(k.mem, k.g);
      j := FindUnused();
      if j == NPROC {
        return false, j;
      }
      ok := Equip(j);
    }

    /** allocproc from `found` on: a trap frame and a page table for slot j. */
    method Equip(j: nat) returns (ok: bool)
      requires Valid() && j !in procs && j < NPROC
      modifies this, k
      ensures Valid()
      ensures !ok ==> procs == old(procs) && Same(old(k.mem), old(k.g), k.mem, k.g)
      ensures ok ==> j in procs && procs == old(procs)[j := procs[j]] && procs[j].sz == 0
      ensures ok ==> procs[j].pagetable !in old(k.g.spaces)
      ensures ok ==> k.g.spaces == old(k.g.spaces)[procs[j].pagetable := k.g.spaces[procs[j].pagetable]]
      ensures ok ==> Added(old(k.mem), old(k.g), k.mem, k.g, procs[j])
      ensures ok <==> 4 <= |old(k.g.free)|
      ensures ok ==> |k.g.free| + 4 == |old(k.g.free)| && Bare(k.g.spaces[procs[j].pagetable])
    {
      hide Inv, UserBytes, Accounted, OnlyPages, Same, Filled, Bare;
      SameRefl(k.mem, k.g);
      if k.g.free != [] {
        HeadIsFree(k.mem, k.g);
      }
      var tf := k.Kalloc();
      if tf == 0 {
        return false;
      }
      ghost var m, h := k.mem, k.g;
      var pt := ProcPagetable(k, tf, trampoline);
      if pt == 0 {
        ghost var m2, h2 := k.mem, k.g;
        HeldAcross(m, h, k.mem, k.g, tf);
        k.Kfree(tf);
        k.g := Freed(k.g, tf);
        TakenAndFreed(old(k.mem), old(k.g), m, h, m2, h2, k.mem, k.g, tf);
        SameAccounted(old(k.mem), old(k.g), k.mem, k.g, procs, spaceOf, frameOf);
        return false;
      }
      CreateAccounted(old(k.mem), old(k.g), m, h, k.mem, k.g, procs, j, pt, tf, spaceOf, frameOf);
      IsAdded(old(k.mem), old(k.g), m, h, k.mem, k.g, pt, tf);
      procs := procs[j := Proc(pt, 0, tf)];
      spaceOf := spaceOf[pt := j];
      frameOf := frameOf[tf := j];
      return true;
    }

    /** All memory of process j becomes free, and nothing else changes. */
    method FreeProc(j: nat)
      requires Valid() && j in procs
      modifies this, k
      ensures Valid() && procs == old(procs) - {j}
      ensures ProcGone(old(k.mem), old(k.g), k.mem, k.g, old(procs)[j])
    {
      hide Inv, UserBytes, Released, ProcLeaves, SpacesUsed, FramesUsed, FreedPage;
      var q := procs[j];
      assert ProcOk(k.g, q, j, spaceOf, frameOf);
      k.Kfree(q.trapframe);
      k.g := Freed(k.g, q.trapframe);
      ghost var m, h := k.mem, k.g;
      ProcFreePagetable(k, q.pagetable, q.sz, q.trapframe);
      RemoveAccounted(old(k.mem), old(k.g), h, m, k.mem, k.g, procs, j, spaceOf, frameOf);
      IsGone(old(k.mem), old(k.g), m, h, k.mem, k.g, q);
      procs := procs - {j};
    }

    /** uvmcopy(p->pagetable, np->pagetable, p->sz), and np->sz = p->sz if it succeeds. */
    method CopyMemory(i: nat, j: nat) returns (c: int)
      requires Valid() && i in procs && j in procs && i != j && procs[j].sz == 0
      modifies this, k
      ensures Valid() && (c == 0 || c == -1)
      ensures procs == old(procs)[j := old(procs)[j].(sz := if c == 0 then old(procs)[i].sz else 0)]
      ensures procs[j].pagetable in old(k.g.spaces) && procs[j].pagetable in k.g.spaces
      ensures procs[i].pagetable in k.g.spaces
      ensures Only(old(k.mem), old(k.g), k.mem, k.g, procs[j].pagetable) && procs[i].pagetable != procs[j].pagetable
      ensures k.g.spaces == old(k.g.spaces)[procs[j].pagetable := k.g.spaces[procs[j].pagetable]]
      ensures c == 0 ==> Copies(k.mem, k.g.spaces[procs[i].pagetable].leaf, k.g.spaces[procs[j].pagetable].leaf,
                                NPages(procs[i].sz))
      ensures c == 0 <==> Affords(old(k.g), procs[j].pagetable, 0, NPages(procs[i].sz))
    {
      hide Inv, UserBytes, SpacesUsed, FramesUsed, Copies, Grown, Only, Affords, Paid;
      assert ProcOk(k.g, procs[j], j, spaceOf, frameOf) && ProcOk(k.g, procs[i], i, spaceOf, frameOf);
      c := UvmCopy(k, procs[i].pagetable, procs[j].pagetable, procs[i].sz);
      ghost var sz := if c == 0 then procs[i].sz else 0;
      CopiedLeaves(old(k.mem), old(k.g), k.mem, k.g, procs[j], sz);
      ResizeAccounted(old(k.mem), old(k.g), k.mem, k.g, procs, j, sz, spaceOf, frameOf);
      if c == 0 {
        procs := procs[j := procs[j].(sz := procs[i].sz)];
      } else {
        assert procs == procs[j := procs[j].(sz := 0)];
      }
    }

    /** Gives the new process j a copy of i's memory: four pages for allocproc, the pages of user
        memory, and the tables for those. With fewer free, or without a slot, fails and changes nothing. */
    method Fork(i: nat) returns (r: int, j: nat)
      requires Valid() && i in procs
      modifies this, k
      ensures Valid() && (r == 0 || r == -1)
      ensures r == -1 ==> procs == old(procs) && Same(old(k.mem), old(k.g), k.mem, k.g)
      ensures r == 0 ==> j !in old(procs) && j in procs && procs == old(procs)[j := procs[j]]
      ensures r == 0 ==> i in procs && procs[j].sz == procs[i].sz
      ensures r == 0 ==>
                && Added(old(k.mem), old(k.g), k.mem, k.g, procs[j])
                && procs[i].pagetable in k.g.spaces
                && k.g.spaces[procs[i].pagetable] == old(k.g.spaces[procs[i].pagetable])
                && procs[j].pagetable in k.g.spaces && procs[j].pagetable != procs[i].pagetable
                && Copies(k.mem, k.g.spaces[procs[i].pagetable].leaf, k.g.spaces[procs[j].pagetable].leaf,
                          NPages(procs[i].sz))
      ensures r == 0 <==> !Full(old(procs)) && 4 + UserPages(NPages(old(procs)[i].sz)) <= |old(k.g.free)|
    {
      hide Inv, UserBytes, Same, Added, ProcGone, SpacesUsed, FramesUsed, ProcLeaves, Copies, Only;
      hide Bare, Affords, UserPages, Full;
      assert ProcOk(k.g, procs[i], i, spaceOf, frameOf);
      var ok;
      ok, j := AllocProc();
      if !ok {
        return -1, j;
      }
      assert ProcOk(k.g, procs[j], j, spaceOf, frameOf) && ProcOk(k.g, procs[i], i, spaceOf, frameOf);
      ghost var m, h, q := k.mem, k.g, procs[j];
      FreeBound(k.mem, k.g, KERNBASE, PHYSTOP);
      BareAffords(k.g, q.pagetable, NPages(procs[i].sz));
      var c := CopyMemory(i, j);
      AddedMore(old(k.mem), old(k.g), m, h, k.mem, k.g, q);
      if c < 0 {
        ghost var m2, h2 := k.mem, k.g;
        assert procs == old(procs)[j := q];
        FreeProc(j);
        AddedAndGone(old(k.mem), old(k.g), m2, h2, k.mem, k.g, q);
        AddThenRemove(old(procs), j, q);
        return -1, j;
      }
      AddedResized(old(k.mem), old(k.g), k.mem, k.g, q, procs[j]);
      return 0, j;
    }

    /** Grows or shrinks process i by n bytes. Growing by more than the free pages afford fails and
        changes nothing. Shrinking by more than the process has succeeds and does nothing:
        the size wraps round to one that looks larger. */
    method GrowProc(i: nat, n: int) returns (r: int)
      requires Valid() && i in procs && -0x8000_0000 <= n < 0x8000_0000
      modifies this, k
      ensures Valid() && (r == 0 || r == -1)
      ensures r == 0 ==> procs == old(procs)[i := old(procs)[i].(sz := Resized(old(procs)[i].sz, n))]
      ensures r == -1 ==> n > 0 && procs == old(procs)
      ensures var pt, sz := old(procs)[i].pagetable, old(procs)[i].sz;
              n > 0 ==>
                && pt in old(k.g.spaces) && NPages(sz) <= NPages(sz + n)
                && (r == 0 <==> Affords(old(k.g), pt, NPages(sz), NPages(sz + n)))
      ensures var pt, sz := old(procs)[i].pagetable, old(procs)[i].sz;
              if n > 0 then
                && Grown(old(k.mem), old(k.g), k.mem, k.g, pt, NPages(sz),
                         if r == 0 then NPages(sz + n) else NPages(sz))
                && (r == 0 ==> ZeroPages(k.mem, k.g.spaces[pt].leaf, NPages(sz), NPages(sz + n)))
              else
                && NPages(Resized(sz, n)) <= NPages(sz)
                && PagesUnmapped(old(k.mem), old(k.g), k.mem, k.g, pt, NPages(Resized(sz, n)),
                                 NPages(sz) - NPages(Resized(sz, n)), true)
    {
      hide Inv, UserBytes, SpacesUsed, FramesUsed, Only, Grown, PagesUnmapped, ZeroPages, NPages, Uint, ProcLeaves;
      hide Affords, Paid;
      var q := procs[i];
      assert ProcOk(k.g, q, i, spaceOf, frameOf);
      LeavesSized(k.g.spaces[q.pagetable].leaf, q);
      SizeBound(k, q);
      UintIs(q.sz);
      UintIs(q.sz + n);
      var sz := Uint(q.sz);
      if n > 0 {
        Monotone(sz, sz + n);
        sz := UvmAlloc(k, q.pagetable, sz, Uint(sz + n));
        GrownLeaves(old(k.mem), old(k.g), k.mem, k.g, q, if sz != 0 then q.sz + n else q.sz);
        ResizeAccounted(old(k.mem), old(k.g), k.mem, k.g, procs, i, if sz != 0 then q.sz + n else q.sz, spaceOf,
                        frameOf);
        if sz == 0 {
          assert procs == procs[i := q.(sz := q.sz)];
          return -1;
        }
      } else if n < 0 {
        sz := UvmDealloc(k, q.pagetable, sz, Uint(sz + n));
        ShrunkLeaves(old(k.mem), old(k.g), k.mem, k.g, q, sz);
        ResizeAccounted(old(k.mem), old(k.g), k.mem, k.g, procs, i, sz, spaceOf, frameOf);
      } else {
        UnmapNone(k.mem, k.g, q.pagetable, NPages(sz), true);
        assert procs == procs[i := q.(sz := sz)];
      }
      procs := procs[i := q.(sz := sz)];
      return 0;
    }

    /** Replaces the address space of process i by one built from a program file; or, if the program is
        not runnable or there are too few free pages for its image, fails and leaves memory as it was. */
    method Exec(i: nat, segs: seq<Segment>, argv: seq<seq<nat>>) returns (r: int, sp: nat)
      requires Valid() && i in procs && forall x :: 0 <= x < |segs| ==> segs[x].vaddr < U64 && segs[x].memsz < U64
      requires forall x :: 0 <= x < |argv| ==> |argv[x]| < PGSIZE
      modifies this, k
      ensures Valid() && (r == |argv| || r == -1)
      ensures r == -1 ==> procs == old(procs) && Same(old(k.mem), old(k.g), k.mem, k.g)
      ensures r >= 0 ==> i in procs && procs == old(procs)[i := procs[i]]
      ensures r >= 0 ==> procs[i].trapframe == old(procs)[i].trapframe
      ensures r >= 0 ==> procs[i].pagetable !in old(k.g.spaces) && procs[i].pagetable in k.g.spaces
      ensures r >= 0 ==> Complete(k.mem, k.g.spaces[procs[i].pagetable], segs, argv, procs[i].sz, sp)
      ensures r >= 0 ==> Replaced(old(k.mem), old(k.g), k.mem, k.g, old(procs)[i].pagetable, procs[i].pagetable)
      ensures r >= 0 <==> Runnable(segs, argv) && ImagePages(segs) <= |old(k.g.free)|
    {
      hide Inv, UserBytes, SpacesUsed, FramesUsed, Only, Same, Released, Replaced, Shows, ProgramImage, WithArgs, Fit;
      hide Runnable, ImagePages, Guarded;
      var q := procs[i];
      assert ProcOk(k.g, q, i, spaceOf, frameOf);
      var pt, sz;
      pt, sz, sp := BuildImage(k, q.trapframe, trampoline, segs, argv);
      if pt == 0 {
        SameAccounted(old(k.mem), old(k.g), k.mem, k.g, procs, spaceOf, frameOf);
        return -1, sp;
      }
      ghost var m, h := k.mem, k.g;
      OldTableStays(old(k.mem), old(k.g), k.mem, k.g, pt, q.pagetable);
      procs := procs[i := Proc(pt, sz, q.trapframe)];
      ProcFreePagetable(k, q.pagetable, q.sz, q.trapframe);
      ReplaceAccounted(old(k.mem), old(k.g), m, h, k.mem, k.g, old(procs), i, pt, sz, spaceOf, frameOf);
      IsReplaced(old(k.mem), old(k.g), m, h, k.mem, k.g, q.pagetable, pt);
      ReleasedShows(m, h, k.mem, k.g, q.pagetable, pt, WithArgs(ProgramImage(segs), argv));
      spaceOf := spaceOf[pt := i];
      return |argv|, sp;
    }

    /** Any operation on processes, if it applies. */
    method Do(op: Op)
      requires Valid()
      modifies this, k
      ensures Valid()
    {
      match op
      case Create =>
        var _, _ := AllocProc();
      case Fork(i) =>
        if i in procs {
          var _, _ := Fork(i);
        }
      case Grow(i, n) =>
        if i in procs && -0x8000_0000 <= n < 0x8000_0000 {
          var _ := GrowProc(i, n);
        }
      case Exec(i, segs, argv) =>
        if && i in procs
           && (forall x :: 0 <= x < |segs| ==> segs[x].vaddr < U64 && segs[x].memsz < U64)
           && forall x :: 0 <= x < |argv| ==> |argv[x]| < PGSIZE {
          var _, _ := Exec(i, segs, argv);
        }
      case Exit(i) =>
        if i in procs {
          FreeProc(i);
        }
    }

    /** Conservation over every run: after any sequence of operations, and whichever of them
        ran out of memory, each page is free or belongs to exactly one process; once all
        processes are gone, all memory is free. */
    method Run(ops: seq<Op>)
      requires Valid()
      modifies this, k
      ensures Valid()
      ensures procs == map[] ==> k.g.spaces == map[] && forall p :: p in k.g.own ==> k.g.own[p].Free?
    {
      var x := 0;
      while x < |ops|
        invariant x <= |ops| && Valid()
      {
        Do(ops[x]);
        x := x + 1;
      }
      if procs == map[] {
        AllFree(k.mem, k.g, spaceOf, frameOf);
      }
    }
  }

  // ----- Replacing the image -----

  /** The old address space's pages are free or the new one's; the rest is as it was. */
  ghost predicate Replaced(m0: Memory, g0: Ghost, m1: Memory, g1: Ghost, from: nat, to: nat) {
    && g1.own.Keys == g0.own.Keys && from !in g1.spaces && to in g1.spaces
    && (forall id :: id != from && id != to ==>
          (id in g1.spaces <==> id in g0.spaces) && (id in g0.spaces ==> g1.spaces[id] == g0.spaces[id]))
    && forall p :: p in g0.own ==>
         if Mine(g0.own[p], from) then Mine(g1.own[p], to)
         else g1.own[p] == g0.own[p] && (g0.own[p].User? || g0.own[p].Held? ==> p in m0 && p in m1 && m1[p] == m0[p])
  }

  lemma IsReplaced(m0: Memory, g0: Ghost, m1: Memory, g1: Ghost, m2: Memory, g2: Ghost, from: nat, to: nat)
    requires Inv(m0, g0) && from != to && to !in g0.spaces && to in g1.spaces && Only(m0, g0, m1, g1, to)
    requires Released(m1, g1, m2, g2, from)
    ensures Replaced(m0, g0, m2, g2, from, to)
  {
    hide FreeInv, SpaceInv, PlaceOk;
    NothingOwned(m0, g0, to);
  }

  lemma OldTableStays(m0: Memory, g0: Ghost, m1: Memory, g1: Ghost, pt: nat, from: nat)
    requires Only(m0, g0, m1, g1, pt) && from in g0.spaces && pt !in g0.spaces
    ensures from in g1.spaces && g1.spaces[from] == g0.spaces[from]
  {
  }

  /** The size growproc sets. */
  function Resized(sz: nat, n: int): nat { if sz + n >= 0 then sz + n else sz }

  lemma UintIs(x: int)
    requires -0x8000_0000 <= x < 0x1_0000_0000
    ensures Uint(x) == if x >= 0 then x else x + 0x1_0000_0000
  {
  }

  lemma SizeBound(k: Kernel, q: Proc)
    requires k.Valid() && q.pagetable in k.g.spaces && Sized(k.g.spaces[q.pagetable].leaf, NPages(q.sz))
    ensures q.sz <= 0x800_0000 && NPages(q.sz) <= TRAPFRAME
  {
    hide Inv;
    UserPagesBound(k.mem, k.g, q.pagetable, NPages(q.sz));
    NPagesIs(q.sz);
  }

  lemma ShrunkLeaves(m0: Memory, g0: Ghost, m1: Memory, g1: Ghost, q: Proc, sz: nat)
    requires Inv(m0, g0) && Inv(m1, g1) && NPages(sz) <= NPages(q.sz)
    requires PagesUnmapped(m0, g0, m1, g1, q.pagetable, NPages(sz), NPages(q.sz) - NPages(sz), true)
    requires ProcLeaves(g0.spaces[q.pagetable].leaf, q.sz, q.trapframe)
    ensures q.pagetable in g1.spaces
    ensures ProcLeaves(g1.spaces[q.pagetable].leaf, sz, q.trapframe) && Only(m0, g0, m1, g1, q.pagetable)
  {
    hide Inv, UnmappedOwners, UnmappedContents, OnlyPages;
    UnmappedOnly(m0, g0, m1, g1, q.pagetable, NPages(sz), NPages(q.sz) - NPages(sz), true);
  }

  /** Apart from the pages of process q, memory is as it was. */
  ghost predicate Added(m0: Memory, g0: Ghost, m1: Memory, g1: Ghost, q: Proc) {
    && g1.own.Keys == g0.own.Keys && q.trapframe in g0.own && g0.own[q.trapframe].Free? && g1.own[q.trapframe] == Held
    && forall p :: p in g0.own && p != q.trapframe ==>
         if Mine(g0.own[p], q.pagetable) then Mine(g1.own[p], q.pagetable)
         else g1.own[p] == g0.own[p] && p in m0 && p in m1 && (g0.own[p].User? || g0.own[p].Held? ==> m1[p] == m0[p])
  }

  lemma IsAdded(m0: Memory, g0: Ghost, m1: Memory, g1: Ghost, m2: Memory, g2: Ghost, pt: nat, tf: nat)
    requires tf in g0.own && g0.own[tf].Free? && g1.spaces == g0.spaces && g1.own == g0.own[tf := Held] && tf in m0
    requires m1 == m0[tf := Filled(5)]
    requires Only(m1, g1, m2, g2, pt) && pt !in g1.spaces && pt in g2.spaces
    ensures Added(m0, g0, m2, g2, Proc(pt, 0, tf)) && g2.spaces == g0.spaces[pt := g2.spaces[pt]]
  {
  }

  lemma HeldAcross(m0: Memory, g0: Ghost, m1: Memory, g1: Ghost, p: nat)
    requires Same(m0, g0, m1, g1) && p in g0.own && g0.own[p] == Held
    ensures p in g1.own && g1.own[p] == Held && p in m1
  {
  }

  /** kalloc, something that leaves memory as it was, and kfree. */
  lemma TakenAndFreed(m0: Memory, g0: Ghost, m1: Memory, g1: Ghost, m2: Memory, g2: Ghost, m3: Memory, g3: Ghost,
                      tf: nat)
    requires tf in g0.own && g0.own[tf].Free? && g1.spaces == g0.spaces && g1.own == g0.own[tf := Held] && tf in m0
    requires m1 == m0[tf := Filled(5)]
    requires Same(m1, g1, m2, g2) && g3 == Freed(g2, tf) && tf in m3 && tf in m2 && m3 == m2[tf := m3[tf]]
    ensures Same(m0, g0, m3, g3)
  {
  }

  /** The pages of process q are free; the rest of memory is as it was. */
  ghost predicate ProcGone(m0: Memory, g0: Ghost, m1: Memory, g1: Ghost, q: Proc) {
    && g1.spaces == g0.spaces - {q.pagetable} && g1.own.Keys == g0.own.Keys
    && forall p :: p in g0.own ==>
         if p == q.trapframe || Mine(g0.own[p], q.pagetable) then g1.own[p].Free?
         else g1.own[p] == g0.own[p] && (g0.own[p].User? || g0.own[p].Held? ==> p in m0 && p in m1 && m1[p] == m0[p])
  }

  lemma IsGone(m0: Memory, g0: Ghost, m1: Memory, g1: Ghost, m2: Memory, g2: Ghost, q: Proc)
    requires q.trapframe in g0.own && g0.own[q.trapframe] == Held && q.trapframe in m1
    requires m1 == m0[q.trapframe := m1[q.trapframe]]
    requires g1 == Freed(g0, q.trapframe) && Released(m1, g1, m2, g2, q.pagetable)
    ensures ProcGone(m0, g0, m2, g2, q)
  {
  }

  lemma CopiedLeaves(m0: Memory, g0: Ghost, m1: Memory, g1: Ghost, q: Proc, sz: nat)
    requires Inv(m0, g0) && Inv(m1, g1) && Grown(m0, g0, m1, g1, q.pagetable, 0, NPages(sz)) && NPages(sz) <= TRAPFRAME
    requires ProcLeaves(g0.spaces[q.pagetable].leaf, 0, q.trapframe)
    ensures ProcLeaves(g1.spaces[q.pagetable].leaf, sz, q.trapframe) && Only(m0, g0, m1, g1, q.pagetable)
    ensures g1.spaces == g0.spaces[q.pagetable := g1.spaces[q.pagetable]]
  {
    hide Inv, GrownOwners, SameContents, OnlyPages;
    GrownOnly(m0, g0, m1, g1, q.pagetable, 0, NPages(sz));
  }

  lemma AddedMore(m0: Memory, g0: Ghost, m1: Memory, g1: Ghost, m2: Memory, g2: Ghost, q: Proc)
    requires Added(m0, g0, m1, g1, q) && Only(m1, g1, m2, g2, q.pagetable)
    ensures Added(m0, g0, m2, g2, q)
  {
  }

  lemma AddThenRemove(procs: map<nat, Proc>, j: nat, q: Proc)
    requires j !in procs
    ensures procs[j := q] - {j} == procs
  {
  }

  lemma AddedResized(m0: Memory, g0: Ghost, m1: Memory, g1: Ghost, q: Proc, q': Proc)
    requires Added(m0, g0, m1, g1, q) && q' == q.(sz := q'.sz)
    ensures Added(m0, g0, m1, g1, q')
  {
  }

  lemma AddedAndGone(m0: Memory, g0: Ghost, m1: Memory, g1: Ghost, m2: Memory, g2: Ghost, q: Proc)
    requires Inv(m0, g0) && q.pagetable !in g0.spaces && Added(m0, g0, m1, g1, q) && ProcGone(m1, g1, m2, g2, q)
    requires q.pagetable in g1.spaces && g1.spaces == g0.spaces[q.pagetable := g1.spaces[q.pagetable]] && Inv(m2, g2)
    ensures Same(m0, g0, m2, g2)
  {
    hide FreeInv, SpaceInv, PlaceOk;
    NothingOwned(m0, g0, q.pagetable);
  }
}
