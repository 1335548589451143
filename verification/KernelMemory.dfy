/** The page allocator of kernel/kalloc.c and the page-table routines of kernel/vm.c, over
    one memory. Every routine keeps the invariant of PageTables and says what it did to the
    map that each page table stands for.

    Routines run one at a time. A panic is a precondition: callers must rule it out, and the
    routines above them show that they do. */
module KernelMemory {
  import opened Sv39
  import opened PageTables
  import opened PageBudget

  const KERNBASE: nat := 0x8_0000          // as page numbers
  const PHYSTOP: nat := 0x8_8000

  /** memset(p, c, PGSIZE), for a page used as bytes. */
  function Filled(c: nat): Page { Bytes(seq(PGSIZE, _ => c)) }

  /** memset(p, 0, PGSIZE), for a page used as a table. */
  function ZeroTable(): Page { Entries(seq(512, _ => ZERO)) }

  /** What kfree makes of a page: junk behind a link to the next free page. */
  function FreedPage(next: nat): Page { Entries(seq(512, j => Pte(if j == 0 then next else 1, ZERO.flags))) }

  predicate IsBytes(page: Page) { page.Bytes? && |page.b| == PGSIZE }

  ghost predicate UserBytes(mem: Memory, own: map<nat, Owner>) {
    forall p :: p in own && own[p].User? ==> p in mem && IsBytes(mem[p])
  }

  /** The free list without its head, which the caller now holds. */
  ghost function Popped(g: Ghost): Ghost
    requires g.free != []
  {
    g.(free := g.free[..|g.free| - 1], own := g.own[FreeHead(g.free) := Held])
  }

  ghost function Freed(g: Ghost, p: nat): Ghost {
    g.(free := g.free + [p], own := g.own[p := Free(|g.free|)])
  }

  /** User and held pages keep their contents. */
  ghost predicate SameContents(m0: Memory, o0: map<nat, Owner>, m1: Memory) {
    forall p :: p in o0 && (o0[p].User? || o0[p].Held?) ==> p in m0 && p in m1 && m1[p] == m0[p]
  }

  lemma AllHeld(mem: Memory, g: Ghost)
    requires g.free == [] && g.spaces == map[] && 0 !in g.own && forall p :: p in g.own ==> p in mem && g.own[p] == Held
    ensures Inv(mem, g)
  {
  }

  lemma HeadIsFree(mem: Memory, g: Ghost)
    requires Inv(mem, g) && g.free != []
    ensures FreeHead(g.free) != 0 && TableAt(mem, g.own, FreeHead(g.free), Free(|g.free| - 1))
  {
    assert FreeAt(mem, g.own, g.free, |g.free| - 1);
  }

  // ----- walk -----

  /** t is the table that walk has reached for page v, with `level` levels to go. */
  ghost predicate AtLevel(sp: Space, pt: nat, v: nat, level: nat, t: nat) {
    if level == 2 then t == pt
    else if level == 1 then v / 512 / 512 in sp.mid && t == sp.mid[v / 512 / 512]
    else v / 512 in sp.low && t == sp.low[v / 512]
  }

  ghost predicate HasNext(sp: Space, v: nat, level: nat) {
    if level == 2 then v / 512 / 512 in sp.mid else v / 512 in sp.low
  }

  /** The entry that walk reads leads to the table one level down, if there is one. */
  lemma Descend(mem: Memory, g: Ghost, pt: nat, va: nat, level: nat, t: nat)
    requires Inv(mem, g) && pt in g.spaces && va < MAXVA && 1 <= level <= 2
    requires AtLevel(g.spaces[pt], pt, va / PGSIZE, level, t)
    ensures t in mem && mem[t].Entries? && |mem[t].w| == 512
    ensures var pte := mem[t].w[PX(level, va)];
            && (IsValid(pte) <==> HasNext(g.spaces[pt], va / PGSIZE, level))
            && (IsValid(pte) ==> AtLevel(g.spaces[pt], pt, va / PGSIZE, level - 1, pte.ppn))
  {
    hide FreeInv, OwnInv, LowOk, LeafOk;
    PXDigits(va);
    var k := va / PGSIZE / 512;
    assert SpaceInv(mem, g.own, pt, g.spaces[pt]);
    if level == 1 {
      assert MidOk(mem, g.own, pt, g.spaces[pt], k / 512);
      assert 512 * (k / 512) + k % 512 == k;
    }
  }

  lemma LowTableAt(mem: Memory, g: Ghost, pt: nat, k: nat)
    requires Inv(mem, g) && pt in g.spaces && k in g.spaces[pt].low
    ensures k / 512 in g.spaces[pt].mid && TableAt(mem, g.own, g.spaces[pt].low[k], Low(pt, k))
    ensures g.spaces[pt].low[k] != 0
  {
    assert SpaceInv(mem, g.own, pt, g.spaces[pt]);
    assert LowOk(mem, g.own, pt, g.spaces[pt], k);
  }

  lemma MissingTable(mem: Memory, g: Ghost, pt: nat, v: nat, level: nat)
    requires Inv(mem, g) && pt in g.spaces && 1 <= level <= 2 && !HasNext(g.spaces[pt], v, level)
    ensures v / 512 !in g.spaces[pt].low
  {
    if v / 512 in g.spaces[pt].low {
      LowTableAt(mem, g, pt, v / 512);
    }
  }

  /** What walk may do to a page table: take free pages for new tables. */
  ghost predicate Walked(m0: Memory, g0: Ghost, m1: Memory, g1: Ghost, pt: nat) {
    && pt in g0.spaces && pt in g1.spaces && g1.spaces == g0.spaces[pt := g1.spaces[pt]]
    && Extends(g0.spaces[pt], g1.spaces[pt]) && g1.free <= g0.free && g1.own.Keys == g0.own.Keys
    && SameContents(m0, g0.own, m1) && TablesFromFree(g0.own, g1.own, pt)
  }

  ghost predicate TablesFromFree(o0: map<nat, Owner>, o1: map<nat, Owner>, pt: nat) {
    forall p :: p in o0 && p in o1 && o1[p] != o0[p] ==> o0[p].Free? && (o1[p].Mid? || o1[p].Low?) && o1[p].id == pt
  }

  lemma WalkedRefl(m: Memory, g: Ghost, pt: nat)
    requires Inv(m, g) && pt in g.spaces
    ensures Walked(m, g, m, g, pt)
  {
  }

  lemma WalkedBytes(m0: Memory, g0: Ghost, m1: Memory, g1: Ghost, pt: nat)
    requires Walked(m0, g0, m1, g1, pt) && UserBytes(m0, g0.own)
    ensures UserBytes(m1, g1.own)
  {
  }

  lemma WalkedTrans(m0: Memory, g0: Ghost, m1: Memory, g1: Ghost, m2: Memory, g2: Ghost, pt: nat)
    requires Walked(m0, g0, m1, g1, pt) && Walked(m1, g1, m2, g2, pt)
    ensures Walked(m0, g0, m2, g2, pt)
  {
  }

  /** The ghost state after held page p became the next table on the way to page v. */
  ghost function Linked(g: Ghost, pt: nat, v: nat, level: nat, p: nat): Ghost
    requires pt in g.spaces
  {
    var sp := g.spaces[pt];
    if level == 2 then
      g.(own := g.own[p := Mid(pt, v / 512 / 512)], spaces := g.spaces[pt := sp.(mid := sp.mid[v / 512 / 512 := p])])
    else
      g.(own := g.own[p := Low(pt, v / 512)], spaces := g.spaces[pt := sp.(low := sp.low[v / 512 := p])])
  }

  lemma LinkTable(mem: Memory, g: Ghost, pt: nat, va: nat, level: nat, t: nat, p: nat, mem': Memory)
    requires Inv(mem, g) && pt in g.spaces && va < MAXVA && 1 <= level <= 2
    requires AtLevel(g.spaces[pt], pt, va / PGSIZE, level, t) && !HasNext(g.spaces[pt], va / PGSIZE, level)
    requires p in g.own && g.own[p] == Held && p in mem && IsZero(mem[p])
    requires t in mem && mem[t].Entries? && |mem[t].w| == 512
    requires mem' == mem[t := Entries(mem[t].w[PX(level, va) := Ptr(p)])]
    ensures Inv(mem', Linked(g, pt, va / PGSIZE, level, p))
  {
    PXDigits(va);
    var v := va / PGSIZE;
    assert SpaceInv(mem, g.own, pt, g.spaces[pt]);
    if level == 2 {
      LinkMid(mem, g, pt, v / 512 / 512, p, mem', Linked(g, pt, v, level, p));
    } else {
      assert MidOk(mem, g.own, pt, g.spaces[pt], v / 512 / 512);
      LinkLow(mem, g, pt, v / 512, p, mem', Linked(g, pt, v, level, p));
    }
  }

  lemma TableNotUser(mem: Memory, own: map<nat, Owner>, pt: nat, sp: Space, v: nat, level: nat, t: nat)
    requires SpaceInv(mem, own, pt, sp) && 1 <= level <= 2 && AtLevel(sp, pt, v, level, t)
    ensures t in own && (own[t].Top? || own[t].Mid?)
  {
    hide LowOk, LeafOk, TableRow;
    if level == 1 {
      assert MidOk(mem, own, pt, sp, v / 512 / 512);
    }
  }

  /** Taking a page from the free list and linking it in is within what walk may do. */
  lemma LinkedIsWalked(m0: Memory, g0: Ghost, pt: nat, v: nat, level: nat, t: nat, p: nat, m1: Memory)
    requires Inv(m0, g0) && pt in g0.spaces && 1 <= level <= 2 && g0.free != [] && p == FreeHead(g0.free)
    requires AtLevel(g0.spaces[pt], pt, v, level, t) && !HasNext(g0.spaces[pt], v, level)
    requires m1.Keys >= m0.Keys && forall q :: q in m0 && q != p && q != t ==> m1[q] == m0[q]
    ensures Walked(m0, g0, m1, Linked(Popped(g0), pt, v, level, p), pt)
  {
    hide FreeInv, SpaceInv, PlaceOk;
    HeadIsFree(m0, g0);
    TableNotUser(m0, g0.own, pt, g0.spaces[pt], v, level, t);
    var g1 := Linked(Popped(g0), pt, v, level, p);
    assert g1.own == g0.own[p := g1.own[p]];
    assert SameContents(m0, g0.own, m1);
    assert TablesFromFree(g0.own, g1.own, pt);
    assert Extends(g0.spaces[pt], g1.spaces[pt]);
  }

  /** From g0 to g1, walk has come down to `level` on its way to page v, making what was missing. */
  ghost predicate CameDown(g0: Ghost, g1: Ghost, pt: nat, v: nat, level: nat) {
    && pt in g0.spaces && pt in g1.spaces
    && var sp0, sp1 := g0.spaces[pt], g1.spaces[pt];
       && sp1.mid.Keys == sp0.mid.Keys + (if level < 2 then {v / 512 / 512} else {})
       && sp1.low.Keys == sp0.low.Keys + (if level < 1 then {v / 512} else {})
       && |g1.free| + (if level < 2 && v / 512 / 512 !in sp0.mid then 1 else 0)
                    + (if level < 1 && v / 512 !in sp0.low then 1 else 0) == |g0.free|
  }

  lemma AtTop(g: Ghost, pt: nat, v: nat)
    requires pt in g.spaces
    ensures CameDown(g, g, pt, v, 2)
  {
  }

  lemma OneLevelDown(g0: Ghost, g1: Ghost, g2: Ghost, pt: nat, v: nat, level: nat, p: nat)
    requires 1 <= level <= 2 && CameDown(g0, g1, pt, v, level)
    requires if HasNext(g1.spaces[pt], v, level) then g2 == g1
             else g1.free != [] && g2 == Linked(Popped(g1), pt, v, level, p)
    ensures CameDown(g0, g2, pt, v, level - 1)
  {
    var sp1, sp2 := g1.spaces[pt], g2.spaces[pt];
    if level == 2 {
      assert sp2.mid.Keys == sp1.mid.Keys + {v / 512 / 512};
    } else {
      assert sp2.low.Keys == sp1.low.Keys + {v / 512};
    }
  }

  lemma AtBottom(g0: Ghost, g1: Ghost, pt: nat, v: nat)
    requires CameDown(g0, g1, pt, v, 0)
    ensures Paid(g0, g1, pt, v, v + 1, 0)
  {
    OnePageTables(v);
    MissingOne(g0.spaces[pt], v);
    hide Lows, Mids, Missing;
  }

  /** Memory ran out on the way: there was too little for the tables that were missing. */
  lemma GotStuck(g0: Ghost, g1: Ghost, pt: nat, v: nat, level: nat)
    requires 1 <= level <= 2 && CameDown(g0, g1, pt, v, level) && !HasNext(g1.spaces[pt], v, level) && g1.free == []
    ensures |g0.free| < Missing(g0.spaces[pt], v, v + 1)
  {
    MissingOne(g0.spaces[pt], v);
    hide Missing;
  }

  // ----- mappages and uvmunmap -----

  /** The ghost state after entry pte was stored for page v: the pages of user memory change
      hands with their entries. */
  ghost function Stored(g: Ghost, pt: nat, v: nat, pte: Pte): Ghost
    requires pt in g.spaces
  {
    var sp := g.spaces[pt];
    var own :=
      if v >= TRAPFRAME || (v in sp.leaf && pte != ZERO) then g.own
      else if v in sp.leaf then g.own[sp.leaf[v].ppn := Held]
      else g.own[pte.ppn := User(pt, v)];
    g.(own := own, spaces := g.spaces[pt := sp.(leaf := WithLeaf(sp.leaf, v, pte))])
  }

  lemma StoredTables(g: Ghost, pt: nat, v: nat, pte: Pte)
    requires pt in g.spaces
    ensures var g1 := Stored(g, pt, v, pte);
            pt in g1.spaces && g1.free == g.free
            && g1.spaces[pt].mid == g.spaces[pt].mid && g1.spaces[pt].low == g.spaces[pt].low
  {
  }

  /** Entries that may be stored: none, where there was one; a page the kernel holds, where
      there was none; the same page with other flags; and anything but user pages on top. */
  ghost predicate CanStore(g: Ghost, pt: nat, v: nat, pte: Pte)
    requires pt in g.spaces
  {
    var sp := g.spaces[pt];
    && v < NVPN && v / 512 in sp.low
    && if v >= TRAPFRAME then pte == ZERO || (IsValid(pte) && IsLeaf(pte) && !IsUser(pte))
       else if v in sp.leaf then pte == ZERO || (IsValid(pte) && IsLeaf(pte) && pte.ppn == sp.leaf[v].ppn)
       else IsValid(pte) && IsLeaf(pte) && pte.ppn in g.own && g.own[pte.ppn] == Held
  }

  lemma StoreEntry(mem: Memory, g: Ghost, pt: nat, va: nat, t: nat, pte: Pte, mem': Memory)
    requires Inv(mem, g) && pt in g.spaces && va < MAXVA && CanStore(g, pt, va / PGSIZE, pte)
    requires t == g.spaces[pt].low[va / PGSIZE / 512] && t in mem && mem[t].Entries? && |mem[t].w| == 512
    requires mem' == mem[t := Entries(mem[t].w[PX(0, va) := pte])]
    ensures Inv(mem', Stored(g, pt, va / PGSIZE, pte))
  {
    var v := va / PGSIZE;
    var g' := Stored(g, pt, v, pte);
    PXDigits(va);
    assert LowOk(mem, g.own, pt, g.spaces[pt], v / 512) by {
      assert SpaceInv(mem, g.own, pt, g.spaces[pt]);
    }
    hide Inv, LowOk;
    assert EntryStored(mem, g.own, pt, g.spaces[pt], v, pte, mem', g'.spaces[pt]);
    if v >= TRAPFRAME || (v in g.spaces[pt].leaf && pte != ZERO) {
      StoreUnowned(mem, g, pt, v, pte, mem', g');
    } else if v in g.spaces[pt].leaf {
      UnmapUser(mem, g, pt, v, mem', g');
    } else {
      MapUser(mem, g, pt, v, pte, mem', g');
    }
  }

  lemma StoreBytes(mem: Memory, g: Ghost, pt: nat, v: nat, pte: Pte, t: nat, mem': Memory)
    requires pt in g.spaces && CanStore(g, pt, v, pte) && UserBytes(mem, g.own) && t in g.own && !g.own[t].User?
    requires !g.own[t].Held?
    requires v < TRAPFRAME && v !in g.spaces[pt].leaf ==> pte.ppn in mem && IsBytes(mem[pte.ppn])
    requires mem'.Keys >= mem.Keys && forall q :: q in mem && q != t ==> mem'[q] == mem[q]
    ensures UserBytes(mem', Stored(g, pt, v, pte).own)
  {
  }

  /** What walk finds at the table it reaches is the entry of the map. */
  lemma EntryIsLeaf(mem: Memory, g: Ghost, pt: nat, va: nat)
    requires Inv(mem, g) && pt in g.spaces && va < MAXVA && va / PGSIZE / 512 in g.spaces[pt].low
    ensures var t, v := g.spaces[pt].low[va / PGSIZE / 512], va / PGSIZE;
            && TableAt(mem, g.own, t, Low(pt, v / 512))
            && mem[t].w[PX(0, va)] == if v in g.spaces[pt].leaf then g.spaces[pt].leaf[v] else ZERO
  {
    PXDigits(va);
    var v := va / PGSIZE;
    assert SpaceInv(mem, g.own, pt, g.spaces[pt]);
    assert LowOk(mem, g.own, pt, g.spaces[pt], v / 512);
    assert 512 * (v / 512) + v % 512 == v;
  }

  /** Page v can be mapped to its page in the range that starts at pn. */
  ghost predicate PageFits(mem: Memory, g: Ghost, pt: nat, first: nat, pn: nat, perm: Flags, v: nat)
    requires pt in g.spaces && first <= v
  {
    && v < NVPN && v !in g.spaces[pt].leaf && IsLeaf(MakePte(pn, perm))
    && if v >= TRAPFRAME then !perm.u else
       var p := pn + (v - first);
       p in g.own && g.own[p] == Held && p in mem && IsBytes(mem[p])
  }

  /** leaf' is leaf with pages first .. first + n - 1 mapped to pn .. pn + n - 1. */
  ghost predicate RangeMapped(leaf: map<nat, Pte>, leaf': map<nat, Pte>, first: nat, n: nat, pn: nat, perm: Flags) {
    && (forall v :: v in leaf' <==> v in leaf || first <= v < first + n)
    && forall v :: v in leaf' ==>
        leaf'[v] == if first <= v < first + n then MakePte(pn + (v - first), perm) else leaf[v]
  }

  /** Ownership after the same step: user pages belong to the table now. */
  ghost predicate MappedOwners(o0: map<nat, Owner>, o1: map<nat, Owner>, pt: nat, first: nat, n: nat, pn: nat) {
    forall p :: p in o0 && p in o1 ==>
      if pn <= p < pn + n && first + (p - pn) < TRAPFRAME then o1[p] == User(pt, first + (p - pn))
      else o1[p] == o0[p] || (o0[p].Free? && (o1[p].Mid? || o1[p].Low?) && o1[p].id == pt)
  }

  ghost predicate PagesMapped(m0: Memory, g0: Ghost, m1: Memory, g1: Ghost, pt: nat, first: nat, n: nat, pn: nat,
                              perm: Flags) {
    && pt in g0.spaces && pt in g1.spaces && g1.spaces == g0.spaces[pt := g1.spaces[pt]]
    && RangeMapped(g0.spaces[pt].leaf, g1.spaces[pt].leaf, first, n, pn, perm)
    && g1.free <= g0.free && g1.own.Keys == g0.own.Keys
    && SameContents(m0, g0.own, m1) && MappedOwners(g0.own, g1.own, pt, first, n, pn)
  }

  lemma MapNone(m: Memory, g: Ghost, pt: nat, first: nat, pn: nat, perm: Flags)
    requires Inv(m, g) && pt in g.spaces
    ensures PagesMapped(m, g, m, g, pt, first, 0, pn, perm)
  {
  }

  lemma WalkKeepsMapped(m0: Memory, g0: Ghost, m1: Memory, g1: Ghost, m2: Memory, g2: Ghost, pt: nat, first: nat,
                        n: nat, pn: nat, perm: Flags)
    requires PagesMapped(m0, g0, m1, g1, pt, first, n, pn, perm) && Walked(m1, g1, m2, g2, pt)
    ensures PagesMapped(m0, g0, m2, g2, pt, first, n, pn, perm)
  {
    hide RangeMapped;
    assert g2.spaces[pt].leaf == g1.spaces[pt].leaf;
    assert MappedOwners(g0.own, g2.own, pt, first, n, pn);
    assert SameContents(m0, g0.own, m2);
  }

  /** The page after those mapped so far can still be mapped. */
  lemma NextFits(m0: Memory, g0: Ghost, m1: Memory, g1: Ghost, pt: nat, first: nat, n: nat, pn: nat, perm: Flags)
    requires PagesMapped(m0, g0, m1, g1, pt, first, n, pn, perm) && PageFits(m0, g0, pt, first, pn, perm, first + n)
    ensures PageFits(m1, g1, pt, first, pn, perm, first + n)
  {
    hide MakePte;
  }

  lemma MulPage(k: nat)
    ensures k * PGSIZE / PGSIZE == k
  {
  }

  lemma FitsCanStore(m1: Memory, g1: Ghost, pt: nat, first: nat, pn: nat, perm: Flags, n: nat)
    requires pt in g1.spaces && PageFits(m1, g1, pt, first, pn, perm, first + n)
    requires (first + n) / 512 in g1.spaces[pt].low
    ensures CanStore(g1, pt, first + n, MakePte(pn + n, perm))
    ensures first + n < TRAPFRAME ==> pn + n in m1 && IsBytes(m1[pn + n])
  {
    hide MakePte;
  }

  lemma StoreKeepsMapped(m0: Memory, g0: Ghost, m1: Memory, g1: Ghost, m2: Memory, g2: Ghost, pt: nat, first: nat,
                         n: nat, pn: nat, perm: Flags, t: nat)
    requires PagesMapped(m0, g0, m1, g1, pt, first, n, pn, perm) && PageFits(m1, g1, pt, first, pn, perm, first + n)
    requires PageFits(m0, g0, pt, first, pn, perm, first + n)
    requires g2 == Stored(g1, pt, first + n, MakePte(pn + n, perm)) && t in g1.own && g1.own[t].Low?
    requires m2.Keys >= m1.Keys && forall q :: q in m1 && q != t ==> m2[q] == m1[q]
    ensures PagesMapped(m0, g0, m2, g2, pt, first, n + 1, pn, perm)
  {
    hide MakePte;
    RangeMore(g0.spaces[pt].leaf, g1.spaces[pt].leaf, first, n, pn, perm);
    hide RangeMapped;
    OwnersMore(g0.own, g1.own, pt, first, n, pn);
    assert SameContents(m0, g0.own, m2);
    hide MappedOwners, SameContents;
  }

  lemma RangeMore(leaf: map<nat, Pte>, leaf1: map<nat, Pte>, first: nat, n: nat, pn: nat, perm: Flags)
    requires RangeMapped(leaf, leaf1, first, n, pn, perm)
    ensures RangeMapped(leaf, leaf1[first + n := MakePte(pn + n, perm)], first, n + 1, pn, perm)
  {
    hide MakePte;
  }

  lemma OwnersMore(o0: map<nat, Owner>, o1: map<nat, Owner>, pt: nat, first: nat, n: nat, pn: nat)
    requires MappedOwners(o0, o1, pt, first, n, pn)
    ensures var o2 := if first + n < TRAPFRAME then o1[pn + n := User(pt, first + n)] else o1;
            MappedOwners(o0, o2, pt, first, n + 1, pn)
  {
  }

  /** leaf' is leaf without pages first .. first + n - 1. */
  ghost predicate RangeUnmapped(leaf: map<nat, Pte>, leaf': map<nat, Pte>, first: nat, n: nat) {
    && (forall v :: v in leaf' <==> v in leaf && !(first <= v < first + n))
    && forall v :: v in leaf' ==> leaf'[v] == leaf[v]
  }

  predicate UserIn(o: Owner, pt: nat, first: nat, n: nat) { o.User? && o.id == pt && first <= o.v < first + n }

  /** The physical pages behind the range are free, or back in the caller's hands. */
  ghost predicate UnmappedOwners(o0: map<nat, Owner>, o1: map<nat, Owner>, pt: nat, first: nat, n: nat, doFree: bool) {
    forall p :: p in o0 && p in o1 ==>
      if UserIn(o0[p], pt, first, n) then (if doFree then o1[p].Free? else o1[p] == Held) else o1[p] == o0[p]
  }

  /** Pages outside the range keep their contents. */
  ghost predicate UnmappedContents(m0: Memory, o0: map<nat, Owner>, m1: Memory, pt: nat, first: nat, n: nat) {
    forall p :: p in o0 && (o0[p].User? || o0[p].Held?) && !UserIn(o0[p], pt, first, n) ==>
      p in m0 && p in m1 && m1[p] == m0[p]
  }

  ghost predicate PagesUnmapped(m0: Memory, g0: Ghost, m1: Memory, g1: Ghost, pt: nat, first: nat, n: nat,
                                doFree: bool) {
    && pt in g0.spaces && pt in g1.spaces && g1.spaces == g0.spaces[pt := g1.spaces[pt]] && g1.own.Keys == g0.own.Keys
    && RangeUnmapped(g0.spaces[pt].leaf, g1.spaces[pt].leaf, first, n)
    && UnmappedOwners(g0.own, g1.own, pt, first, n, doFree)
    && UnmappedContents(m0, g0.own, m1, pt, first, n)
    && |g1.free| == |g0.free| + if doFree then n else 0
  }

  lemma UnmapNone(m: Memory, g: Ghost, pt: nat, first: nat, doFree: bool)
    requires Inv(m, g) && pt in g.spaces
    ensures PagesUnmapped(m, g, m, g, pt, first, 0, doFree)
  {
  }

  /** The ghost state after page v was unmapped, and its page freed if asked for. */
  ghost function Dropped(g: Ghost, pt: nat, v: nat, doFree: bool): Ghost
    requires pt in g.spaces && v in g.spaces[pt].leaf
  {
    if doFree then Freed(Stored(g, pt, v, ZERO), g.spaces[pt].leaf[v].ppn) else Stored(g, pt, v, ZERO)
  }

  lemma LeafPage(mem: Memory, g: Ghost, pt: nat, v: nat)
    requires Inv(mem, g) && pt in g.spaces && v in g.spaces[pt].leaf
    ensures v < NVPN && v / 512 in g.spaces[pt].low && IsValid(g.spaces[pt].leaf[v]) && IsLeaf(g.spaces[pt].leaf[v])
    ensures v < TRAPFRAME ==> g.spaces[pt].leaf[v].ppn in g.own && g.own[g.spaces[pt].leaf[v].ppn] == User(pt, v)
    ensures v < TRAPFRAME ==> g.spaces[pt].leaf[v].ppn in mem && g.spaces[pt].leaf[v].ppn != 0
    ensures v >= TRAPFRAME ==> !IsUser(g.spaces[pt].leaf[v])
  {
    assert SpaceInv(mem, g.own, pt, g.spaces[pt]);
    assert LeafOk(g.own, pt, v, g.spaces[pt].leaf[v]);
  }

  /** kfree(pa) and *pte = 0, in this order, amount to unmapping the page and then freeing it. */
  lemma DropInv(mem: Memory, g: Ghost, pt: nat, va: nat, t: nat, doFree: bool, m1: Memory, mem': Memory)
    requires Inv(mem, g) && pt in g.spaces && va < MAXVA && va / PGSIZE in g.spaces[pt].leaf
    requires va / PGSIZE / 512 in g.spaces[pt].low
    requires t == g.spaces[pt].low[va / PGSIZE / 512] && (doFree ==> va / PGSIZE < TRAPFRAME)
    requires m1 == if doFree then mem[g.spaces[pt].leaf[va / PGSIZE].ppn := FreedPage(FreeHead(g.free))] else mem
    requires t in m1 && m1[t].Entries? && |m1[t].w| == 512 && mem' == m1[t := Entries(m1[t].w[PX(0, va) := ZERO])]
    ensures Inv(mem', Dropped(g, pt, va / PGSIZE, doFree))
  {
    hide Inv;
    var v := va / PGSIZE;
    var p := g.spaces[pt].leaf[v].ppn;
    LeafPage(mem, g, pt, v);
    EntryIsLeaf(mem, g, pt, va);
    var m2 := mem[t := Entries(mem[t].w[PX(0, va) := ZERO])];
    StoreEntry(mem, g, pt, va, t, ZERO, m2);
    if doFree {
      assert mem' == m2[p := FreedPage(FreeHead(g.free))];
      PushFree(m2, Stored(g, pt, v, ZERO), p, FreedPage(FreeHead(g.free)), mem', Dropped(g, pt, v, doFree));
    }
  }

  /** What unmapping page v, backed by p, does to the ghost state. */
  ghost predicate DropFacts(g: Ghost, g': Ghost, pt: nat, v: nat, doFree: bool, p: nat) {
    && pt in g.spaces && pt in g'.spaces && g'.own.Keys == g.own.Keys && g'.spaces == g.spaces[pt := g'.spaces[pt]]
    && v in g.spaces[pt].leaf && g.spaces[pt].leaf[v].ppn == p && g'.spaces[pt].leaf == g.spaces[pt].leaf - {v}
    && (v < TRAPFRAME ==>
         p in g.own && g.own[p] == User(pt, v) && if doFree then g'.own[p].Free? else g'.own[p] == Held)
    && (forall q :: q in g.own && (q != p || v >= TRAPFRAME) ==> g'.own[q] == g.own[q])
    && g'.free == g.free + if doFree then [p] else []
  }

  lemma DroppedFacts(mem: Memory, g: Ghost, pt: nat, v: nat, doFree: bool)
    requires Inv(mem, g) && pt in g.spaces && v in g.spaces[pt].leaf && (doFree ==> v < TRAPFRAME)
    ensures DropFacts(g, Dropped(g, pt, v, doFree), pt, v, doFree, g.spaces[pt].leaf[v].ppn)
  {
    hide Inv;
    LeafPage(mem, g, pt, v);
  }

  lemma DropBytes(mem: Memory, g: Ghost, g': Ghost, pt: nat, v: nat, doFree: bool, p: nat, t: nat, mem': Memory)
    requires UserBytes(mem, g.own) && DropFacts(g, g', pt, v, doFree, p)
    requires t in g.own && g.own[t].Low? && (doFree ==> v < TRAPFRAME) && mem'.Keys >= mem.Keys
    requires forall q :: q in mem && q != t && !(doFree && q == p) ==> mem'[q] == mem[q]
    ensures UserBytes(mem', g'.own)
  {
  }

  lemma DropMore(m0: Memory, g0: Ghost, m1: Memory, g1: Ghost, m2: Memory, g2: Ghost, pt: nat, first: nat, n: nat,
                 doFree: bool, p: nat, t: nat)
    requires PagesUnmapped(m0, g0, m1, g1, pt, first, n, doFree) && DropFacts(g1, g2, pt, first + n, doFree, p)
    requires forall q :: q in g0.own && g0.own[q] == User(pt, first + n) ==> q == p && first + n < TRAPFRAME
    requires t in g1.own && g1.own[t].Low? && (doFree ==> first + n < TRAPFRAME) && m2.Keys >= m1.Keys
    requires forall q :: q in m1 && q != t && !(doFree && q == p) ==> m2[q] == m1[q]
    ensures PagesUnmapped(m0, g0, m2, g2, pt, first, n + 1, doFree)
  {
    assert RangeUnmapped(g0.spaces[pt].leaf, g2.spaces[pt].leaf, first, n + 1);
    hide RangeUnmapped;
    assert first + n < TRAPFRAME ==> g0.own[p] == User(pt, first + n);
    UnmapOwnersMore(g0.own, g1.own, g2.own, pt, first, n, doFree, p);
    UnmapContentsMore(m0, g0.own, m1, g1.own, m2, pt, first, n, doFree, p, t);
  }

  /** No other physical page is owned as page v. */
  lemma UserPageOnly(mem: Memory, g: Ghost, pt: nat, v: nat)
    requires Inv(mem, g) && pt in g.spaces && v in g.spaces[pt].leaf
    ensures forall q :: q in g.own && g.own[q] == User(pt, v) ==> q == g.spaces[pt].leaf[v].ppn
    ensures forall q :: q in g.own && g.own[q] == User(pt, v) ==> v < TRAPFRAME
  {
    hide SpaceInv, FreeInv;
    OneBacking(mem, g, pt, v);
    assert forall q :: q in g.own && g.own[q] == User(pt, v) ==> PlaceOk(g, q, g.own[q]);
  }

  lemma UnmapOwnersMore(o0: map<nat, Owner>, o1: map<nat, Owner>, o2: map<nat, Owner>, pt: nat, first: nat, n: nat,
                        doFree: bool, p: nat)
    requires UnmappedOwners(o0, o1, pt, first, n, doFree) && o1.Keys == o0.Keys && o2.Keys == o1.Keys
    requires forall q :: q in o0 && o0[q] == User(pt, first + n) ==> q == p && first + n < TRAPFRAME
    requires first + n < TRAPFRAME ==> p in o0 && o0[p] == User(pt, first + n)
    requires first + n < TRAPFRAME ==> if doFree then o2[p].Free? else o2[p] == Held
    requires forall q :: q in o1 && (q != p || first + n >= TRAPFRAME) ==> o2[q] == o1[q]
    ensures UnmappedOwners(o0, o2, pt, first, n + 1, doFree)
  {
  }

  lemma UnmapContentsMore(m0: Memory, o0: map<nat, Owner>, m1: Memory, o1: map<nat, Owner>, m2: Memory, pt: nat,
                          first: nat, n: nat, doFree: bool, p: nat, t: nat)
    requires UnmappedContents(m0, o0, m1, pt, first, n) && UnmappedOwners(o0, o1, pt, first, n, doFree)
    requires o1.Keys == o0.Keys
    requires t in o1 && o1[t].Low? && m2.Keys >= m1.Keys
    requires doFree ==> p in o0 && o0[p] == User(pt, first + n)
    requires forall q :: q in m1 && q != t && !(doFree && q == p) ==> m2[q] == m1[q]
    ensures UnmappedContents(m0, o0, m2, pt, first, n + 1)
  {
  }

  class Kernel {
    const endPage: nat                     // the first page after the kernel
    var mem: Memory
    var freelist: nat
    ghost var g: Ghost

    ghost predicate Valid()
      reads this
    {
      && KERNBASE <= endPage && (forall p :: p in g.own <==> endPage <= p < PHYSTOP)
      && Inv(mem, g) && freelist == FreeHead(g.free) && UserBytes(mem, g.own)
    }

    method Kalloc() returns (p: nat)
      requires Valid()
      modifies `mem, `freelist, `g
      ensures Valid() && (p == 0 <==> old(g.free) == [])
      ensures p == 0 ==> mem == old(mem) && g == old(g)
      ensures p != 0 ==> p == FreeHead(old(g.free)) && mem == old(mem)[p := Filled(5)] && g == Popped(old(g))
    {
      hide SpaceInv, OwnInv;
      p := freelist;
      if p != 0 {
        assert FreeAt(mem, g.own, g.free, |g.free| - 1);
        freelist := mem[p].w[0].ppn;
        mem := mem[p := Filled(5)];
        PopFree(old(mem), g, Filled(5), mem, Popped(g));
        g := Popped(g);
      } else {
        assert g.free != [] ==> FreeAt(mem, g.own, g.free, |g.free| - 1);
      }
    }

    /** The caller gives up page p: if it was held, the ghost state may record it as free. */
    method Kfree(p: nat)
      requires endPage <= p < PHYSTOP
      modifies `mem, `freelist
      ensures mem == old(mem)[p := FreedPage(old(freelist))] && freelist == p
      ensures old(Valid()) && g.own[p] == Held ==> Inv(mem, Freed(g, p)) && UserBytes(mem, Freed(g, p).own)
    {
      mem := mem[p := FreedPage(freelist)];
      freelist := p;
      if old(Valid()) && g.own[p] == Held {
        PushFree(old(mem), g, p, mem[p], mem, Freed(g, p));
      }
    }

    /** kinit: every page from `first` to PHYSTOP goes on the free list. */
    constructor (first: nat, ram: Memory)
      requires KERNBASE <= first <= PHYSTOP && forall p :: first <= p < PHYSTOP ==> p in ram
      ensures Valid() && endPage == first && g.spaces == map[]
      ensures |g.free| == PHYSTOP - first && forall p :: p in g.own ==> g.own[p].Free?
    {
      endPage := first;
      mem := ram;
      freelist := 0;
      g := Ghost(map p | p in ram && first <= p < PHYSTOP :: Held, [], map[]);
      new;
      hide SpaceInv, OwnInv;
      AllHeld(mem, g);
      var p := first;
      while p < PHYSTOP
        invariant first <= p <= PHYSTOP && Valid() && g.spaces == map[] && |g.free| == p - first
        invariant forall q :: q in g.own ==> if q < p then g.own[q].Free? else g.own[q] == Held
      {
        Kfree(p);
        g := Freed(g, p);
        p := p + 1;
      }
    }

    /** The part of walk's loop that makes a missing table. */
    method AddTable(pt: nat, va: nat, level: nat, t: nat) returns (p: nat)
      requires Valid() && pt in g.spaces && va < MAXVA && 1 <= level <= 2
      requires AtLevel(g.spaces[pt], pt, va / PGSIZE, level, t) && !HasNext(g.spaces[pt], va / PGSIZE, level)
      modifies `mem, `freelist, `g
      ensures Valid() && Walked(old(mem), old(g), mem, g, pt)
      ensures p == 0 ==> g == old(g) && mem == old(mem) && g.free == []
      ensures p != 0 ==> AtLevel(g.spaces[pt], pt, va / PGSIZE, level - 1, p)
      ensures p != 0 ==> old(g.free) != [] && g == Linked(Popped(old(g)), pt, va / PGSIZE, level, p)
    {
      hide Inv, UserBytes, SameContents, TablesFromFree, Filled;
      p := Kalloc();
      if p == 0 {
        WalkedRefl(mem, g, pt);
        return;
      }
      mem := mem[p := ZeroTable()];
      WriteHeld(old(mem)[p := Filled(5)], g, p, ZeroTable(), mem);
      ghost var m := mem;
      Descend(m, g, pt, va, level, t);
      mem := mem[t := Entries(mem[t].w[PX(level, va) := Ptr(p)])];
      LinkTable(m, g, pt, va, level, t, p, mem);
      LinkedIsWalked(old(mem), old(g), pt, va / PGSIZE, level, t, p, mem);
      g := Linked(g, pt, va / PGSIZE, level, p);
      WalkedBytes(old(mem), old(g), mem, g, pt);
    }

    /** The table that holds va's entry, or 0. With alloc, missing tables are made, and 0
        means that memory was too short for them. */
    method Walk(pt: nat, va: nat, alloc: bool) returns (t: nat)
      requires Valid() && pt in g.spaces && va < MAXVA
      modifies `mem, `freelist, `g
      ensures Valid() && Walked(old(mem), old(g), mem, g, pt)
      ensures t != 0 ==> AtLevel(g.spaces[pt], pt, va / PGSIZE, 0, t)
      ensures t == 0 ==> va / PGSIZE / 512 !in g.spaces[pt].low && (alloc ==> g.free == [])
      ensures !alloc ==> mem == old(mem) && g == old(g)
      ensures alloc ==> (t != 0 <==> Missing(old(g.spaces[pt]), va / PGSIZE, va / PGSIZE + 1) <= |old(g.free)|)
      ensures alloc && t != 0 ==> Paid(old(g), g, pt, va / PGSIZE, va / PGSIZE + 1, 0)
    {
      hide Inv, UserBytes, Extends, SameContents, TablesFromFree, CameDown, Missing, TablesFor;
      WalkedRefl(mem, g, pt);
      AtTop(g, pt, va / PGSIZE);
      t := pt;
      var level := 2;
      while level > 0
        invariant 0 <= level <= 2 && Valid() && Walked(old(mem), old(g), mem, g, pt)
        invariant AtLevel(g.spaces[pt], pt, va / PGSIZE, level, t)
        invariant if alloc then CameDown(old(g), g, pt, va / PGSIZE, level) else mem == old(mem) && g == old(g)
      {
        Descend(mem, g, pt, va, level, t);
        var pte := mem[t].w[PX(level, va)];
        ghost var h := g;
        if IsValid(pte) {
          t := pte.ppn;
        } else {
          MissingTable(mem, g, pt, va / PGSIZE, level);
          if !alloc {
            return 0;
          }
          ghost var m := mem;
          t := AddTable(pt, va, level, t);
          WalkedTrans(old(mem), old(g), m, h, mem, g, pt);
          if t == 0 {
            GotStuck(old(g), g, pt, va / PGSIZE, level);
            return;
          }
        }
        if alloc {
          OneLevelDown(old(g), h, g, pt, va / PGSIZE, level, t);
        }
        level := level - 1;
      }
      LowTableAt(mem, g, pt, va / PGSIZE / 512);
      if alloc {
        AtBottom(old(g), g, pt, va / PGSIZE);
      }
    }

    /** Stores an entry for va in the table t that walk found. */
    method SetEntry(pt: nat, va: nat, t: nat, pte: Pte)
      requires Valid() && pt in g.spaces && va < MAXVA && CanStore(g, pt, va / PGSIZE, pte)
      requires t == g.spaces[pt].low[va / PGSIZE / 512]
      requires va / PGSIZE < TRAPFRAME && va / PGSIZE !in g.spaces[pt].leaf ==> pte.ppn in mem && IsBytes(mem[pte.ppn])
      modifies `mem, `g
      ensures Valid() && g == Stored(old(g), pt, va / PGSIZE, pte)
      ensures t in old(g.own) && old(g.own)[t].Low?
      ensures mem.Keys == old(mem.Keys) && forall q :: q in mem && q != t ==> mem[q] == old(mem)[q]
    {
      hide Inv;
      EntryIsLeaf(mem, g, pt, va);
      mem := mem[t := Entries(mem[t].w[PX(0, va) := pte])];
      LeavesOf(old(mem), g, pt);
      StoreEntry(old(mem), g, pt, va, t, pte, mem);
      StoreBytes(old(mem), g, pt, va / PGSIZE, pte, t, mem);
      g := Stored(g, pt, va / PGSIZE, pte);
    }

    /** Maps the pages that cover va .. va + size - 1 to consecutive physical pages from pn:
        all of them, or, when there are too few free pages for their tables, the first n. */
    method MapPages(pt: nat, va: nat, size: nat, pn: nat, perm: Flags) returns (r: int, ghost n: nat)
      requires Valid() && pt in g.spaces && 0 < size && va + size <= MAXVA
      requires forall v :: va / PGSIZE <= v <= (va + size - 1) / PGSIZE ==>
                 PageFits(mem, g, pt, va / PGSIZE, pn, perm, v)
      modifies `mem, `freelist, `g
      ensures Valid() && PagesMapped(old(mem), old(g), mem, g, pt, va / PGSIZE, n, pn, perm)
      ensures r == 0 ==> n == (va + size - 1) / PGSIZE - va / PGSIZE + 1
      ensures r != 0 ==> r == -1 && g.free == [] && n <= (va + size - 1) / PGSIZE - va / PGSIZE
      ensures r == 0 <==>
                Missing(old(g.spaces[pt]), va / PGSIZE, (va + size - 1) / PGSIZE + 1) <= |old(g.free)|
      ensures r == 0 ==> Paid(old(g), g, pt, va / PGSIZE, (va + size - 1) / PGSIZE + 1, 0)
    {
      hide MakePte;
      hide Inv, UserBytes, RangeMapped, MappedOwners, Stored, PageFits, SameContents, Missing, TablesFor, Paid;
      hide PagesMapped, Extends, TablesFromFree;
      ghost var first := va / PGSIZE;
      var a := PGROUNDDOWN(va);
      var last := PGROUNDDOWN(va + size - 1);
      var pa := pn;
      n := 0;
      ghost var end := (va + size - 1) / PGSIZE + 1;
      MapNone(mem, g, pt, first, pn, perm);
      PaidNone(g, pt, first);
      while true
        invariant a == (first + n) * PGSIZE && a <= last && pa == pn + n
        invariant Valid() && pt in g.spaces && PagesMapped(old(mem), old(g), mem, g, pt, first, n, pn, perm)
        invariant Paid(old(g), g, pt, first, first + n, 0)
        decreases last - a
      {
        MulPage(first + n);
        assert PageFits(old(mem), old(g), pt, first, pn, perm, first + n);
        ghost var m, h := mem, g;
        var t := Walk(pt, a, true);
        WalkKeepsMapped(old(mem), old(g), m, h, mem, g, pt, first, n, pn, perm);
        if t == 0 {
          CannotPay(old(g), h, pt, first, first + n, first + n + 1, end, 0, 0);
          return -1, n;
        }
        PaidMore(old(g), h, g, pt, first, first + n, first + n + 1, 0, 0);
        NextFits(old(mem), old(g), mem, g, pt, first, n, pn, perm);
        FitsCanStore(mem, g, pt, first, pn, perm, n);
        m, h := mem, g;
        SetEntry(pt, a, t, MakePte(pa, perm));
        StoreKeepsMapped(old(mem), old(g), m, h, mem, g, pt, first, n, pn, perm, t);
        StoredTables(h, pt, first + n, MakePte(pa, perm));
        PaidStill(old(g), h, g, pt, first, first + n + 1, 0);
        n := n + 1;
        if a == last {
          break;
        }
        a := a + PGSIZE;
        pa := pa + 1;
      }
      PaidWithin(old(g), g, pt, first, end, 0);
      r := 0;
    }

    /** The body of uvmunmap's loop. None of its three panics happens. */
    method UnmapPage(pt: nat, a: nat, doFree: bool) returns (ghost t: nat, ghost p: nat)
      requires Valid() && pt in g.spaces && a < MAXVA && a / PGSIZE in g.spaces[pt].leaf
      requires (doFree ==> a / PGSIZE < TRAPFRAME)
      modifies `mem, `freelist, `g
      ensures Valid() && DropFacts(old(g), g, pt, a / PGSIZE, doFree, p)
      ensures t in old(g.own) && old(g.own)[t].Low? && mem.Keys >= old(mem.Keys)
      ensures forall q :: q in old(mem) && q != t && !(doFree && q == p) ==> mem[q] == old(mem)[q]
    {
      hide Inv, UserBytes, Dropped, FreedPage, CanStore;
      LeafPage(mem, g, pt, a / PGSIZE);
      EntryIsLeaf(mem, g, pt, a);
      var table := Walk(pt, a, false);
      var pte := mem[table].w[PX(0, a)];
      assert table != 0 && IsValid(pte) && IsLeaf(pte);
      if doFree {
        Kfree(pte.ppn);
      }
      ghost var m1 := mem;
      mem := mem[table := Entries(mem[table].w[PX(0, a) := ZERO])];
      DropInv(old(mem), g, pt, a, table, doFree, m1, mem);
      DroppedFacts(old(mem), g, pt, a / PGSIZE, doFree);
      t, p := table, pte.ppn;
      DropBytes(old(mem), g, Dropped(g, pt, a / PGSIZE, doFree), pt, a / PGSIZE, doFree, p, t, mem);
      g := Dropped(g, pt, a / PGSIZE, doFree);
    }

    /** Removes the mappings of npages pages from va, which must exist. */
    method UvmUnmap(pt: nat, va: nat, npages: nat, doFree: bool)
      requires Valid() && pt in g.spaces && va % PGSIZE == 0
      requires forall v :: va / PGSIZE <= v < va / PGSIZE + npages ==> v in g.spaces[pt].leaf
      requires doFree ==> va / PGSIZE + npages <= TRAPFRAME
      modifies `mem, `freelist, `g
      ensures Valid() && PagesUnmapped(old(mem), old(g), mem, g, pt, va / PGSIZE, npages, doFree)
    {
      hide Inv, UserBytes, UnmappedOwners, UnmappedContents;
      ghost var first, n := va / PGSIZE, 0;
      UnmapNone(mem, g, pt, first, doFree);
      var a := va;
      while a < va + npages * PGSIZE
        invariant a == (first + n) * PGSIZE && n <= npages
        invariant Valid() && PagesUnmapped(old(mem), old(g), mem, g, pt, first, n, doFree)
        invariant forall v :: first + n <= v < first + npages ==> v in g.spaces[pt].leaf
      {
        MulPage(first + n);
        LeafPage(mem, g, pt, first + n);
        UserPageOnly(old(mem), old(g), pt, first + n);
        ghost var m, h := mem, g;
        ghost var t, p := UnmapPage(pt, a, doFree);
        DropMore(old(mem), old(g), m, h, mem, g, pt, first, n, doFree, p, t);
        n := n + 1;
        a := a + PGSIZE;
      }
    }
  }
}
