/** Growing, shrinking, copying and freeing user memory (kernel/vm.c). */
module UserMemory {
  import opened Counting
  import opened Sv39
  import opened PageTables
  import opened PageBudget
  import opened KernelMemory

  const RWXU: Flags := Flags(true, true, true, true, true, 0)

  /** PGROUNDUP(sz) / PGSIZE */
  function NPages(sz: nat): nat { PGROUNDUP(sz) / PGSIZE }

  lemma NPagesIs(sz: nat)
    ensures NPages(sz) * PGSIZE == PGROUNDUP(sz)
  {
  }

  /** Below TRAPFRAME, exactly the pages 0 .. n - 1 are mapped. */
  ghost predicate Sized(leaf: map<nat, Pte>, n: nat) {
    n <= TRAPFRAME && (forall v :: v in leaf && v < TRAPFRAME ==> v < n) && forall v :: 0 <= v < n ==> v in leaf
  }

  // ----- User memory never reaches TRAPFRAME -----

  ghost function Backing(leaf: map<nat, Pte>, n: nat): set<nat>
    requires forall v :: 0 <= v < n ==> v in leaf
  {
    if n == 0 then {} else Backing(leaf, n - 1) + {leaf[n - 1].ppn}
  }

  lemma {:induction false} BackingSize(mem: Memory, g: Ghost, pt: nat, n: nat)
    requires Inv(mem, g) && pt in g.spaces && n <= TRAPFRAME && forall v :: 0 <= v < n ==> v in g.spaces[pt].leaf
    ensures |Backing(g.spaces[pt].leaf, n)| == n
    ensures forall p :: p in Backing(g.spaces[pt].leaf, n) ==> p in g.own && UserIn(g.own[p], pt, 0, n)
  {
    hide Inv;
    if n != 0 {
      BackingSize(mem, g, pt, n - 1);
      LeafPage(mem, g, pt, n - 1);
      assert g.spaces[pt].leaf[n - 1].ppn !in Backing(g.spaces[pt].leaf, n - 1);
    }
  }

  /** Distinct user pages need distinct physical pages, and there are 32768 at most. */
  lemma UserPagesBound(mem: Memory, g: Ghost, pt: nat, n: nat)
    requires Inv(mem, g) && pt in g.spaces && n <= TRAPFRAME && forall v :: 0 <= v < n ==> v in g.spaces[pt].leaf
    requires forall p :: p in g.own ==> KERNBASE <= p < PHYSTOP
    ensures n <= PHYSTOP - KERNBASE
  {
    hide Inv;
    BackingSize(mem, g, pt, n);
    Smaller(Backing(g.spaces[pt].leaf, n), Interval(KERNBASE, PHYSTOP - KERNBASE));
  }

  // ----- Growing and shrinking -----

  ghost predicate GrownLeaf(leaf: map<nat, Pte>, leaf': map<nat, Pte>, lo: nat, hi: nat) {
    (forall v :: v in leaf' <==> v in leaf || lo <= v < hi) && forall v :: v in leaf ==> leaf'[v] == leaf[v]
  }

  /** Free pages may have become tables or user pages of pt; nothing else changed hands. */
  ghost predicate GrownOwners(o0: map<nat, Owner>, o1: map<nat, Owner>, pt: nat, lo: nat, hi: nat) {
    forall p :: p in o0 && p in o1 ==>
      if o0[p].Free?
      then
        || o1[p].Free? || ((o1[p].Mid? || o1[p].Low?) && o1[p].id == pt)
        || (o1[p].User? && o1[p].id == pt && lo <= o1[p].v < hi)
      else o1[p] == o0[p]
  }

  ghost predicate ZeroPages(mem: Memory, leaf: map<nat, Pte>, lo: nat, hi: nat) {
    forall v :: lo <= v < hi && v in leaf ==>
        leaf[v].flags == RWXU && leaf[v].ppn in mem && mem[leaf[v].ppn] == Filled(0)
  }

  /** Pages lo .. hi - 1 of pt are new; the rest of memory is as it was. */
  ghost predicate Grown(m0: Memory, g0: Ghost, m1: Memory, g1: Ghost, pt: nat, lo: nat, hi: nat)
    requires lo <= hi
  {
    && pt in g0.spaces && pt in g1.spaces && g1.spaces == g0.spaces[pt := g1.spaces[pt]] && g1.own.Keys == g0.own.Keys
    && GrownLeaf(g0.spaces[pt].leaf, g1.spaces[pt].leaf, lo, hi) && GrownOwners(g0.own, g1.own, pt, lo, hi)
    && SameContents(m0, g0.own, m1)
  }

  lemma GrowNone(m: Memory, g: Ghost, pt: nat, lo: nat)
    requires Inv(m, g) && pt in g.spaces
    ensures Grown(m, g, m, g, pt, lo, lo)
  {
  }

  lemma GrownTrans(m0: Memory, g0: Ghost, m1: Memory, g1: Ghost, m2: Memory, g2: Ghost, pt: nat, lo: nat, mid: nat,
                   hi: nat)
    requires lo <= mid <= hi && Grown(m0, g0, m1, g1, pt, lo, mid) && Grown(m1, g1, m2, g2, pt, mid, hi)
    ensures Grown(m0, g0, m2, g2, pt, lo, hi)
  {
    assert SameContents(m0, g0.own, m2);
    assert GrownOwners(g0.own, g2.own, pt, lo, hi);
    assert GrownLeaf(g0.spaces[pt].leaf, g2.spaces[pt].leaf, lo, hi);
  }

  lemma ZeroMore(m1: Memory, g1: Ghost, m2: Memory, g2: Ghost, pt: nat, lo: nat, mid: nat)
    requires lo <= mid <= TRAPFRAME && Inv(m1, g1) && pt in g1.spaces && ZeroPages(m1, g1.spaces[pt].leaf, lo, mid)
    requires Grown(m1, g1, m2, g2, pt, mid, mid + 1) && ZeroPages(m2, g2.spaces[pt].leaf, mid, mid + 1)
    requires forall v :: lo <= v < mid ==> v in g1.spaces[pt].leaf
    ensures ZeroPages(m2, g2.spaces[pt].leaf, lo, mid + 1)
  {
    hide Inv, GrownOwners;
    forall v | lo <= v < mid
      ensures g2.spaces[pt].leaf[v] == g1.spaces[pt].leaf[v]
      ensures g2.spaces[pt].leaf[v].ppn in m2 && m2[g2.spaces[pt].leaf[v].ppn] == Filled(0)
    {
      LeafPage(m1, g1, pt, v);
    }
  }

  /** kalloc, then a write: the head of the free list is held and holds `page`. */
  ghost predicate Took(m0: Memory, g0: Ghost, m1: Memory, g1: Ghost, p: nat, page: Page) {
    && g0.free != [] && p == FreeHead(g0.free) && p in g0.own && g0.own[p].Free? && g1 == Popped(g0)
    && m1.Keys >= m0.Keys && p in m1 && m1[p] == page && (forall q :: q in m0 && q != p ==> m1[q] == m0[q])
    && forall q :: q in g0.own ==> q in m0
  }

  lemma MappedGrows(m0: Memory, g0: Ghost, m1: Memory, g1: Ghost, m2: Memory, g2: Ghost, pt: nat, v: nat, p: nat,
                    page: Page, perm: Flags)
    requires Took(m0, g0, m1, g1, p, page) && v < TRAPFRAME && PagesMapped(m1, g1, m2, g2, pt, v, 1, p, perm)
    requires v !in g0.spaces[pt].leaf
    ensures Grown(m0, g0, m2, g2, pt, v, v + 1)
    ensures g2.spaces[pt].leaf[v] == MakePte(p, perm) && p in m2 && m2[p] == page
  {
    hide MakePte;
    assert SameContents(m0, g0.own, m2);
    assert GrownOwners(g0.own, g2.own, pt, v, v + 1);
    hide GrownOwners, MappedOwners;
    assert GrownLeaf(g0.spaces[pt].leaf, g2.spaces[pt].leaf, v, v + 1);
  }

  lemma FailedGrows(m0: Memory, g0: Ghost, m1: Memory, g1: Ghost, m2: Memory, g2: Ghost, m3: Memory, pt: nat, v: nat,
                    p: nat, page: Page, perm: Flags)
    requires Took(m0, g0, m1, g1, p, page) && PagesMapped(m1, g1, m2, g2, pt, v, 0, p, perm)
    requires p in m2 && p in m3 && m3 == m2[p := m3[p]]
    ensures Grown(m0, g0, m3, Freed(g2, p), pt, v, v)
  {
    assert SameContents(m0, g0.own, m3);
    assert GrownOwners(g0.own, Freed(g2, p).own, pt, v, v);
    hide SameContents, GrownOwners, MappedOwners;
    assert GrownLeaf(g0.spaces[pt].leaf, g2.spaces[pt].leaf, v, v);
  }

  /** kalloc, and then memset or memmove. */
  method NewPage(k: Kernel, page: Page) returns (p: nat)
    requires k.Valid()
    modifies k
    ensures k.Valid() && (p == 0 <==> old(k.g.free) == [])
    ensures p == 0 ==> k.mem == old(k.mem) && k.g == old(k.g)
    ensures p != 0 ==> Took(old(k.mem), old(k.g), k.mem, k.g, p, page) && p in k.g.own && k.g.own[p] == Held
  {
    hide SpaceInv, FreeInv, PlaceOk;
    if k.g.free != [] {
      HeadIsFree(k.mem, k.g);
    }
    p := k.Kalloc();
    if p != 0 {
      ghost var m := k.mem;
      k.mem := k.mem[p := page];
      WriteHeld(m, k.g, p, page, k.mem);
    }
  }

  lemma OnePage(a: nat)
    requires a % PGSIZE == 0
    ensures (a + PGSIZE - 1) / PGSIZE == a / PGSIZE && (a + PGSIZE) / PGSIZE == a / PGSIZE + 1
  {
  }

  /** A new page at a with the given contents and permissions, or nothing: what the loops of
      uvmalloc and uvmcopy do for each page. */
  method GrowPage(k: Kernel, pt: nat, a: nat, page: Page, perm: Flags) returns (ok: bool)
    requires k.Valid() && pt in k.g.spaces && a % PGSIZE == 0 && a / PGSIZE < TRAPFRAME
    requires a / PGSIZE !in k.g.spaces[pt].leaf
    requires IsBytes(page) && IsLeaf(MakePte(0, perm))
    modifies k
    ensures k.Valid()
    ensures Grown(old(k.mem), old(k.g), k.mem, k.g, pt, a / PGSIZE, if ok then a / PGSIZE + 1 else a / PGSIZE)
    ensures ok ==>
              var pte := k.g.spaces[pt].leaf[a / PGSIZE];
              pte.flags == perm.(v := true) && pte.ppn in k.mem && k.mem[pte.ppn] == page
    ensures ok <==> 1 + Missing(old(k.g.spaces[pt]), a / PGSIZE, a / PGSIZE + 1) <= |old(k.g.free)|
    ensures ok ==> Paid(old(k.g), k.g, pt, a / PGSIZE, a / PGSIZE + 1, 1)
  {
    hide MakePte;
    hide Inv, UserBytes, RangeMapped, MappedOwners, SameContents, FreedPage, GrownOwners, Missing, TablesFor, Paid;
    ghost var v := a / PGSIZE;
    OnePage(a);
    var p := NewPage(k, page);
    if p == 0 {
      GrowNone(k.mem, k.g, pt, v);
      return false;
    }
    ghost var m1, g1 := k.mem, k.g;
    PaidPop(old(k.g), pt, v);
    assert PageFits(k.mem, k.g, pt, v, p, perm, v);
    var r, n := k.MapPages(pt, a, PGSIZE, p, perm);
    if r != 0 {
      ghost var m2 := k.mem;
      StillHeld(m1, g1, k.mem, k.g, pt, v, p, perm);
      k.Kfree(p);
      FailedGrows(old(k.mem), old(k.g), m1, g1, m2, k.g, k.mem, pt, v, p, page, perm);
      k.g := Freed(k.g, p);
      return false;
    }
    MappedGrows(old(k.mem), old(k.g), m1, g1, k.mem, k.g, pt, v, p, page, perm);
    PaidMore(old(k.g), g1, k.g, pt, v, v, v + 1, 1, 0);
    return true;
  }

  lemma PaidPop(g: Ghost, pt: nat, v: nat)
    requires pt in g.spaces && g.free != []
    ensures Paid(g, Popped(g), pt, v, v, 1)
  {
    PaidNone(g, pt, v);
  }

  lemma FilledIsBytes(c: nat)
    ensures IsBytes(Filled(c))
  {
  }

  lemma StillHeld(m1: Memory, g1: Ghost, m2: Memory, g2: Ghost, pt: nat, v: nat, p: nat, perm: Flags)
    requires PagesMapped(m1, g1, m2, g2, pt, v, 0, p, perm) && p in g1.own && g1.own[p] == Held
    ensures g2.own[p] == Held && p in m2
  {
  }

  lemma RoundsTo(sz: nat, v: nat)
    requires sz <= v * PGSIZE < sz + PGSIZE
    ensures NPages(sz) == v
  {
  }

  lemma RoundTwice(sz: nat)
    ensures NPages(PGROUNDUP(sz)) == NPages(sz)
  {
    RoundsTo(PGROUNDUP(sz), NPages(sz));
  }

  /** Unmaps and frees the pages beyond newsz; oldsz if there are none to free. */
  method UvmDealloc(k: Kernel, pt: nat, oldsz: nat, newsz: nat) returns (sz: nat)
    requires k.Valid() && pt in k.g.spaces && NPages(oldsz) <= TRAPFRAME
    requires forall v :: NPages(newsz) <= v < NPages(oldsz) ==> v in k.g.spaces[pt].leaf
    modifies k
    ensures k.Valid() && sz == (if newsz >= oldsz then oldsz else newsz) && NPages(sz) <= NPages(oldsz)
    ensures PagesUnmapped(old(k.mem), old(k.g), k.mem, k.g, pt, NPages(sz), NPages(oldsz) - NPages(sz), true)
  {
    hide Inv, UserBytes, PagesUnmapped;
    UnmapNone(k.mem, k.g, pt, NPages(oldsz), true);
    if newsz >= oldsz {
      return oldsz;
    }
    Monotone(newsz, oldsz);
    if PGROUNDUP(newsz) < PGROUNDUP(oldsz) {
      var npages := (PGROUNDUP(oldsz) - PGROUNDUP(newsz)) / PGSIZE;
      PageCount(newsz, oldsz);
      k.UvmUnmap(pt, PGROUNDUP(newsz), npages, true);
    }
    return newsz;
  }

  lemma Monotone(a: nat, b: nat)
    requires a <= b
    ensures NPages(a) <= NPages(b) && (PGROUNDUP(a) >= PGROUNDUP(b) ==> NPages(a) == NPages(b))
  {
  }

  lemma PageCount(a: nat, b: nat)
    requires PGROUNDUP(a) < PGROUNDUP(b)
    ensures (PGROUNDUP(b) - PGROUNDUP(a)) / PGSIZE == NPages(b) - NPages(a)
  {
    assert PGROUNDUP(b) - PGROUNDUP(a) == (NPages(b) - NPages(a)) * PGSIZE;
  }

  /** A page that is not mapped is not backed. */
  lemma NotBacked(mem: Memory, g: Ghost, pt: nat, lo: nat, n: nat)
    requires Inv(mem, g) && pt in g.spaces && forall v :: lo <= v < lo + n ==> v !in g.spaces[pt].leaf
    ensures forall p :: p in g.own ==> !UserIn(g.own[p], pt, lo, n)
  {
    forall p | p in g.own
      ensures !UserIn(g.own[p], pt, lo, n)
    {
      assert PlaceOk(g, p, g.own[p]);
    }
  }

  /** Giving back what was grown leaves the map and the owners as they were, up to tables. */
  lemma GrownThenUnmapped(m0: Memory, g0: Ghost, m1: Memory, g1: Ghost, m2: Memory, g2: Ghost, pt: nat, lo: nat,
                          hi: nat)
    requires lo <= hi && Grown(m0, g0, m1, g1, pt, lo, hi) && PagesUnmapped(m1, g1, m2, g2, pt, lo, hi - lo, true)
    requires forall v :: lo <= v < hi ==> v !in g0.spaces[pt].leaf
    requires forall p :: p in g0.own ==> !UserIn(g0.own[p], pt, lo, hi - lo)
    ensures Grown(m0, g0, m2, g2, pt, lo, lo)
  {
    assert SameContents(m0, g0.own, m2);
    assert GrownOwners(g0.own, g2.own, pt, lo, lo);
    hide SameContents, GrownOwners, UnmappedOwners, UnmappedContents;
    assert GrownLeaf(g0.spaces[pt].leaf, g2.spaces[pt].leaf, lo, lo);
  }

  lemma GrownSized(leaf: map<nat, Pte>, leaf': map<nat, Pte>, lo: nat, hi: nat)
    requires Sized(leaf, lo) && lo <= hi <= TRAPFRAME && GrownLeaf(leaf, leaf', lo, hi)
    ensures Sized(leaf', hi)
  {
  }

  /** Grows user memory with zeroed pages to newsz, or, with too few free pages for them and for
      the tables they lack, leaves it as it was and returns 0. */
  method UvmAlloc(k: Kernel, pt: nat, oldsz: nat, newsz: nat) returns (sz: nat)
    requires k.Valid() && pt in k.g.spaces && Sized(k.g.spaces[pt].leaf, NPages(oldsz))
    modifies k
    ensures k.Valid()
    ensures newsz < oldsz ==> sz == oldsz && k.mem == old(k.mem) && k.g == old(k.g)
    ensures newsz >= oldsz ==> (sz == newsz || sz == 0) && NPages(oldsz) <= NPages(newsz)
    ensures newsz >= oldsz ==>
              || (sz == newsz && Grown(old(k.mem), old(k.g), k.mem, k.g, pt, NPages(oldsz), NPages(newsz))
                  && ZeroPages(k.mem, k.g.spaces[pt].leaf, NPages(oldsz), NPages(newsz)) && NPages(newsz) <= TRAPFRAME)
              || (sz == 0 && Grown(old(k.mem), old(k.g), k.mem, k.g, pt, NPages(oldsz), NPages(oldsz)))
    ensures newsz >= oldsz ==>
              var lo, hi := NPages(oldsz), NPages(newsz);
              && (sz == newsz <==> Affords(old(k.g), pt, lo, hi))
              && (sz == newsz ==> Paid(old(k.g), k.g, pt, lo, hi, hi - lo))
  {
    hide MakePte;
    hide Inv, UserBytes, GrownLeaf, GrownOwners, SameContents, PagesUnmapped, Filled, Missing, TablesFor, Paid;
    if newsz < oldsz {
      return oldsz;
    }
    ghost var lo := NPages(oldsz);
    ghost var v := lo;
    Monotone(oldsz, newsz);
    var from := PGROUNDUP(oldsz);
    var a := from;
    GrowNone(k.mem, k.g, pt, lo);
    PaidNone(k.g, pt, lo);
    NPagesIs(oldsz);
    while a < newsz
      invariant lo <= v && a == v * PGSIZE && (v == lo || a < newsz + PGSIZE)
      invariant k.Valid() && Grown(old(k.mem), old(k.g), k.mem, k.g, pt, lo, v) && Sized(k.g.spaces[pt].leaf, v)
      invariant ZeroPages(k.mem, k.g.spaces[pt].leaf, lo, v) && Paid(old(k.g), k.g, pt, lo, v, v - lo)
    {
      MulPage(v);
      UserPagesBound(k.mem, k.g, pt, v);
      ghost var m, h := k.mem, k.g;
      FilledIsBytes(0);
      var ok := GrowPage(k, pt, a, Filled(0), RWXU);
      GrownTrans(old(k.mem), old(k.g), m, h, k.mem, k.g, pt, lo, v, if ok then v + 1 else v);
      GrownSized(h.spaces[pt].leaf, k.g.spaces[pt].leaf, v, if ok then v + 1 else v);
      if !ok {
        InSize(newsz, v);
        CannotPay(old(k.g), h, pt, lo, v, v + 1, NPages(newsz), v - lo, 1);
        RoundsTo(from, lo);
        RoundsTo(a, v);
        NotBacked(old(k.mem), old(k.g), pt, lo, v - lo);
        m, h := k.mem, k.g;
        var _ := UvmDealloc(k, pt, a, from);
        GrownThenUnmapped(old(k.mem), old(k.g), m, h, k.mem, k.g, pt, lo, v);
        return 0;
      }
      assert ZeroPages(k.mem, k.g.spaces[pt].leaf, v, v + 1);
      ZeroMore(m, h, k.mem, k.g, pt, lo, v);
      PaidMore(old(k.g), h, k.g, pt, lo, v, v + 1, v - lo, 1);
      v := v + 1;
      a := a + PGSIZE;
    }
    FinalSize(oldsz, newsz, v);
    PaidWithin(old(k.g), k.g, pt, lo, v, v - lo);
    return newsz;
  }

  lemma InSize(sz: nat, v: nat)
    requires v * PGSIZE < sz
    ensures v < NPages(sz)
  {
  }

  lemma FinalSize(oldsz: nat, newsz: nat, v: nat)
    requires oldsz <= newsz && newsz <= v * PGSIZE && (v == NPages(oldsz) || v * PGSIZE < newsz + PGSIZE)
    ensures NPages(newsz) == v
  {
    if v * PGSIZE < newsz + PGSIZE {
      RoundsTo(newsz, v);
    }
  }

  // ----- Freeing the tables -----

  /** The index, at `level`, of the table at or above a table page; -1 above its own level. */
  function Anc(o: Owner, level: nat): int {
    match o
    case Low(_, k) => if level == 0 then k else if level == 1 then k / 512 else k / 512 / 512
    case Mid(_, i) => if level == 0 then -1 else if level == 1 then i else i / 512
    case Top(_) => if level < 2 then -1 else 0
    case _ => -1
  }

  /** A table page of pt at or below the table `idx` of `level`. */
  predicate InSub(o: Owner, pt: nat, level: nat, idx: nat) {
    OwnedBy(o, pt) && Anc(o, level) == idx
  }

  /** A table page below the first i entries of that table. */
  predicate InChildren(o: Owner, pt: nat, level: nat, idx: nat, i: nat) {
    level > 0 && OwnedBy(o, pt) && 512 * idx <= Anc(o, level - 1) < 512 * idx + i
  }

  function Role(pt: nat, level: nat, idx: nat): Owner {
    if level == 0 then Low(pt, idx) else if level == 1 then Mid(pt, idx) else Top(pt)
  }

  /** A table with all its children is a subtree. */
  lemma SubIsChildren(o: Owner, pt: nat, level: nat, idx: nat)
    requires level <= 2 && (level == 2 ==> idx == 0)
    ensures InSub(o, pt, level, idx) <==> o == Role(pt, level, idx) || InChildren(o, pt, level, idx, 512)
  {
  }

  lemma OneMoreChild(o: Owner, pt: nat, level: nat, idx: nat, i: nat)
    requires 1 <= level <= 2 && i < 512
    ensures InChildren(o, pt, level, idx, i + 1) <==>
              InChildren(o, pt, level, idx, i) || InSub(o, pt, level - 1, 512 * idx + i)
  {
  }

  lemma ChildNotDone(o: Owner, pt: nat, level: nat, idx: nat, i: nat)
    requires 1 <= level <= 2 && i < 512 && InSub(o, pt, level - 1, 512 * idx + i)
    ensures InSub(o, pt, level, idx) && !InChildren(o, pt, level, idx, i)
  {
  }

  /** The tree that freewalk was given, before it began. */
  ghost predicate Doomed(m0: Memory, g0: Ghost, pt: nat) {
    Inv(m0, g0) && pt in g0.spaces && g0.spaces[pt].leaf == map[]
  }

  /** Entry i of table idx of level: nothing, or the only way to a table one level down. */
  lemma ChildEntry(m0: Memory, g0: Ghost, pt: nat, level: nat, idx: nat, p: nat, i: nat)
    requires Doomed(m0, g0, pt) && level <= 2 && p in g0.own && g0.own[p] == Role(pt, level, idx) && i < 512
    requires level == 2 ==> idx == 0
    ensures p in m0 && m0[p].Entries? && |m0[p].w| == 512
    ensures var pte := m0[p].w[i];
            if IsValid(pte) then
              !IsLeaf(pte) && level > 0 && pte.ppn in g0.own && g0.own[pte.ppn] == Role(pt, level - 1, 512 * idx + i)
            else
              pte == ZERO && (level > 0 ==> forall q :: q in g0.own ==> !InSub(g0.own[q], pt, level - 1, 512 * idx + i))
  {
    var sp := g0.spaces[pt];
    assert SpaceInv(m0, g0.own, pt, sp) && PlaceOk(g0, p, g0.own[p]);
    if level == 0 {
      assert LowOk(m0, g0.own, pt, sp, idx);
    } else if level == 1 {
      assert MidOk(m0, g0.own, pt, sp, idx);
      MidChild(m0, g0, pt, idx, i);
    } else {
      TopChild(m0, g0, pt, i);
    }
  }

  lemma MidChild(m0: Memory, g0: Ghost, pt: nat, idx: nat, i: nat)
    requires Doomed(m0, g0, pt) && idx in g0.spaces[pt].mid && i < 512
    ensures var k := 512 * idx + i;
            if k in g0.spaces[pt].low then g0.spaces[pt].low[k] in g0.own && g0.own[g0.spaces[pt].low[k]] == Low(pt, k)
            else forall q :: q in g0.own ==> !InSub(g0.own[q], pt, 0, k)
  {
    hide FreeInv, MidOk;
    var sp := g0.spaces[pt];
    assert SpaceInv(m0, g0.own, pt, sp);
    if 512 * idx + i in sp.low {
      assert LowOk(m0, g0.own, pt, sp, 512 * idx + i);
    } else {
      assert forall q :: q in g0.own ==> PlaceOk(g0, q, g0.own[q]);
    }
  }

  lemma TopChild(m0: Memory, g0: Ghost, pt: nat, i: nat)
    requires Doomed(m0, g0, pt) && i < 512
    ensures var sp := g0.spaces[pt];
            if i in sp.mid then sp.mid[i] in g0.own && g0.own[sp.mid[i]] == Mid(pt, i)
            else forall q :: q in g0.own ==> !InSub(g0.own[q], pt, 1, i)
  {
    hide FreeInv;
    var sp := g0.spaces[pt];
    assert SpaceInv(m0, g0.own, pt, sp);
    if i in sp.mid {
      assert MidOk(m0, g0.own, pt, sp, i);
    } else {
      forall q | q in g0.own
        ensures !InSub(g0.own[q], pt, 1, i)
      {
        assert PlaceOk(g0, q, g0.own[q]);
        if g0.own[q].Low? && g0.own[q].id == pt {
          assert LowOk(m0, g0.own, pt, sp, g0.own[q].k);
        }
      }
    }
  }

  /** No two pages are the same table. */
  lemma OneRole(m0: Memory, g0: Ghost, pt: nat, level: nat, idx: nat, p: nat)
    requires Inv(m0, g0) && p in g0.own && g0.own[p] == Role(pt, level, idx) && level <= 2
    ensures forall q :: q in g0.own && g0.own[q] == Role(pt, level, idx) ==> q == p
  {
    hide FreeInv, SpaceInv;
    assert PlaceOk(g0, p, g0.own[p]);
    assert forall q :: q in g0.own ==> PlaceOk(g0, q, g0.own[q]);
  }

  /** The pages of a subtree are held and as they were. */
  ghost predicate SubReady(m0: Memory, g0: Ghost, mem: Memory, own: map<nat, Owner>, pt: nat, level: nat, idx: nat) {
    && own.Keys == g0.own.Keys
    && forall q :: q in g0.own && InSub(g0.own[q], pt, level, idx) ==>
         own[q] == Held && q in m0 && q in mem && mem[q] == m0[q]
  }

  /** Which pages have been freed so far. */
  ghost predicate FreedChildren(g0: Ghost, o: map<nat, Owner>, o': map<nat, Owner>, pt: nat, level: nat, idx: nat,
                                i: nat) {
    && o'.Keys == o.Keys == g0.own.Keys
    && forall q :: q in g0.own ==>
         if InChildren(g0.own[q], pt, level, idx, i) then o'[q].Free? else o'[q] == o[q]
  }

  ghost predicate FreedSub(g0: Ghost, o: map<nat, Owner>, o': map<nat, Owner>, pt: nat, level: nat, idx: nat) {
    && o'.Keys == o.Keys == g0.own.Keys
    && forall q :: q in g0.own ==> if InSub(g0.own[q], pt, level, idx) then o'[q].Free? else o'[q] == o[q]
  }

  ghost predicate SameOutsideChildren(g0: Ghost, mem: Memory, mem': Memory, pt: nat, level: nat, idx: nat, i: nat,
                                      p: nat) {
    mem'.Keys >= mem.Keys &&
    forall q :: q in mem && q != p && !(q in g0.own && InChildren(g0.own[q], pt, level, idx, i)) ==> mem'[q] == mem[q]
  }

  ghost predicate SameOutsideSub(g0: Ghost, mem: Memory, mem': Memory, pt: nat, level: nat, idx: nat) {
    mem'.Keys >= mem.Keys &&
    forall q :: q in mem && !(q in g0.own && InSub(g0.own[q], pt, level, idx)) ==> mem'[q] == mem[q]
  }

  /** The first i entries of table p are clear. */
  ghost predicate Cleared(m0: Memory, mem: Memory, p: nat, i: nat) {
    && p in m0 && p in mem && m0[p].Entries? && |m0[p].w| == 512 && mem[p].Entries? && |mem[p].w| == 512
    && forall j :: 0 <= j < 512 ==> mem[p].w[j] == if j < i then ZERO else m0[p].w[j]
  }

  /** When the loop of freewalk reaches entry i, the subtree below it is untouched. */
  lemma ChildReady(m0: Memory, g0: Ghost, mem: Memory, o: map<nat, Owner>, mem': Memory, o': map<nat, Owner>, pt: nat,
                   level: nat, idx: nat, i: nat, p: nat)
    requires 1 <= level <= 2 && i < 512 && (level == 2 ==> idx == 0) && p in g0.own && g0.own[p] == Role(pt, level, idx)
    requires SubReady(m0, g0, mem, o, pt, level, idx) && FreedChildren(g0, o, o', pt, level, idx, i)
    requires SameOutsideChildren(g0, mem, mem', pt, level, idx, i, p)
    ensures SubReady(m0, g0, mem', o', pt, level - 1, 512 * idx + i)
  {
    forall q | q in g0.own && InSub(g0.own[q], pt, level - 1, 512 * idx + i)
      ensures o'[q] == Held && q in m0 && q in mem' && mem'[q] == m0[q]
    {
      ChildNotDone(g0.own[q], pt, level, idx, i);
    }
  }

  lemma ChildFreed(g0: Ghost, o: map<nat, Owner>, o1: map<nat, Owner>, o2: map<nat, Owner>, m: Memory, m1: Memory,
                   m2: Memory, pt: nat, level: nat, idx: nat, i: nat, p: nat)
    requires 1 <= level <= 2 && i < 512 && FreedChildren(g0, o, o1, pt, level, idx, i)
    requires FreedSub(g0, o1, o2, pt, level - 1, 512 * idx + i)
    requires SameOutsideChildren(g0, m, m1, pt, level, idx, i, p)
    requires SameOutsideSub(g0, m1, m2, pt, level - 1, 512 * idx + i)
    ensures FreedChildren(g0, o, o2, pt, level, idx, i + 1) && SameOutsideChildren(g0, m, m2, pt, level, idx, i + 1, p)
  {
    forall q | q in g0.own
      ensures InChildren(g0.own[q], pt, level, idx, i + 1) <==>
              InChildren(g0.own[q], pt, level, idx, i) || InSub(g0.own[q], pt, level - 1, 512 * idx + i)
    {
      OneMoreChild(g0.own[q], pt, level, idx, i);
    }
  }

  lemma NoChild(g0: Ghost, o: map<nat, Owner>, o1: map<nat, Owner>, m: Memory, m1: Memory, pt: nat, level: nat,
                idx: nat, i: nat, p: nat)
    requires level <= 2 && i < 512 && FreedChildren(g0, o, o1, pt, level, idx, i)
    requires SameOutsideChildren(g0, m, m1, pt, level, idx, i, p)
    requires level > 0 ==> forall q :: q in g0.own ==> !InSub(g0.own[q], pt, level - 1, 512 * idx + i)
    ensures FreedChildren(g0, o, o1, pt, level, idx, i + 1) && SameOutsideChildren(g0, m, m1, pt, level, idx, i + 1, p)
  {
    forall q | q in g0.own
      ensures InChildren(g0.own[q], pt, level, idx, i + 1) <==> InChildren(g0.own[q], pt, level, idx, i)
    {
      if level > 0 {
        OneMoreChild(g0.own[q], pt, level, idx, i);
      }
    }
  }

  /** All children and then the table itself: the whole subtree. */
  lemma SubFreed(g0: Ghost, o: map<nat, Owner>, o1: map<nat, Owner>, o2: map<nat, Owner>, m: Memory, m1: Memory,
                 m2: Memory, pt: nat, level: nat, idx: nat, p: nat)
    requires level <= 2 && (level == 2 ==> idx == 0) && p in g0.own && g0.own[p] == Role(pt, level, idx)
    requires forall q :: q in g0.own && g0.own[q] == Role(pt, level, idx) ==> q == p
    requires FreedChildren(g0, o, o1, pt, level, idx, 512) && SameOutsideChildren(g0, m, m1, pt, level, idx, 512, p)
    requires p in o2 && o2 == o1[p := o2[p]] && o2[p].Free? && p in m2 && m2 == m1[p := m2[p]]
    ensures FreedSub(g0, o, o2, pt, level, idx) && SameOutsideSub(g0, m, m2, pt, level, idx)
  {
    hide InSub, InChildren, Role;
    SubPages(g0, pt, level, idx, p);
  }

  lemma SubPages(g0: Ghost, pt: nat, level: nat, idx: nat, p: nat)
    requires level <= 2 && (level == 2 ==> idx == 0) && p in g0.own && g0.own[p] == Role(pt, level, idx)
    requires forall q :: q in g0.own && g0.own[q] == Role(pt, level, idx) ==> q == p
    ensures forall q :: q in g0.own ==>
              (InSub(g0.own[q], pt, level, idx) <==> q == p || InChildren(g0.own[q], pt, level, idx, 512))
  {
    forall q | q in g0.own
      ensures InSub(g0.own[q], pt, level, idx) <==> q == p || InChildren(g0.own[q], pt, level, idx, 512)
    {
      SubIsChildren(g0.own[q], pt, level, idx);
    }
  }

  lemma TableHeld(m0: Memory, g0: Ghost, o: map<nat, Owner>, o': map<nat, Owner>, mem: Memory, pt: nat, level: nat,
                  idx: nat, i: nat, p: nat)
    requires level <= 2 && (level == 2 ==> idx == 0) && p in g0.own && g0.own[p] == Role(pt, level, idx)
    requires SubReady(m0, g0, mem, o, pt, level, idx) && FreedChildren(g0, o, o', pt, level, idx, i)
    ensures p in o' && o'[p] == Held
  {
    SubIsChildren(g0.own[p], pt, level, idx);
  }

  lemma ClearOne(m0: Memory, mem: Memory, mem': Memory, p: nat, i: nat)
    requires Cleared(m0, mem, p, i) && i < 512
    requires p in mem' && (mem'[p] == Entries(mem[p].w[i := ZERO]) || (mem'[p] == mem[p] && mem[p].w[i] == ZERO))
    ensures Cleared(m0, mem', p, i + 1)
  {
  }

  /** Frees the table p and everything below it; the entries that lead there are cleared
      on the way. The tree is empty, so the panic about leaves does not happen. */
  method FreeWalk(k: Kernel, p: nat, ghost m0: Memory, ghost g0: Ghost, ghost pt: nat, ghost level: nat, ghost idx: nat)
    requires k.Valid() && Doomed(m0, g0, pt) && level <= 2 && (level == 2 ==> idx == 0)
    requires p in g0.own && g0.own[p] == Role(pt, level, idx) && SubReady(m0, g0, k.mem, k.g.own, pt, level, idx)
    modifies k
    ensures k.Valid() && k.g.spaces == old(k.g.spaces)
    ensures FreedSub(g0, old(k.g.own), k.g.own, pt, level, idx) && SameOutsideSub(g0, old(k.mem), k.mem, pt, level, idx)
    decreases level
  {
    hide Inv, UserBytes, InSub, InChildren, Role, FreedChildren, FreedSub, SubReady, SameOutsideChildren;
    hide SameOutsideSub, FreedPage;
    StartWalk(m0, g0, k.mem, k.g.own, pt, level, idx, p);
    var i := 0;
    while i < 512
      invariant 0 <= i <= 512 && k.Valid() && k.g.spaces == old(k.g.spaces) && Cleared(m0, k.mem, p, i)
      invariant FreedChildren(g0, old(k.g.own), k.g.own, pt, level, idx, i)
      invariant SameOutsideChildren(g0, old(k.mem), k.mem, pt, level, idx, i, p)
    {
      ChildEntry(m0, g0, pt, level, idx, p, i);
      var pte := k.mem[p].w[i];
      ghost var m1, o1 := k.mem, k.g.own;
      if IsValid(pte) && !IsLeaf(pte) {
        ChildReady(m0, g0, old(k.mem), old(k.g.own), k.mem, k.g.own, pt, level, idx, i, p);
        FreeWalk(k, pte.ppn, m0, g0, pt, level - 1, 512 * idx + i);
        ChildFreed(g0, old(k.g.own), o1, k.g.own, old(k.mem), m1, k.mem, pt, level, idx, i, p);
        TableHeld(m0, g0, old(k.g.own), k.g.own, old(k.mem), pt, level, idx, i + 1, p);
        ParentKept(g0, m1, k.mem, pt, level, idx, i, p);
        ghost var m2 := k.mem;
        k.mem := k.mem[p := Entries(k.mem[p].w[i := ZERO])];
        WriteHeld(m2, k.g, p, k.mem[p], k.mem);
        HeldBytes(m2, k.g.own, p, k.mem);
        StillOutside(g0, old(k.mem), m2, k.mem, pt, level, idx, i + 1, p);
        ClearOne(m0, m1, k.mem, p, i);
      } else {
        assert !IsValid(pte);
        NoChild(g0, old(k.g.own), k.g.own, old(k.mem), k.mem, pt, level, idx, i, p);
        ClearOne(m0, k.mem, k.mem, p, i);
      }
      i := i + 1;
    }
    TableHeld(m0, g0, old(k.g.own), k.g.own, old(k.mem), pt, level, idx, 512, p);
    ghost var m1, o1 := k.mem, k.g.own;
    k.Kfree(p);
    k.g := Freed(k.g, p);
    OneRole(m0, g0, pt, level, idx, p);
    SubFreed(g0, old(k.g.own), o1, k.g.own, old(k.mem), m1, k.mem, pt, level, idx, p);
  }

  lemma StartWalk(m0: Memory, g0: Ghost, mem: Memory, o: map<nat, Owner>, pt: nat, level: nat, idx: nat, p: nat)
    requires Doomed(m0, g0, pt) && level <= 2 && (level == 2 ==> idx == 0)
    requires p in g0.own && g0.own[p] == Role(pt, level, idx) && SubReady(m0, g0, mem, o, pt, level, idx)
    ensures Cleared(m0, mem, p, 0) && FreedChildren(g0, o, o, pt, level, idx, 0)
    ensures SameOutsideChildren(g0, mem, mem, pt, level, idx, 0, p)
  {
    hide Inv;
    SubIsChildren(g0.own[p], pt, level, idx);
    ChildEntry(m0, g0, pt, level, idx, p, 0);
  }

  lemma ParentKept(g0: Ghost, m1: Memory, m2: Memory, pt: nat, level: nat, idx: nat, i: nat, p: nat)
    requires 1 <= level <= 2 && i < 512 && p in g0.own && g0.own[p] == Role(pt, level, idx) && p in m1
    requires SameOutsideSub(g0, m1, m2, pt, level - 1, 512 * idx + i)
    ensures p in m2 && m2[p] == m1[p]
  {
  }

  lemma HeldBytes(mem: Memory, own: map<nat, Owner>, p: nat, mem': Memory)
    requires UserBytes(mem, own) && p in own && own[p] == Held && p in mem' && mem' == mem[p := mem'[p]]
    ensures UserBytes(mem', own)
  {
  }

  lemma StillOutside(g0: Ghost, m: Memory, m1: Memory, m2: Memory, pt: nat, level: nat, idx: nat, i: nat, p: nat)
    requires SameOutsideChildren(g0, m, m1, pt, level, idx, i, p) && p in m2 && m2 == m1[p := m2[p]]
    ensures SameOutsideChildren(g0, m, m2, pt, level, idx, i, p)
  {
  }

  /** Everything pt owned is free, and the rest of memory is as it was. */
  ghost predicate Released(m0: Memory, g0: Ghost, m1: Memory, g1: Ghost, pt: nat) {
    && g1.spaces == g0.spaces - {pt} && g1.own.Keys == g0.own.Keys
    && (forall p :: p in g0.own ==>
         if g0.own[p].Free? || OwnedBy(g0.own[p], pt) then g1.own[p].Free? else g1.own[p] == g0.own[p])
    && forall p :: p in g0.own && !OwnedBy(g0.own[p], pt) && (g0.own[p].User? || g0.own[p].Held?) ==>
         p in m0 && p in m1 && m1[p] == m0[p]
  }

  ghost function TablesHeld(g: Ghost, pt: nat): Ghost {
    g.(own := map q | q in g.own :: if OwnedBy(g.own[q], pt) then Held else g.own[q], spaces := g.spaces - {pt})
  }

  /** A space without leaves owns tables only. */
  lemma OnlyTables(m: Memory, g: Ghost, pt: nat)
    requires Doomed(m, g, pt)
    ensures forall q :: q in g.own && OwnedBy(g.own[q], pt) ==> InSub(g.own[q], pt, 2, 0)
    ensures pt in g.own && g.own[pt] == Top(pt)
    ensures SubReady(m, g, m, TablesHeld(g, pt).own, pt, 2, 0)
  {
    var sp := g.spaces[pt];
    assert SpaceInv(m, g.own, pt, sp);
    forall q | q in g.own && OwnedBy(g.own[q], pt)
      ensures InSub(g.own[q], pt, 2, 0)
    {
      assert PlaceOk(g, q, g.own[q]);
      if g.own[q].Low? {
        assert LowOk(m, g.own, pt, sp, g.own[q].k);
        assert MidOk(m, g.own, pt, sp, g.own[q].k / 512);
      } else if g.own[q].Mid? {
        assert MidOk(m, g.own, pt, sp, g.own[q].i);
      }
    }
  }

  lemma WalkReleases(m: Memory, g: Ghost, m': Memory, g': Ghost, pt: nat)
    requires Doomed(m, g, pt) && FreedSub(g, TablesHeld(g, pt).own, g'.own, pt, 2, 0)
    requires SameOutsideSub(g, m, m', pt, 2, 0)
    requires g'.spaces == g.spaces - {pt}
    ensures Released(m, g, m', g', pt)
  {
    hide FreeInv, SpaceInv, PlaceOk;
    OnlyTables(m, g, pt);
  }

  /** freewalk of a whole page table. */
  method FreeTables(k: Kernel, pt: nat)
    requires k.Valid() && pt in k.g.spaces && k.g.spaces[pt].leaf == map[]
    modifies k
    ensures k.Valid() && Released(old(k.mem), old(k.g), k.mem, k.g, pt)
  {
    hide Inv, UserBytes, Released, InSub, FreedSub, SubReady, SameOutsideSub;
    OnlyTables(k.mem, k.g, pt);
    DropSpace(k.mem, k.g, pt, TablesHeld(k.g, pt));
    HeldUserBytes(k.mem, k.g, pt);
    k.g := TablesHeld(k.g, pt);
    FreeWalk(k, pt, old(k.mem), old(k.g), pt, 2, 0);
    WalkReleases(old(k.mem), old(k.g), k.mem, k.g, pt);
  }

  lemma HeldUserBytes(m: Memory, g: Ghost, pt: nat)
    requires UserBytes(m, g.own)
    ensures UserBytes(m, TablesHeld(g, pt).own)
  {
  }

  /** Frees the sz bytes of user memory and then the tables. */
  method UvmFree(k: Kernel, pt: nat, sz: nat)
    requires k.Valid() && pt in k.g.spaces && Sized(k.g.spaces[pt].leaf, NPages(sz))
    requires forall v :: v in k.g.spaces[pt].leaf ==> v < TRAPFRAME
    modifies k
    ensures k.Valid() && Released(old(k.mem), old(k.g), k.mem, k.g, pt)
  {
    hide Inv, UserBytes, UnmappedOwners, UnmappedContents, Released;
    if sz > 0 {
      k.UvmUnmap(pt, 0, PGROUNDUP(sz) / PGSIZE, true);
    } else {
      UnmapNone(k.mem, k.g, pt, 0, true);
    }
    assert k.g.spaces[pt].leaf == map[];
    ghost var m, h := k.mem, k.g;
    FreeTables(k, pt);
    UnmappedReleases(old(k.mem), old(k.g), m, h, k.mem, k.g, pt, NPages(sz));
  }

  lemma UnmappedReleases(m0: Memory, g0: Ghost, m1: Memory, g1: Ghost, m2: Memory, g2: Ghost, pt: nat, n: nat)
    requires PagesUnmapped(m0, g0, m1, g1, pt, 0, n, true) && Released(m1, g1, m2, g2, pt)
    ensures Released(m0, g0, m2, g2, pt)
  {
  }
}
