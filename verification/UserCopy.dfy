/** uvmcopy, and copying bytes between the kernel and user memory (kernel/vm.c). */
module UserCopy {
  import opened Sequences
  import opened Sv39
  import opened PageTables
  import opened PageBudget
  import opened KernelMemory
  import opened UserMemory

  // ----- fork's copy of user memory -----

  /** Pages 0 .. n - 1 of the child have the parent's contents and permissions. */
  ghost predicate Copies(mem: Memory, parent: map<nat, Pte>, child: map<nat, Pte>, n: nat) {
    forall v :: 0 <= v < n ==>
      && v in parent && v in child && child[v].flags == parent[v].flags
      && parent[v].ppn in mem && child[v].ppn in mem && mem[child[v].ppn] == mem[parent[v].ppn]
  }

  lemma CopiesMore(m1: Memory, g1: Ghost, m2: Memory, g2: Ghost, parent: nat, child: nat, n: nat)
    requires Inv(m1, g1) && parent in g1.spaces && child in g1.spaces && parent != child && n < TRAPFRAME
    requires Grown(m1, g1, m2, g2, child, n, n + 1) && Copies(m1, g1.spaces[parent].leaf, g1.spaces[child].leaf, n)
    requires n in g1.spaces[parent].leaf && g1.spaces[parent].leaf[n].ppn in m1
    requires var c, p := g2.spaces[child].leaf[n], g1.spaces[parent].leaf[n];
             c.flags == p.flags && c.ppn in m2 && m2[c.ppn] == m1[p.ppn]
    ensures Copies(m2, g2.spaces[parent].leaf, g2.spaces[child].leaf, n + 1)
  {
    hide Inv, GrownOwners;
    forall v | 0 <= v <= n
      ensures v in g1.spaces[parent].leaf && v in g2.spaces[child].leaf
      ensures var c, p := g2.spaces[child].leaf[v], g1.spaces[parent].leaf[v];
              c.flags == p.flags && p.ppn in m2 && c.ppn in m2 && m2[c.ppn] == m2[p.ppn]
    {
      LeafPage(m1, g1, parent, v);
      if v < n {
        LeafPage(m1, g1, child, v);
      }
    }
  }

  /** Copies the parent's sz bytes into the child, which has none, or, with too few free pages for
      that, leaves the child without user memory. */
  method UvmCopy(k: Kernel, parent: nat, child: nat, sz: nat) returns (r: int)
    requires k.Valid() && parent in k.g.spaces && child in k.g.spaces && parent != child
    requires Sized(k.g.spaces[parent].leaf, NPages(sz)) && Sized(k.g.spaces[child].leaf, 0)
    modifies k
    ensures k.Valid() && (r == 0 || r == -1)
    ensures Grown(old(k.mem), old(k.g), k.mem, k.g, child, 0, if r == 0 then NPages(sz) else 0)
    ensures r == 0 ==> Copies(k.mem, k.g.spaces[parent].leaf, k.g.spaces[child].leaf, NPages(sz))
    ensures r == 0 <==> Affords(old(k.g), child, 0, NPages(sz))
    ensures r == 0 ==> Paid(old(k.g), k.g, child, 0, NPages(sz), NPages(sz))
  {
    hide MakePte;
    hide Inv, GrownLeaf, GrownOwners, SameContents, PagesUnmapped, Copies, Missing, TablesFor, Paid;
    hide Walked;
    ghost var v := 0;
    PaidNone(k.g, child, 0);
    GrowNone(k.mem, k.g, child, 0);
    CopiesNone(k.mem, k.g.spaces[parent].leaf, k.g.spaces[child].leaf);
    var i := 0;
    while i < sz
      invariant i == v * PGSIZE && i < sz + PGSIZE
      invariant k.Valid() && Grown(old(k.mem), old(k.g), k.mem, k.g, child, 0, v) && Sized(k.g.spaces[child].leaf, v)
      invariant Copies(k.mem, k.g.spaces[parent].leaf, k.g.spaces[child].leaf, v)
      invariant Paid(old(k.g), k.g, child, 0, v, v)
    {
      MulPage(v);
      InSize(sz, v);
      UserPagesBound(k.mem, k.g, child, v);
      LeafPage(k.mem, k.g, parent, v);
      EntryIsLeaf(k.mem, k.g, parent, i);
      var t := k.Walk(parent, i, false);
      var pte := k.mem[t].w[PX(0, i)];
      assert t != 0 && IsValid(pte);                       // no panic
      assert IsBytes(k.mem[pte.ppn]);
      ghost var m, h := k.mem, k.g;
      var ok := GrowPage(k, child, i, k.mem[pte.ppn], pte.flags);
      GrownTrans(old(k.mem), old(k.g), m, h, k.mem, k.g, child, 0, v, if ok then v + 1 else v);
      GrownSized(h.spaces[child].leaf, k.g.spaces[child].leaf, v, if ok then v + 1 else v);
      if !ok {
        CannotPay(old(k.g), h, child, 0, v, v + 1, NPages(sz), v, 1);
        NotBacked(old(k.mem), old(k.g), child, 0, v);
        m, h := k.mem, k.g;
        k.UvmUnmap(child, 0, i / PGSIZE, true);
        GrownThenUnmapped(old(k.mem), old(k.g), m, h, k.mem, k.g, child, 0, v);
        return -1;
      }
      CopiesMore(m, h, k.mem, k.g, parent, child, v);
      PaidMore(old(k.g), h, k.g, child, 0, v, v + 1, v, 1);
      v := v + 1;
      i := i + PGSIZE;
    }
    RoundsTo(sz, v);
    PaidWithin(old(k.g), k.g, child, 0, v, v);
    return 0;
  }

  lemma CopiesNone(mem: Memory, parent: map<nat, Pte>, child: map<nat, Pte>)
    ensures Copies(mem, parent, child, 0)
  {
  }

  // ----- Bytes of user memory -----

  predicate UserMapped(sp: Space, va: nat) { va / PGSIZE in sp.leaf && va / PGSIZE < TRAPFRAME }

  /** User code may touch address va. */
  predicate Reachable(sp: Space, va: nat) { va / PGSIZE in sp.leaf && IsUser(sp.leaf[va / PGSIZE]) }

  ghost predicate HasBytes(mem: Memory, sp: Space) {
    forall v :: v in sp.leaf && v < TRAPFRAME ==> sp.leaf[v].ppn in mem && IsBytes(mem[sp.leaf[v].ppn])
  }

  /** The byte at address va of an address space. */
  ghost function ByteAt(mem: Memory, sp: Space, va: nat): nat
    requires HasBytes(mem, sp) && UserMapped(sp, va)
  {
    mem[sp.leaf[va / PGSIZE].ppn].b[va % PGSIZE]
  }

  lemma ValidBytes(mem: Memory, g: Ghost, id: nat)
    requires Inv(mem, g) && UserBytes(mem, g.own) && id in g.spaces
    ensures HasBytes(mem, g.spaces[id])
    ensures forall va: nat :: Reachable(g.spaces[id], va) ==> UserMapped(g.spaces[id], va) && va < MAXVA
  {
    hide Inv;
    forall v | v in g.spaces[id].leaf && v < TRAPFRAME
      ensures g.spaces[id].leaf[v].ppn in mem && IsBytes(mem[g.spaces[id].leaf[v].ppn])
    {
      LeafPage(mem, g, id, v);
    }
    forall va: nat | Reachable(g.spaces[id], va)
      ensures UserMapped(g.spaces[id], va) && va < MAXVA
    {
      LeafPage(mem, g, id, va / PGSIZE);
    }
  }

  ghost predicate AllBytes(mem: Memory, g: Ghost) {
    forall id :: id in g.spaces ==> HasBytes(mem, g.spaces[id])
  }

  /** What a change of memory did to the bytes of address space id: those from va on are
      `bytes` now if it is space pt, and no others changed. */
  ghost predicate Wrote(m0: Memory, m1: Memory, sp: Space, va: nat, bytes: seq<nat>, here: bool)
    requires HasBytes(m0, sp) && HasBytes(m1, sp)
  {
    forall a: nat :: UserMapped(sp, a) ==>
      ByteAt(m1, sp, a) == if here && va <= a < va + |bytes| then bytes[a - va] else ByteAt(m0, sp, a)
  }

  ghost predicate WroteAll(m0: Memory, m1: Memory, g: Ghost, pt: nat, va: nat, bytes: seq<nat>)
    requires AllBytes(m0, g) && AllBytes(m1, g)
  {
    forall id :: id in g.spaces ==> Wrote(m0, m1, g.spaces[id], va, bytes, id == pt)
  }

  lemma SamePage(va: nat, a: nat)
    ensures a / PGSIZE == va / PGSIZE ==> a - va == a % PGSIZE - va % PGSIZE
    ensures va <= a < va + PGSIZE - va % PGSIZE ==> a / PGSIZE == va / PGSIZE
  {
  }

  /** A store into the page behind va is seen at va in pt, and nowhere else. */
  lemma StoreSeen(m0: Memory, g: Ghost, pt: nat, va: nat, chunk: seq<nat>, p: nat, m1: Memory, id: nat)
    requires Inv(m0, g) && pt in g.spaces && id in g.spaces && UserMapped(g.spaces[pt], va)
    requires p == g.spaces[pt].leaf[va / PGSIZE].ppn
    requires HasBytes(m0, g.spaces[pt]) && HasBytes(m0, g.spaces[id]) && va % PGSIZE + |chunk| <= PGSIZE
    requires m1 == m0[p := Bytes(Splice(m0[p].b, va % PGSIZE, chunk))]
    ensures HasBytes(m1, g.spaces[id]) && Wrote(m0, m1, g.spaces[id], va, chunk, id == pt)
  {
    hide Inv;
    LeafPage(m0, g, pt, va / PGSIZE);
    forall v | v in g.spaces[id].leaf && v < TRAPFRAME
      ensures g.spaces[id].leaf[v].ppn == p <==> id == pt && v == va / PGSIZE
    {
      LeafPage(m0, g, id, v);
    }
    forall a: nat | UserMapped(g.spaces[id], a)
      ensures ByteAt(m1, g.spaces[id], a) ==
              if id == pt && va <= a < va + |chunk| then chunk[a - va] else ByteAt(m0, g.spaces[id], a)
    {
      SamePage(va, a);
      SamePage(a, va);
    }
  }

  lemma WroteMore(m0: Memory, m1: Memory, m2: Memory, sp: Space, va: nat, done: seq<nat>, chunk: seq<nat>, here: bool)
    requires HasBytes(m0, sp) && HasBytes(m1, sp) && HasBytes(m2, sp)
    requires Wrote(m0, m1, sp, va, done, here) && Wrote(m1, m2, sp, va + |done|, chunk, here)
    ensures Wrote(m0, m2, sp, va, done + chunk, here)
  {
  }

  // ----- copyout, copyin -----

  /** The physical page behind va, or 0 if user code may not touch va. */
  method WalkAddr(k: Kernel, pt: nat, va: nat) returns (p: nat)
    requires k.Valid() && pt in k.g.spaces
    modifies k
    ensures k.Valid() && k.mem == old(k.mem) && k.g == old(k.g) && k.freelist == old(k.freelist)
    ensures p != 0 <==> Reachable(k.g.spaces[pt], va)
    ensures p != 0 ==> va < MAXVA && va / PGSIZE < TRAPFRAME && p == k.g.spaces[pt].leaf[va / PGSIZE].ppn
  {
    hide Inv, UserBytes;
    if va / PGSIZE in k.g.spaces[pt].leaf {
      LeafPage(k.mem, k.g, pt, va / PGSIZE);
    }
    if va >= MAXVA {
      return 0;
    }
    var t := k.Walk(pt, va, false);
    if t == 0 {
      return 0;
    }
    EntryIsLeaf(k.mem, k.g, pt, va);
    var pte := k.mem[t].w[PX(0, va)];
    if !IsValid(pte) {
      return 0;
    }
    if !IsUser(pte) {
      return 0;
    }
    p := pte.ppn;
  }

  /** Only pages of the address space pt may differ. */
  ghost predicate Untouched(m0: Memory, m1: Memory, own: map<nat, Owner>, pt: nat) {
    m1.Keys == m0.Keys && forall p :: p in m0 && !(p in own && OwnedBy(own[p], pt)) ==> m1[p] == m0[p]
  }

  /** memmove into a user page. */
  method WritePage(k: Kernel, pt: nat, va: nat, p: nat, chunk: seq<nat>)
    requires k.Valid() && pt in k.g.spaces && UserMapped(k.g.spaces[pt], va)
    requires p == k.g.spaces[pt].leaf[va / PGSIZE].ppn
    requires va % PGSIZE + |chunk| <= PGSIZE
    modifies k
    ensures k.Valid() && k.g == old(k.g) && k.freelist == old(k.freelist)
    ensures AllBytes(old(k.mem), k.g) && AllBytes(k.mem, k.g) && WroteAll(old(k.mem), k.mem, k.g, pt, va, chunk)
    ensures p in k.mem && k.mem == old(k.mem)[p := k.mem[p]] && Untouched(old(k.mem), k.mem, k.g.own, pt)
  {
    hide Inv, Wrote, HasBytes, Splice;
    LeafPage(k.mem, k.g, pt, va / PGSIZE);
    forall id | id in k.g.spaces
      ensures HasBytes(k.mem, k.g.spaces[id])
    {
      ValidBytes(k.mem, k.g, id);
    }
    k.mem := k.mem[p := Bytes(Splice(k.mem[p].b, va % PGSIZE, chunk))];
    WriteUser(old(k.mem), k.g, p, k.mem[p], k.mem);
    forall id | id in k.g.spaces
      ensures HasBytes(k.mem, k.g.spaces[id]) && Wrote(old(k.mem), k.mem, k.g.spaces[id], va, chunk, id == pt)
    {
      StoreSeen(old(k.mem), k.g, pt, va, chunk, p, k.mem, id);
    }
  }

  /** Copies src to dstva. It succeeds if and only if user code may touch every byte of the
      range; either way the bytes up to the first it may not touch are written, and no other
      byte of any address space changes. */
  method CopyOut(k: Kernel, pt: nat, dstva: nat, src: seq<nat>) returns (r: int, ghost n: nat)
    requires k.Valid() && pt in k.g.spaces
    modifies k
    ensures k.Valid() && k.g == old(k.g) && (r == 0 || r == -1)
    ensures AllBytes(old(k.mem), k.g) && AllBytes(k.mem, k.g) && Untouched(old(k.mem), k.mem, k.g.own, pt)
    ensures n <= |src| && WroteAll(old(k.mem), k.mem, k.g, pt, dstva, src[..n])
    ensures forall a :: dstva <= a < dstva + n ==> Reachable(k.g.spaces[pt], a)
    ensures r == 0 ==> n == |src|
    ensures r == -1 ==> n < |src| && !Reachable(k.g.spaces[pt], dstva + n)
  {
    hide Inv, UserBytes, HasBytes, Wrote;
    n := 0;
    WroteNothing(k, pt, dstva);
    var dst, len := dstva, |src|;
    while len > 0
      invariant n + len == |src| && len >= 0 && (len > 0 ==> dst == dstva + n)
      invariant k.Valid() && k.g == old(k.g) && AllBytes(old(k.mem), k.g) && AllBytes(k.mem, k.g)
      invariant WroteAll(old(k.mem), k.mem, k.g, pt, dstva, src[..n]) && Untouched(old(k.mem), k.mem, k.g.own, pt)
      invariant forall a :: dstva <= a < dstva + n ==> Reachable(k.g.spaces[pt], a)
    {
      var va0 := PGROUNDDOWN(dst);
      OffsetIs(dst);
      var p := WalkAddr(k, pt, va0);
      if p == 0 {
        return -1, n;
      }
      var c := PGSIZE - (dst - va0);
      if c > len {
        c := len;
      }
      ghost var m := k.mem;
      var chunk := src[|src| - len..|src| - len + c];
      WritePage(k, pt, dst, p, chunk);
      WroteAllMore(old(k.mem), m, k.mem, k.g, pt, dstva, src[..n], chunk);
      assert src[..n] + chunk == src[..n + c];
      ChunkReachable(k.g.spaces[pt], dst, c);
      len := len - c;
      n := n + c;
      dst := va0 + PGSIZE;
    }
    return 0, n;
  }

  lemma OffsetIs(dst: nat)
    ensures dst - PGROUNDDOWN(dst) == dst % PGSIZE && PGROUNDDOWN(dst) / PGSIZE == dst / PGSIZE
  {
  }

  lemma ChunkReachable(sp: Space, dst: nat, c: nat)
    requires Reachable(sp, dst) && dst % PGSIZE + c <= PGSIZE
    ensures forall a :: dst <= a < dst + c ==> Reachable(sp, a)
  {
    forall a | dst <= a < dst + c
      ensures Reachable(sp, a)
    {
      SamePage(dst, a);
    }
  }

  lemma WroteNothing(k: Kernel, pt: nat, va: nat)
    requires k.Valid()
    ensures AllBytes(k.mem, k.g) && WroteAll(k.mem, k.mem, k.g, pt, va, [])
  {
    hide Inv;
    forall id | id in k.g.spaces
      ensures HasBytes(k.mem, k.g.spaces[id])
    {
      ValidBytes(k.mem, k.g, id);
    }
  }

  lemma WroteAllMore(m0: Memory, m1: Memory, m2: Memory, g: Ghost, pt: nat, va: nat, done: seq<nat>, chunk: seq<nat>)
    requires AllBytes(m0, g) && AllBytes(m1, g) && AllBytes(m2, g)
    requires WroteAll(m0, m1, g, pt, va, done) && WroteAll(m1, m2, g, pt, va + |done|, chunk)
    ensures WroteAll(m0, m2, g, pt, va, done + chunk)
  {
    hide Wrote;
    forall id | id in g.spaces
      ensures Wrote(m0, m2, g.spaces[id], va, done + chunk, id == pt)
    {
      WroteMore(m0, m1, m2, g.spaces[id], va, done, chunk, id == pt);
    }
  }

  /** Copies len bytes from srcva, or fails if user code may not touch one of them. */
  method CopyIn(k: Kernel, pt: nat, srcva: nat, len: nat) returns (r: int, dst: seq<nat>)
    requires k.Valid() && pt in k.g.spaces
    modifies k
    ensures k.Valid() && k.g == old(k.g) && k.mem == old(k.mem)
    ensures HasBytes(k.mem, k.g.spaces[pt])
    ensures (r == 0 || r == -1) && |dst| <= len && (r == 0 <==> |dst| == len)
    ensures forall a :: srcva <= a < srcva + |dst| ==>
              && UserMapped(k.g.spaces[pt], a) && Reachable(k.g.spaces[pt], a)
              && dst[a - srcva] == ByteAt(k.mem, k.g.spaces[pt], a)
    ensures r == -1 ==> !Reachable(k.g.spaces[pt], srcva + |dst|)
  {
    hide Inv, UserBytes;
    ValidBytes(k.mem, k.g, pt);
    dst := [];
    var src, left := srcva, len;
    while left > 0
      invariant |dst| + left == len && left >= 0 && (left > 0 ==> src == srcva + |dst|)
      invariant k.Valid() && k.g == old(k.g) && k.mem == old(k.mem)
      invariant forall a :: srcva <= a < srcva + |dst| ==>
                  && UserMapped(k.g.spaces[pt], a) && Reachable(k.g.spaces[pt], a)
                  && dst[a - srcva] == ByteAt(k.mem, k.g.spaces[pt], a)
    {
      var va0 := PGROUNDDOWN(src);
      OffsetIs(src);
      var p := WalkAddr(k, pt, va0);
      if p == 0 {
        return -1, dst;
      }
      var c := PGSIZE - (src - va0);
      if c > left {
        c := left;
      }
      assert IsBytes(k.mem[p]);
      var chunk := k.mem[p].b[src - va0..src - va0 + c];
      ChunkRead(k.mem, k.g.spaces[pt], src, chunk);
      dst := dst + chunk;
      left := left - c;
      src := va0 + PGSIZE;
    }
    return 0, dst;
  }

  lemma ChunkRead(mem: Memory, sp: Space, src: nat, chunk: seq<nat>)
    requires HasBytes(mem, sp) && Reachable(sp, src) && src / PGSIZE < TRAPFRAME && src % PGSIZE + |chunk| <= PGSIZE
    requires chunk == mem[sp.leaf[src / PGSIZE].ppn].b[src % PGSIZE..src % PGSIZE + |chunk|]
    ensures forall a :: src <= a < src + |chunk| ==>
              UserMapped(sp, a) && Reachable(sp, a) && chunk[a - src] == ByteAt(mem, sp, a)
  {
    forall a | src <= a < src + |chunk|
      ensures UserMapped(sp, a) && Reachable(sp, a) && chunk[a - src] == ByteAt(mem, sp, a)
    {
      SamePage(src, a);
    }
  }

  /** dst holds the bytes from va on, and none of them ends a string. */
  ghost predicate IsText(mem: Memory, sp: Space, va: nat, dst: seq<nat>)
    requires HasBytes(mem, sp)
  {
    forall a :: va <= a < va + |dst| ==>
      UserMapped(sp, a) && Reachable(sp, a) && dst[a - va] == ByteAt(mem, sp, a) && dst[a - va] != 0
  }

  /** Copies a string of at most max bytes, its 0 included. It fails when the string is
      longer, or when user code may not touch a byte before its end. */
  method CopyInStr(k: Kernel, pt: nat, srcva: nat, max: nat) returns (r: int, dst: seq<nat>)
    requires k.Valid() && pt in k.g.spaces
    modifies k
    ensures k.Valid() && k.g == old(k.g) && k.mem == old(k.mem) && HasBytes(k.mem, k.g.spaces[pt])
    ensures (r == 0 || r == -1)
    ensures r == 0 ==>
              && 0 < |dst| <= max && dst[|dst| - 1] == 0 && IsText(k.mem, k.g.spaces[pt], srcva, dst[..|dst| - 1])
              && var sp, end := k.g.spaces[pt], srcva + |dst| - 1;
                 UserMapped(sp, end) && Reachable(sp, end) && ByteAt(k.mem, sp, end) == 0
    ensures r == -1 ==>
              && IsText(k.mem, k.g.spaces[pt], srcva, dst)
              && (|dst| == max || (|dst| < max && !Reachable(k.g.spaces[pt], srcva + |dst|)))
  {
    hide Inv, UserBytes, HasBytes, IsText;
    ValidBytes(k.mem, k.g, pt);
    dst := [];
    TextNone(k.mem, k.g.spaces[pt], srcva);
    var src, left, gotNull := srcva, max, false;
    while !gotNull && left > 0
      invariant k.Valid() && k.g == old(k.g) && k.mem == old(k.mem) && left >= 0
      invariant !gotNull ==> |dst| + left == max && (left > 0 ==> src == srcva + |dst|)
      invariant !gotNull ==> IsText(k.mem, k.g.spaces[pt], srcva, dst)
      invariant gotNull ==> StringRead(k.mem, k.g.spaces[pt], srcva, dst, max)
      decreases if gotNull then 0 else 1, left
    {
      var va0 := PGROUNDDOWN(src);
      OffsetIs(src);
      var p := WalkAddr(k, pt, va0);
      if p == 0 {
        return -1, dst;
      }
      var n := PGSIZE - (src - va0);
      if n > left {
        n := left;
      }
      PageBytes(k.mem, k.g.spaces[pt], src, p);
      var b := k.mem[p].b;
      var at, from := src - va0, |dst|;
      while n > 0
        invariant 0 <= n <= left && |dst| + left == max && from <= |dst| && at == src % PGSIZE + (|dst| - from)
        invariant at + n <= PGSIZE
        invariant n < left ==> at + n == PGSIZE
        invariant IsText(k.mem, k.g.spaces[pt], srcva, dst) && !gotNull
        modifies {}
      {
        ByteIs(k.mem, k.g.spaces[pt], src, p, srcva + |dst|);
        if b[at] == 0 {
          assert (dst + [0])[..|dst|] == dst;
          dst := dst + [0];
          gotNull := true;
          break;
        } else {
          TextMore(k.mem, k.g.spaces[pt], srcva, dst, b[at]);
          dst := dst + [b[at]];
        }
        n := n - 1;
        left := left - 1;
        at := at + 1;
      }
      src := va0 + PGSIZE;
    }
    r := if gotNull then 0 else -1;
  }

  lemma TextNone(mem: Memory, sp: Space, va: nat)
    requires HasBytes(mem, sp)
    ensures IsText(mem, sp, va, [])
  {
  }

  lemma TextMore(mem: Memory, sp: Space, va: nat, dst: seq<nat>, x: nat)
    requires HasBytes(mem, sp) && IsText(mem, sp, va, dst) && x != 0
    requires UserMapped(sp, va + |dst|) && Reachable(sp, va + |dst|) && x == ByteAt(mem, sp, va + |dst|)
    ensures IsText(mem, sp, va, dst + [x])
  {
    forall a | va <= a < va + |dst| + 1
      ensures UserMapped(sp, a) && Reachable(sp, a) && (dst + [x])[a - va] == ByteAt(mem, sp, a)
      ensures (dst + [x])[a - va] != 0
    {
      if a < va + |dst| {
        assert dst[a - va] == ByteAt(mem, sp, a);
      }
    }
  }

  ghost predicate StringRead(mem: Memory, sp: Space, va: nat, dst: seq<nat>, max: nat)
    requires HasBytes(mem, sp)
  {
    && 0 < |dst| <= max && dst[|dst| - 1] == 0 && IsText(mem, sp, va, dst[..|dst| - 1])
    && UserMapped(sp, va + |dst| - 1) && Reachable(sp, va + |dst| - 1) && ByteAt(mem, sp, va + |dst| - 1) == 0
  }

  lemma PageBytes(mem: Memory, sp: Space, src: nat, p: nat)
    requires HasBytes(mem, sp) && UserMapped(sp, src) && p == sp.leaf[src / PGSIZE].ppn
    ensures p in mem && IsBytes(mem[p])
  {
  }

  lemma ByteIs(mem: Memory, sp: Space, src: nat, p: nat, a: nat)
    requires HasBytes(mem, sp) && UserMapped(sp, src) && Reachable(sp, src) && p == sp.leaf[src / PGSIZE].ppn
    requires src <= a < src + PGSIZE - src % PGSIZE
    ensures UserMapped(sp, a) && Reachable(sp, a) && a % PGSIZE == src % PGSIZE + (a - src)
    ensures p in mem && IsBytes(mem[p]) && ByteAt(mem, sp, a) == mem[p].b[a % PGSIZE]
  {
    SamePage(src, a);
  }

  /** copyout then copyin over any range, crossing any number of pages, returns the bytes
      written; and what another address space reads does not change. */
  method RoundTrip(k: Kernel, pt: nat, va: nat, src: seq<nat>, other: nat) returns (r: int, back: seq<nat>)
    requires k.Valid() && pt in k.g.spaces && other in k.g.spaces && other != pt
    modifies k
    ensures k.Valid() && k.g == old(k.g)
    ensures r == 0 <==> forall a :: va <= a < va + |src| ==> Reachable(k.g.spaces[pt], a)
    ensures r == 0 ==> back == src
    ensures HasBytes(old(k.mem), k.g.spaces[other]) && HasBytes(k.mem, k.g.spaces[other])
    ensures forall a: nat :: UserMapped(k.g.spaces[other], a) ==>
              ByteAt(k.mem, k.g.spaces[other], a) == ByteAt(old(k.mem), k.g.spaces[other], a)
  {
    hide Inv, UserBytes, HasBytes, ByteAt;
    var w, n := CopyOut(k, pt, va, src);
    assert Wrote(old(k.mem), k.mem, k.g.spaces[other], va, src[..n], false);
    if w == 0 {
      assert src[..n] == src;
      assert Wrote(old(k.mem), k.mem, k.g.spaces[pt], va, src, true);
      r, back := CopyIn(k, pt, va, |src|);
      ReadBack(k.mem, k.g.spaces[pt], va, src, back, old(k.mem), r);
    } else {
      r, back := w, [];
    }
  }

  lemma ReadBack(mem: Memory, sp: Space, va: nat, src: seq<nat>, back: seq<nat>, m0: Memory, r: int)
    requires HasBytes(mem, sp) && HasBytes(m0, sp) && Wrote(m0, mem, sp, va, src, true) && |back| <= |src|
    requires forall a :: va <= a < va + |src| ==> Reachable(sp, a)
    requires (r == 0 <==> |back| == |src|) && (r != 0 ==> !Reachable(sp, va + |back|))
    requires forall a :: va <= a < va + |back| ==> UserMapped(sp, a) && back[a - va] == ByteAt(mem, sp, a)
    ensures r == 0 && back == src
  {
    forall i | 0 <= i < |src| && i < |back|
      ensures back[i] == src[i]
    {
      assert UserMapped(sp, va + i) && back[va + i - va] == ByteAt(mem, sp, va + i);
    }
  }

  /** After uvmcopy the child reads what the parent reads, from pages of its own. */
  lemma ForkIsolation(mem: Memory, g: Ghost, parent: nat, child: nat, n: nat)
    requires Inv(mem, g) && UserBytes(mem, g.own) && parent in g.spaces && child in g.spaces && parent != child
    requires n <= TRAPFRAME
    requires Copies(mem, g.spaces[parent].leaf, g.spaces[child].leaf, n)
    ensures HasBytes(mem, g.spaces[parent]) && HasBytes(mem, g.spaces[child])
    ensures forall va: nat :: va / PGSIZE < n ==>
              && UserMapped(g.spaces[parent], va) && UserMapped(g.spaces[child], va)
              && ByteAt(mem, g.spaces[child], va) == ByteAt(mem, g.spaces[parent], va)
              && (Reachable(g.spaces[child], va) <==> Reachable(g.spaces[parent], va))
    ensures forall v, w :: 0 <= v < n && 0 <= w < n ==>
              && v in g.spaces[parent].leaf && w in g.spaces[child].leaf
              && g.spaces[parent].leaf[v].ppn != g.spaces[child].leaf[w].ppn
  {
    hide Inv;
    ValidBytes(mem, g, parent);
    ValidBytes(mem, g, child);
    forall v, w | 0 <= v < n && 0 <= w < n
      ensures v in g.spaces[parent].leaf && w in g.spaces[child].leaf
      ensures g.spaces[parent].leaf[v].ppn != g.spaces[child].leaf[w].ppn
    {
      LeafPage(mem, g, parent, v);
      LeafPage(mem, g, child, w);
    }
  }
}
