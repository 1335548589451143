/** malloc, free and morecore (user/umalloc.c) on the free list. */
module Umalloc {
  import opened Counting
  import opened FreeList

  const NULL: int := -1
  const HEADER: nat := 16                  // sizeof(Header)
  const MORE: nat := 4096

  /** The header and the smallest number of units that hold nbytes. */
  function Units(nbytes: nat): (n: nat)
    ensures n >= 1 && (n - 1) * HEADER >= nbytes && (nbytes > 0 ==> (n - 2) * HEADER < nbytes)
  {
    (nbytes + HEADER - 1) / HEADER + 1
  }

  /** What morecore asks sbrk for. */
  function Ask(nu: nat): nat { if nu < MORE then MORE else nu }

  lemma AskEnough(nu: nat)
    ensures Ask(nu) >= nu
  {
  }

  /** Indices strictly between k and i, going up from k and around. */
  ghost predicate Between(k: nat, i: nat, x: nat) { if k < i then k < x < i else x > k || x < i }

  /** A call of sbrk: n units from address `at` on, if it was granted. */
  datatype Sbrk = Sbrk(at: nat, n: nat, granted: bool)

  /** The units that the calls have obtained. */
  ghost function Obtained(calls: seq<Sbrk>): set<nat> {
    if calls == [] then {}
    else
      var last := calls[|calls| - 1];
      Obtained(calls[..|calls| - 1]) + if last.granted then Interval(last.at, last.n) else {}
  }

  lemma ObtainedMore(calls: seq<Sbrk>, c: Sbrk)
    ensures Obtained(calls + [c]) == Obtained(calls) + if c.granted then Interval(c.at, c.n) else {}
  {
    assert (calls + [c])[..|calls|] == calls;
  }

  class Heap {
    const base: nat
    var ptr: map<nat, nat>
    var size: map<nat, nat>
    var freep: int
    var brk: nat
    ghost var list: seq<nat>
    ghost var alloc: map<nat, nat>         // blocks handed out, with their sizes
    ghost var owner: map<nat, nat>         // every unit obtained from sbrk, with its block
    ghost var calls: seq<Sbrk>             // every call of sbrk so far

    ghost function Mem(): Memory
      reads this
    {
      Memory(ptr, size)
    }

    ghost predicate Valid()
      reads this
    {
      && base < brk && (forall u :: u in owner ==> base < u < brk) && owner.Keys == Obtained(calls)
      && if freep == NULL then list == [] && alloc == map[] && owner == map[] else Ready()
    }

    ghost predicate Ready()
      reads this
    {
      freep >= 0 && freep as nat in list && ListInv(base, list, Mem(), -1) && OwnInv(list, Mem(), alloc, owner)
    }

    constructor (base: nat, brk: nat)
      requires base < brk
      ensures Valid() && this.base == base && this.brk == brk && freep == NULL && calls == []
    {
      this.base, this.brk, freep := base, brk, NULL;
      ptr, size, list, alloc, owner, calls := map[], map[], [], map[], map[], [];
    }

    /** free's search: from anywhere in the list to the place where bp belongs. */
    method Search(bp: nat, ghost j: nat) returns (p: nat)
      requires Valid() && Ready() && base < bp && IsPlace(list, bp, j)
      ensures p == list[j]
    {
      p := freep;
      ghost var i :| 0 <= i < |list| && list[i] == p;
      assert NodeOk(list, Mem(), i);
      StopsAt(base, list, Mem(), bp, i, j);
      while !(p < bp < ptr[p])
        invariant i < |list| && p == list[i] && NodeOk(list, Mem(), i)
        invariant Stops(p, ptr[p], bp) <==> i == j
        decreases if i <= j then j - i else j + |list| - i
      {
        if p >= ptr[p] && (bp > p || bp < ptr[p]) {
          break;
        }
        p := ptr[p];
        i := if i + 1 < |list| then i + 1 else 0;
        assert NodeOk(list, Mem(), i);
        StopsAt(base, list, Mem(), bp, i, j);
      }
    }

    /** free's first if: bp takes over the next block when it ends where that one starts. */
    method JoinNext(p: nat, bp: nat, ghost j: nat, ghost joins: bool)
      requires j < |list| && p == list[j] && NodeOk(list, Mem(), j) && bp in size && bp != p
      requires joins == (bp + size[bp] == Succ(list, j)) && (joins ==> j + 1 < |list| && NodeOk(list, Mem(), j + 1))
      modifies `ptr, `size
      ensures bp in ptr && p in size && bp in size
      ensures Memory(ptr[p := bp], size) == Linked(list, old(Mem()), j, bp, joins)
    {
      if bp + size[bp] == ptr[p] {
        size := size[bp := size[bp] + size[ptr[p]]];
        ptr := ptr[bp := ptr[ptr[p]]];
      } else {
        ptr := ptr[bp := ptr[p]];
      }
    }

    /** free's second if: p takes bp over when it ends where bp starts. */
    method JoinPrev(p: nat, bp: nat)
      requires p in size && bp in size && bp in ptr && p != bp
      modifies `ptr, `size
      ensures var m1 := Memory(old(ptr)[p := bp], old(size));
              Mem() == if p + old(size)[p] == bp then Joined(m1, p, bp) else m1
    {
      if p + size[p] == bp {
        size := size[p := size[p] + size[bp]];
        ptr := ptr[p := ptr[bp]];
      } else {
        ptr := ptr[p := bp];
      }
    }

    /** Puts a block back on the list, joined with its neighbours where they are free. No unit is
        lost, and the block that now holds bp is at least as large as bp was. */
    method Free(bp: nat)
      requires Valid() && bp in alloc
      modifies `ptr, `size, `freep, `list, `alloc, `owner
      ensures Valid() && Ready() && alloc == old(alloc) - {bp} && owner.Keys == old(owner.Keys)
      ensures bp in owner && Listed(list, owner[bp]) && owner[bp] in size && size[owner[bp]] >= old(alloc)[bp]
    {
      hide ListInv, OwnInv, Moved, Listed, Linked, Joined, Inserted, CanInsert, IsPlace;
      ghost var m0, list0 := Mem(), list;
      AllocUnit(base, list, m0, alloc, owner, bp);
      ghost var j := HasPlace(base, list0, m0, bp, |list0| - 1);
      var p := Search(bp, j);
      MayInsert(base, list0, m0, alloc, owner, bp, j);
      ghost var joins := bp + size[bp] == Succ(list0, j);
      JoinsNext(base, list0, m0, j, bp, joins);
      JoinNext(p, bp, j, joins);
      ghost var m1, list1 := Memory(ptr[p := bp], size), Inserted(list0, j, bp, joins);
      InsertList(base, list0, m0, j, bp, joins, list1, m1);
      ghost var owner1 := if joins then Moved(owner, Succ(list0, j), bp) else owner;
      FirstIf(base, list0, m0, alloc, owner, bp, j, joins, list1, m1, owner1);
      InsertedThere(base, list0, m0, owner, j, bp, joins, list1, m1, owner1);
      TwoNodes(base, list1, m1, j);
      ghost var back := p + size[p] == bp;
      JoinPrev(p, bp);
      ghost var list2 := if back then list1[..j + 1] + list1[j + 2..] else list1;
      ghost var owner2 := if back then Moved(owner1, bp, p) else owner1;
      SecondIf(base, list1, m1, alloc - {bp}, owner1, j, back, list2, Mem(), owner2);
      FreedAt(list1, m1, owner1, j, back, list2, Mem(), owner2);
      freep, list, alloc, owner := p, list2, alloc - {bp}, owner2;
    }

    /** The memory that sbrk has granted, as one block that is handed out. */
    method Extend(p: nat, n: nat)
      requires Valid() && Ready() && brk <= p && n > 0
      modifies `size, `brk, `alloc, `owner, `calls
      ensures Valid() && Ready() && p !in old(alloc) && alloc == old(alloc)[p := n] && brk == p + n
      ensures calls == old(calls) + [Sbrk(p, n, true)]
    {
      hide ListInv, OwnInv, Grown, Obtained;
      ghost var m0 := Mem();
      AboveAll(base, list, m0, alloc, owner, p);
      brk := p + n;
      size := size[p := n];
      GrowList(base, list, m0, p, n, Mem());
      GrowOwn(list, m0, alloc, owner, p, n, Mem());
      Granted(calls, base, owner, p, n);
      calls := calls + [Sbrk(p, n, true)];
      alloc, owner := alloc[p := n], Grown(owner, p, n);
    }

    /** Memory from sbrk, `gap` units above the last break, as one more free block. (sbrk can fail;
        other code may have moved the break.) */
    method Morecore(nu: nat, granted: bool, gap: nat) returns (ok: bool)
      requires Valid() && Ready() && nu > 0
      modifies this
      ensures Valid() && Ready() && ok == granted && alloc == old(alloc)
      ensures calls == old(calls) + [Sbrk(old(brk) + gap, Ask(nu), granted)]
      ensures !ok ==> Mem() == old(Mem()) && list == old(list) && owner == old(owner) && brk == old(brk)
      ensures !ok ==> freep == old(freep)
      ensures ok ==> HasRoom(list, Mem(), nu) && brk == old(brk) + gap + Ask(nu)
    {
      hide ListInv, OwnInv, HasRoom, Listed, Obtained, Ask;
      assert Ask(nu) >= nu by { AskEnough(nu); }
      var n := Ask(nu);
      var p := brk + gap;
      if !granted {
        ObtainedMore(calls, Sbrk(p, n, false));
        calls := calls + [Sbrk(p, n, false)];
        return false;
      }
      Extend(p, n);
      Free(p);
      RoomAt(list, Mem(), owner[p], nu);
      return true;
    }

    /** Hands out all of block p, or its last n units. */
    method Take(prevp: nat, p: nat, n: nat, ghost i: nat) returns (r: nat)
      requires Valid() && Ready() && 0 < i < |list| && p == list[i] && prevp == list[i - 1] && p in size
      requires 0 < n <= size[p]
      modifies `ptr, `size, `freep, `list, `alloc, `owner
      ensures Valid() && Ready() && r !in old(alloc) && alloc == old(alloc)[r := n] && owner.Keys == old(owner.Keys)
    {
      hide ListInv, OwnInv, Carved, Unrepeated;
      ghost var m0 := Mem();
      assert NodeOk(list, m0, i) by { ListNode(base, list, m0, i); }
      ListUnrepeated(base, list, m0, -1);
      if size[p] == n {
        ptr := ptr[prevp := ptr[p]];
        r := p;
        ghost var list1 := list[..i] + list[i + 1..];
        UnlinkList(base, list, m0, i, list1, Mem());
        UnlinkOwn(list, m0, alloc, owner, i, list1, Mem());
        list, alloc := list1, alloc[r := n];
        assert list[i - 1] == prevp;
      } else {
        size := size[p := size[p] - n];
        r := p + size[p];
        size := size[r := n];
        SplitList(base, list, m0, i, n, Mem());
        SplitOwn(list, m0, alloc, owner, i, n, r, Mem(), alloc[r := n], Carved(owner, p, r));
        alloc, owner := alloc[r := n], Carved(owner, p, r);
      }
      freep := prevp;
    }

    /** malloc's first if: the list of a heap that has not been used is its base. */
    method Start(ghost n: nat)
      requires Valid() && n > 0
      modifies `ptr, `size, `freep, `list
      ensures Valid() && Ready() && HasRoom(list, Mem(), n) == old(HasRoom(list, Mem(), n))
    {
      if freep == NULL {
        ptr, size, freep := ptr[base := base], size[base := 0], base;
        list := [base];
        OnlyBase(base, list, Mem(), alloc, owner);
        BaseIsSmall(base, old(Mem()), Mem(), n);
      }
    }

    /** malloc. It finds a block at once, or after one call of morecore, or that call fails and no
        free block was large enough. (caller: the request in bytes fits an int, so that sbrk sees
        the size it is meant to see.) */
    method Malloc(nbytes: nat, granted: bool, gap: nat) returns (r: int)
      requires Valid() && Units(nbytes) * HEADER < 0x8000_0000
      modifies this
      ensures Valid() && Ready()
      ensures r >= 0 ==> r !in old(alloc) && alloc == old(alloc)[r as nat := Units(nbytes)]
      ensures r < 0 ==> !granted && alloc == old(alloc) && owner == old(owner)
      ensures r < 0 <==> !granted && !old(HasRoom(list, Mem(), Units(nbytes)))
      ensures calls == if old(HasRoom(list, Mem(), Units(nbytes))) then old(calls)
                       else old(calls) + [Sbrk(old(brk) + gap, Ask(Units(nbytes)), granted)]
    {
      hide ListInv, OwnInv, HasRoom, Obtained, Units, Ask, Tried;
      var nunits := Units(nbytes);
      Start(nunits);
      var prevp: nat := freep;
      ghost var k :| 0 <= k < |list| && list[k] == prevp;
      ghost var grown := false;
      ListNode(base, list, Mem(), k);
      var p := ptr[prevp];
      TriedMore(list, Mem(), k, k, nunits);
      ghost var i := if k + 1 < |list| then k + 1 else 0;
      while true
        invariant Valid() && Ready() && alloc == old(alloc) && k < |list| && i < |list| && list[k] == freep
        invariant p == list[i] && prevp == list[if i > 0 then i - 1 else |list| - 1]
        invariant Tried(list, Mem(), k, i, nunits)
        invariant grown ==> granted && HasRoom(list, Mem(), nunits) && !old(HasRoom(list, Mem(), Units(nbytes)))
        invariant grown ==> calls == old(calls) + [Sbrk(old(brk) + gap, Ask(nunits), granted)]
        invariant !grown ==> owner == old(owner) && brk == old(brk) && calls == old(calls)
        invariant !grown ==> HasRoom(list, Mem(), nunits) == old(HasRoom(list, Mem(), Units(nbytes)))
        decreases if grown then 0 else 1, if i <= k then k - i else k + |list| - i
      {
        ListNode(base, list, Mem(), i);
        if size[p] >= nunits {
          assert HasRoom(list, Mem(), nunits) by { RoomHere(list, Mem(), i, nunits); }
          r := Take(prevp, p, nunits, i);
          return;
        }
        if p == freep {
          SamePlace(base, list, Mem(), i, k);
          AllSmall(list, Mem(), k, nunits);
          var ok := Morecore(nunits, granted, gap);
          if !ok {
            return NULL;
          }
          p := freep;
          grown := true;
          k :| 0 <= k < |list| && list[k] == p;
          i := k;
        }
        ListNode(base, list, Mem(), i);
        prevp := p;
        p := ptr[p];
        TriedMore(list, Mem(), k, i, nunits);
        i := if i + 1 < |list| then i + 1 else 0;
      }
    }
  }

  datatype Op = Malloc(nbytes: nat, granted: bool, gap: nat) | Free(bp: nat)

  /** Any sequence of calls, whether or not sbrk grants memory: the units in blocks, free or handed
      out, are exactly those that sbrk has granted; sbrk is called at most once for each malloc;
      and when everything has been freed all of its memory is on the free list. */
  method Run(h: Heap, ops: seq<Op>)
    requires h.Valid() && h.alloc == map[]
    modifies h
    ensures h.Valid() && old(h.calls) <= h.calls && |h.calls| <= |old(h.calls)| + |ops|
    ensures h.owner.Keys == Obtained(h.calls)
    ensures h.alloc == map[] ==> forall u :: u in Obtained(h.calls) ==> u in h.owner && Listed(h.list, h.owner[u])
  {
    hide ListInv, OwnInv, HasRoom, Obtained;
    var live: set<nat> := {};
    for x := 0 to |ops|
      invariant h.Valid() && live == h.alloc.Keys && old(h.calls) <= h.calls && |h.calls| <= |old(h.calls)| + x
    {
      match ops[x]
      case Malloc(nbytes, granted, gap) =>
        if Units(nbytes) * HEADER < 0x8000_0000 {
          var r := h.Malloc(nbytes, granted, gap);
          if r >= 0 { live := live + {r as nat}; }
        }
      case Free(bp) =>
        if bp in live {
          h.Free(bp);
          live := live - {bp};
        }
    }
    if h.alloc == map[] && h.freep != NULL {
      forall u | u in h.owner ensures Listed(h.list, h.owner[u]) {
        OwnUnit(h.list, h.Mem(), h.alloc, h.owner, u);
      }
    }
  }

  ghost predicate Small(list: seq<nat>, m: Memory, x: nat, n: nat)
    requires x < |list|
  {
    list[x] in m.size && m.size[list[x]] < n
  }

  /** All blocks from the one behind k up to, but not including, i are too small. */
  ghost predicate Tried(list: seq<nat>, m: Memory, k: nat, i: nat, n: nat) {
    forall x: nat :: x < |list| && Between(k, i, x) ==> Small(list, m, x, n)
  }

  /** The search starts behind k, and goes on from a block that is too small. */
  lemma TriedMore(list: seq<nat>, m: Memory, k: nat, i: nat, n: nat)
    requires k < |list| && i < |list| && (i != k ==> Tried(list, m, k, i, n) && Small(list, m, i, n))
    ensures Tried(list, m, k, if i + 1 < |list| then i + 1 else 0, n)
  {
  }

  lemma ListNode(base: nat, list: seq<nat>, m: Memory, i: nat)
    requires ListInv(base, list, m, -1) && i < |list|
    ensures NodeOk(list, m, i)
  {
  }

  lemma OnlyBase(base: nat, list: seq<nat>, m: Memory, alloc: map<nat, nat>, owner: map<nat, nat>)
    requires list == [base] && base in m.ptr && m.ptr[base] == base && base in m.size && m.size[base] == 0
    requires alloc == map[] && owner == map[]
    ensures ListInv(base, list, m, -1) && OwnInv(list, m, alloc, owner)
  {
  }

  lemma RoomHere(list: seq<nat>, m: Memory, i: nat, n: nat)
    requires i < |list| && list[i] in m.size && m.size[list[i]] >= n
    ensures HasRoom(list, m, n)
  {
  }

  lemma BaseIsSmall(base: nat, m: Memory, m': Memory, n: nat)
    requires base in m'.size && m'.size[base] < n
    ensures !HasRoom([], m, n) && !HasRoom([base], m', n)
  {
  }

  lemma SamePlace(base: nat, list: seq<nat>, m: Memory, i: nat, k: nat)
    requires ListInv(base, list, m, -1) && i < |list| && k < |list| && list[i] == list[k]
    ensures i == k
  {
    if i < k { Rising(base, list, m, -1, i, k); } else if k < i { Rising(base, list, m, -1, k, i); }
  }

  /** All the way around without success: there is no room. */
  lemma AllSmall(list: seq<nat>, m: Memory, k: nat, n: nat)
    requires k < |list| && Small(list, m, k, n)
    requires Tried(list, m, k, k, n)
    ensures !HasRoom(list, m, n)
  {
    forall x | 0 <= x < |list| ensures list[x] !in m.size || m.size[list[x]] < n {
      assert x == k || Between(k, k, x);
      assert Small(list, m, x, n);
    }
  }

  /** Some free block has at least n units. */
  ghost predicate HasRoom(list: seq<nat>, m: Memory, n: nat) {
    exists i :: 0 <= i < |list| && list[i] in m.size && m.size[list[i]] >= n
  }

  lemma RoomAt(list: seq<nat>, m: Memory, h: nat, n: nat)
    requires Listed(list, h) && h in m.size && m.size[h] >= n
    ensures HasRoom(list, m, n)
  {
  }

  /** Grown memory is what sbrk has granted. */
  lemma Granted(calls: seq<Sbrk>, base: nat, owner: map<nat, nat>, p: nat, n: nat)
    requires owner.Keys == Obtained(calls) && base < p && forall u :: u in owner ==> base < u < p
    ensures Grown(owner, p, n).Keys == Obtained(calls + [Sbrk(p, n, true)])
    ensures forall u :: u in Grown(owner, p, n) ==> base < u < p + n
  {
    ObtainedMore(calls, Sbrk(p, n, true));
    hide Obtained;
    GrowNew(owner, p, n);
    hide Grown;
  }

  lemma AboveAll(base: nat, list: seq<nat>, m: Memory, alloc: map<nat, nat>, owner: map<nat, nat>, p: nat)
    requires ListInv(base, list, m, -1) && OwnInv(list, m, alloc, owner) && base < p && forall u :: u in owner ==> u < p
    ensures p !in list && p !in alloc
  {
    forall i | 0 < i < |list| ensures list[i] != p {
      OwnFree(list, m, alloc, owner, i);
      assert list[i] in owner;
    }
    forall h | h in alloc ensures h != p {
      OwnAlloc(list, m, alloc, owner, h);
      assert h in owner;
    }
  }

  lemma InsertedThere(base: nat, list: seq<nat>, m: Memory, owner: map<nat, nat>, j: nat, bp: nat, joins: bool,
                      list': seq<nat>, m': Memory, owner': map<nat, nat>)
    requires j < |list|
    requires (joins ==> j + 1 < |list| && list[j + 1] in m.ptr && list[j + 1] in m.size && list[j + 1] != bp)
    requires bp in m.size && bp in owner && owner[bp] == bp
    requires list' == Inserted(list, j, bp, joins) && m' == Linked(list, m, j, bp, joins)
    requires owner' == if joins then Moved(owner, Succ(list, j), bp) else owner
    ensures j + 1 < |list'| && list'[j] == list[j] && list'[j + 1] == bp
    ensures bp in owner' && owner'[bp] == bp && bp in m'.size && m'.size[bp] >= m.size[bp]
  {
  }

  lemma TwoNodes(base: nat, list: seq<nat>, m: Memory, j: nat)
    requires ListInv(base, list, m, j) && j + 1 < |list|
    ensures NodeOk(list, m, j) && NodeOk(list, m, j + 1) && (list[j] + m.size[list[j]] == list[j + 1] ==> j > 0)
  {
    assert NodeOk(list, m, j) && NodeOk(list, m, j + 1) && GapOk(list, m, j, j);
  }

  lemma AllocUnit(base: nat, list: seq<nat>, m: Memory, alloc: map<nat, nat>, owner: map<nat, nat>, bp: nat)
    requires ListInv(base, list, m, -1) && OwnInv(list, m, alloc, owner) && bp in alloc
    requires forall u :: u in owner ==> base < u
    ensures base < bp && bp in owner && owner[bp] == bp && bp !in list && bp in m.size && m.size[bp] == alloc[bp]
  {
    OwnAlloc(list, m, alloc, owner, bp);
    assert bp in owner;
    forall i | 0 < i < |list| ensures list[i] != bp {
      OwnFree(list, m, alloc, owner, i);
    }
  }
}
