/** Physical pages and who owns them: the free list of kernel/kalloc.c and the three-level
    page tables of kernel/vm.c, as one invariant over memory. Pages are named by number
    (physical address / PGSIZE); number 0 is the null pointer. */
module PageTables {
  import opened Sv39

  /** A page, looked at as 512 entries or as 4096 bytes. A free page's first entry holds the
      link to the next free page. */
  datatype Page = Entries(w: seq<Pte>) | Bytes(b: seq<nat>)

  /** An address space: its table pages by position and the map it stands for. A space is
      named by the page of its root table. mid[i] is the second-level table for pages with
      v / 512 / 512 == i, low[k] the third-level table for pages with v / 512 == k, leaf[v] the
      entry of page v. */
  datatype Space = Space(mid: map<nat, nat>, low: map<nat, nat>, leaf: map<nat, Pte>)

  /** What a page is used for. Free pages are numbered from the bottom of the free list, the page
      freed first; Held pages belong to the code that is running or to a process's kernel side. */
  datatype Owner =
    | Free(depth: nat)
    | Held
    | Top(id: nat) | Mid(id: nat, i: nat) | Low(id: nat, k: nat)
    | User(id: nat, v: nat)

  type Memory = map<nat, Page>

  datatype Ghost = Ghost(own: map<nat, Owner>, free: seq<nat>, spaces: map<nat, Space>)

  predicate OwnedBy(o: Owner, id: nat) {
    match o
    case Top(x) => x == id
    case Mid(x, _) => x == id
    case Low(x, _) => x == id
    case User(x, _) => x == id
    case _ => false
  }

  ghost predicate TableAt(mem: Memory, own: map<nat, Owner>, p: nat, o: Owner) {
    p in mem && p in own && own[p] == o && mem[p].Entries? && |mem[p].w| == 512
  }

  /** w holds pointers to the tables m[base .. base + 512) and nothing else. */
  ghost predicate TableRow(w: seq<Pte>, base: nat, m: map<nat, nat>) {
    |w| == 512 && forall j :: 0 <= j < 512 ==> w[j] == if base + j in m then Ptr(m[base + j]) else ZERO
  }

  ghost predicate LeafRow(w: seq<Pte>, base: nat, m: map<nat, Pte>) {
    |w| == 512 && forall j :: 0 <= j < 512 ==> w[j] == if base + j in m then m[base + j] else ZERO
  }

  /** Pages below TRAPFRAME are owned by the space that maps them; user code cannot reach
      the two pages above. */
  ghost predicate LeafOk(own: map<nat, Owner>, id: nat, v: nat, pte: Pte) {
    IsValid(pte) && IsLeaf(pte) && if v < TRAPFRAME then pte.ppn in own && own[pte.ppn] == User(id, v) else !IsUser(pte)
  }

  ghost predicate TopOk(mem: Memory, own: map<nat, Owner>, id: nat, sp: Space) {
    TableAt(mem, own, id, Top(id)) && TableRow(mem[id].w, 0, sp.mid)
  }

  ghost predicate MidOk(mem: Memory, own: map<nat, Owner>, id: nat, sp: Space, i: nat)
    requires i in sp.mid
  {
    i < 512 && TableAt(mem, own, sp.mid[i], Mid(id, i)) && TableRow(mem[sp.mid[i]].w, 512 * i, sp.low)
  }

  ghost predicate LowOk(mem: Memory, own: map<nat, Owner>, id: nat, sp: Space, k: nat)
    requires k in sp.low
  {
    k / 512 in sp.mid && TableAt(mem, own, sp.low[k], Low(id, k)) && LeafRow(mem[sp.low[k]].w, 512 * k, sp.leaf)
  }

  /** The pages reachable from page id form a tree of height three that stands for sp.leaf. */
  ghost predicate SpaceInv(mem: Memory, own: map<nat, Owner>, id: nat, sp: Space) {
    && TopOk(mem, own, id, sp)
    && (forall i :: i in sp.mid ==> MidOk(mem, own, id, sp, i))
    && (forall k :: k in sp.low ==> LowOk(mem, own, id, sp, k))
    && (forall v :: v in sp.leaf ==> v < NVPN && v / 512 in sp.low && LeafOk(own, id, v, sp.leaf[v]))
  }

  /** The page at depth d of the free list links to the one below it. */
  ghost predicate FreeAt(mem: Memory, own: map<nat, Owner>, free: seq<nat>, d: nat)
    requires d < |free|
  {
    && free[d] != 0 && TableAt(mem, own, free[d], Free(d))
    && mem[free[d]].w[0].ppn == if d > 0 then free[d - 1] else 0
  }

  ghost predicate FreeInv(mem: Memory, own: map<nat, Owner>, free: seq<nat>) {
    forall d :: 0 <= d < |free| ==> FreeAt(mem, own, free, d)
  }

  /** kmem.freelist: the most recently freed page. */
  function FreeHead(free: seq<nat>): nat { if free == [] then 0 else free[|free| - 1] }

  /** Every page is where its owner says it is: nothing leaks and nothing is used twice. */
  ghost predicate PlaceOk(g: Ghost, p: nat, o: Owner) {
    match o
    case Free(d) => d < |g.free| && g.free[d] == p
    case Held => true
    case Top(id) => id in g.spaces && id == p
    case Mid(id, i) => id in g.spaces && i in g.spaces[id].mid && g.spaces[id].mid[i] == p
    case Low(id, k) => id in g.spaces && k in g.spaces[id].low && g.spaces[id].low[k] == p
    case User(id, v) => id in g.spaces && v in g.spaces[id].leaf && v < TRAPFRAME && g.spaces[id].leaf[v].ppn == p
  }

  ghost predicate OwnInv(mem: Memory, g: Ghost) {
    0 !in g.own && forall p :: p in g.own ==> p in mem && PlaceOk(g, p, g.own[p])
  }

  ghost predicate Inv(mem: Memory, g: Ghost) {
    && FreeInv(mem, g.own, g.free) && OwnInv(mem, g)
    && forall id :: id in g.spaces ==> SpaceInv(mem, g.own, id, g.spaces[id])
  }

  /** The entry that walk reaches for page v, if the tables above it exist. */
  ghost function Entry(mem: Memory, sp: Space, v: nat): Pte
    requires v / 512 in sp.low && sp.low[v / 512] in mem && mem[sp.low[v / 512]].Entries?
    requires |mem[sp.low[v / 512]].w| == 512
  {
    mem[sp.low[v / 512]].w[v % 512]
  }

  // ----- Frames -----

  /** Outside the pages `changed`, contents and ownership are the same. */
  ghost predicate SameOutside(mem: Memory, own: map<nat, Owner>, mem': Memory, own': map<nat, Owner>,
                              changed: set<nat>) {
    forall q :: q in own && q !in changed ==>
      q in own' && own'[q] == own[q] && (q in mem ==> q in mem' && mem'[q] == mem[q])
  }

  lemma MidFrame(mem: Memory, own: map<nat, Owner>, mem': Memory, own': map<nat, Owner>, changed: set<nat>, id: nat,
                 sp: Space, i: nat, sp': Space)
    requires i in sp.mid && MidOk(mem, own, id, sp, i) && SameOutside(mem, own, mem', own', changed)
    requires (forall q :: q in changed && q in own ==> own[q] != Mid(id, i)) && i in sp'.mid && sp'.mid[i] == sp.mid[i]
    requires sp'.low == sp.low
    ensures MidOk(mem', own', id, sp', i)
  {
    TableFrame(mem, own, mem', own', changed, sp.mid[i], Mid(id, i));
  }

  lemma LowFrame(mem: Memory, own: map<nat, Owner>, mem': Memory, own': map<nat, Owner>, changed: set<nat>, id: nat,
                 sp: Space, k: nat, sp': Space)
    requires k in sp.low && LowOk(mem, own, id, sp, k) && SameOutside(mem, own, mem', own', changed)
    requires (forall q :: q in changed && q in own ==> own[q] != Low(id, k)) && k in sp'.low && sp'.low[k] == sp.low[k]
    requires sp'.leaf == sp.leaf && sp'.mid.Keys >= sp.mid.Keys
    ensures LowOk(mem', own', id, sp', k)
  {
    TableFrame(mem, own, mem', own', changed, sp.low[k], Low(id, k));
  }

  /** A space is untouched if none of its pages changed. */
  lemma SpaceFrame(mem: Memory, own: map<nat, Owner>, mem': Memory, own': map<nat, Owner>, changed: set<nat>, id: nat,
                   sp: Space)
    requires SpaceInv(mem, own, id, sp) && SameOutside(mem, own, mem', own', changed)
    requires forall q :: q in changed && q in own ==> !OwnedBy(own[q], id)
    ensures SpaceInv(mem', own', id, sp)
  {
    hide MidOk, LowOk, LeafOk;
    TableFrame(mem, own, mem', own', changed, id, Top(id));
    forall i | i in sp.mid
      ensures MidOk(mem', own', id, sp, i)
    {
      MidFrame(mem, own, mem', own', changed, id, sp, i, sp);
    }
    forall k | k in sp.low
      ensures LowOk(mem', own', id, sp, k)
    {
      LowFrame(mem, own, mem', own', changed, id, sp, k, sp);
    }
    LeavesSame(own, own', changed, id, sp);
  }

  lemma LeavesSame(own: map<nat, Owner>, own': map<nat, Owner>, changed: set<nat>, id: nat, sp: Space)
    requires forall v :: v in sp.leaf ==> LeafOk(own, id, v, sp.leaf[v])
    requires forall q :: q in own && q !in changed ==> q in own' && own'[q] == own[q]
    requires forall q :: q in changed && q in own ==> !OwnedBy(own[q], id)
    ensures forall v :: v in sp.leaf ==> LeafOk(own', id, v, sp.leaf[v])
  {
  }

  lemma TableFrame(mem: Memory, own: map<nat, Owner>, mem': Memory, own': map<nat, Owner>, changed: set<nat>, p: nat,
                   o: Owner)
    requires TableAt(mem, own, p, o) && SameOutside(mem, own, mem', own', changed) && p !in changed
    ensures TableAt(mem', own', p, o) && mem'[p] == mem[p]
  {
  }

  lemma SpacesFrame(mem: Memory, own: map<nat, Owner>, mem': Memory, own': map<nat, Owner>, changed: set<nat>,
                    spaces: map<nat, Space>)
    requires SameOutside(mem, own, mem', own', changed)
    requires forall id :: id in spaces ==> SpaceInv(mem, own, id, spaces[id])
    requires forall q, id :: q in changed && q in own && id in spaces ==> !OwnedBy(own[q], id)
    ensures forall id :: id in spaces ==> SpaceInv(mem', own', id, spaces[id])
  {
    forall id | id in spaces
      ensures SpaceInv(mem', own', id, spaces[id])
    {
      SpaceFrame(mem, own, mem', own', changed, id, spaces[id]);
    }
  }

  lemma FreeFrame(mem: Memory, own: map<nat, Owner>, mem': Memory, own': map<nat, Owner>, changed: set<nat>,
                  free: seq<nat>)
    requires FreeInv(mem, own, free) && SameOutside(mem, own, mem', own', changed)
    requires forall q :: q in changed && q in own ==> !own[q].Free?
    ensures FreeInv(mem', own', free)
  {
    forall d | 0 <= d < |free|
      ensures FreeAt(mem', own', free, d)
    {
      assert FreeAt(mem, own, free, d);
      TableFrame(mem, own, mem', own', changed, free[d], Free(d));
    }
  }

  /** Writing to a held page. */
  lemma WriteHeld(mem: Memory, g: Ghost, p: nat, page: Page, mem': Memory)
    requires Inv(mem, g) && p in g.own && g.own[p] == Held && mem' == mem[p := page]
    ensures Inv(mem', g)
  {
    FreeFrame(mem, g.own, mem', g.own, {p}, g.free);
    SpacesFrame(mem, g.own, mem', g.own, {p}, g.spaces);
  }

  /** Writing to a user page. */
  lemma WriteUser(mem: Memory, g: Ghost, p: nat, page: Page, mem': Memory)
    requires Inv(mem, g) && p in g.own && g.own[p].User? && mem' == mem[p := page]
    ensures Inv(mem', g)
  {
    FreeFrame(mem, g.own, mem', g.own, {p}, g.free);
    forall id | id in g.spaces
      ensures SpaceInv(mem', g.own, id, g.spaces[id])
    {
      UserPageFrame(mem, g.own, p, mem', id, g.spaces[id]);
    }
  }

  lemma UserPageFrame(mem: Memory, own: map<nat, Owner>, p: nat, mem': Memory, id: nat, sp: Space)
    requires SpaceInv(mem, own, id, sp) && p in own && own[p].User? && p in mem'
    requires mem'.Keys == mem.Keys && forall q :: q in mem && q != p ==> mem'[q] == mem[q]
    ensures SpaceInv(mem', own, id, sp)
  {
    hide MidOk, LowOk, LeafOk;
    assert TopOk(mem', own, id, sp);
    forall i | i in sp.mid
      ensures MidOk(mem', own, id, sp, i)
    {
      MidFrame(mem, own, mem', own, {p}, id, sp, i, sp);
    }
    forall k | k in sp.low
      ensures LowOk(mem', own, id, sp, k)
    {
      LowFrame(mem, own, mem', own, {p}, id, sp, k, sp);
    }
  }

  // ----- kalloc and kfree -----

  lemma PopFree(mem: Memory, g: Ghost, page: Page, mem': Memory, g': Ghost)
    requires Inv(mem, g) && g.free != [] && mem' == mem[FreeHead(g.free) := page]
    requires g' == g.(free := g.free[..|g.free| - 1], own := g.own[FreeHead(g.free) := Held])
    ensures Inv(mem', g')
  {
    var n := |g.free| - 1;
    var p := g.free[n];
    assert FreeAt(mem, g.own, g.free, n);
    SpacesFrame(mem, g.own, mem', g'.own, {p}, g.spaces);
    forall d | 0 <= d < n
      ensures FreeAt(mem', g'.own, g'.free, d)
    {
      assert FreeAt(mem, g.own, g.free, d);
    }
    PlacesKept(g, g', p);
  }

  lemma PushFree(mem: Memory, g: Ghost, p: nat, page: Page, mem': Memory, g': Ghost)
    requires Inv(mem, g) && p in g.own && g.own[p] == Held && mem' == mem[p := page]
    requires page.Entries? && |page.w| == 512 && page.w[0].ppn == FreeHead(g.free)
    requires g' == g.(free := g.free + [p], own := g.own[p := Free(|g.free|)])
    ensures Inv(mem', g')
  {
    var n := |g.free|;
    SpacesFrame(mem, g.own, mem', g'.own, {p}, g.spaces);
    forall d | 0 <= d <= n
      ensures FreeAt(mem', g'.own, g'.free, d)
    {
      if d < n {
        assert FreeAt(mem, g.own, g.free, d);
        assert g'.free[d] == g.free[d];
      }
    }
    PlacesKept(g, g', p);
  }

  /** Pushing or popping page p leaves every other page in its place. */
  lemma PlacesKept(g: Ghost, g': Ghost, p: nat)
    requires g'.spaces == g.spaces && p in g.own && p in g'.own && g'.own == g.own[p := g'.own[p]]
    requires forall q :: q in g.own ==> PlaceOk(g, q, g.own[q])
    requires g.own[p].Free? || g.own[p].Held?
    requires forall d :: 0 <= d < |g.free| && g.free[d] != p ==> d < |g'.free| && g'.free[d] == g.free[d]
    ensures forall q :: q in g'.own && q != p ==> PlaceOk(g', q, g'.own[q])
  {
    forall q | q in g'.own && q != p
      ensures PlaceOk(g', q, g'.own[q])
    {
      assert PlaceOk(g, q, g.own[q]);
    }
  }

  // ----- Changing one space -----

  /** Pages of space id and held pages changed: the other spaces and the free list did not. */
  lemma OthersFrame(mem: Memory, g: Ghost, mem': Memory, own': map<nat, Owner>, changed: set<nat>, id: nat)
    requires Inv(mem, g) && SameOutside(mem, g.own, mem', own', changed)
    requires forall q :: q in changed && q in g.own ==> g.own[q].Held? || OwnedBy(g.own[q], id)
    ensures FreeInv(mem', own', g.free)
    ensures forall x :: x in g.spaces && x != id ==> SpaceInv(mem', own', x, g.spaces[x])
  {
    FreeFrame(mem, g.own, mem', own', changed, g.free);
    forall x | x in g.spaces && x != id
      ensures SpaceInv(mem', own', x, g.spaces[x])
    {
      SpaceFrame(mem, g.own, mem', own', changed, x, g.spaces[x]);
    }
  }

  /** sp' has all the tables and leaves of sp. */
  ghost predicate Extends(sp: Space, sp': Space) {
    && sp'.leaf == sp.leaf
    && (forall i :: i in sp.mid ==> i in sp'.mid && sp'.mid[i] == sp.mid[i])
    && (forall k :: k in sp.low ==> k in sp'.low && sp'.low[k] == sp.low[k])
  }

  /** Held page p was given the role o in space id. */
  lemma PlacesAfterLink(mem: Memory, g: Ghost, id: nat, p: nat, o: Owner, mem': Memory, g': Ghost)
    requires OwnInv(mem, g) && p in g.own && mem'.Keys >= mem.Keys && id in g'.spaces
    requires g' == g.(own := g.own[p := o], spaces := g.spaces[id := g'.spaces[id]])
    requires PlaceOk(g', p, o) && (id in g.spaces ==> Extends(g.spaces[id], g'.spaces[id]))
    ensures OwnInv(mem', g')
  {
    forall q | q in g'.own
      ensures q in mem' && PlaceOk(g', q, g'.own[q])
    {
      assert PlaceOk(g, q, g.own[q]);
    }
  }

  predicate IsZero(page: Page) { page.Entries? && |page.w| == 512 && forall j :: 0 <= j < 512 ==> page.w[j] == ZERO }

  lemma EmptySpace(mem: Memory, own: map<nat, Owner>, id: nat)
    requires id in mem && IsZero(mem[id]) && id in own && own[id] == Top(id)
    ensures SpaceInv(mem, own, id, Space(map[], map[], map[]))
  {
  }

  /** uvmcreate: a zeroed page becomes the root of a new, empty space. */
  lemma NewSpace(mem: Memory, g: Ghost, p: nat, g': Ghost)
    requires Inv(mem, g) && p in g.own && g.own[p] == Held && p in mem && IsZero(mem[p])
    requires g' == g.(own := g.own[p := Top(p)], spaces := g.spaces[p := Space(map[], map[], map[])])
    ensures Inv(mem, g')
  {
    assert p !in g.spaces by {
      assert p in g.spaces ==> SpaceInv(mem, g.own, p, g.spaces[p]);
    }
    hide FreeInv, OwnInv, SpaceInv;
    OthersFrame(mem, g, mem, g'.own, {p}, p);
    EmptySpace(mem, g'.own, p);
    PlacesAfterLink(mem, g, p, p, Top(p), mem, g');
  }

  /** Walk's first level: a zeroed page becomes the table for index i of the root. */
  lemma LinkMid(mem: Memory, g: Ghost, id: nat, i: nat, p: nat, mem': Memory, g': Ghost)
    requires Inv(mem, g) && id in g.spaces && i < 512 && i !in g.spaces[id].mid
    requires p in g.own && g.own[p] == Held && p in mem && IsZero(mem[p])
    requires var sp := g.spaces[id]; TopOk(mem, g.own, id, sp)
    requires var sp := g.spaces[id];
             && mem' == mem[id := Entries(mem[id].w[i := Ptr(p)])]
             && g' == g.(own := g.own[p := Mid(id, i)], spaces := g.spaces[id := sp.(mid := sp.mid[i := p])])
    ensures Inv(mem', g')
  {
    hide FreeInv, OwnInv, SpaceInv;
    var sp, sp' := g.spaces[id], g'.spaces[id];
    OthersFrame(mem, g, mem', g'.own, {p, id}, id);
    LinkMidSpace(mem, g.own, id, sp, i, p, mem', g'.own, sp');
    PlacesAfterLink(mem, g, id, p, Mid(id, i), mem', g');
  }

  lemma RowIndex(i: nat, j: nat)
    requires j < 512
    ensures (512 * i + j) / 512 == i && (512 * i + j) % 512 == j
  {
  }

  /** A table that does not exist yet would be empty. */
  lemma FreshMidRow(sp: Space, i: nat, w: seq<Pte>)
    requires (forall k :: k in sp.low ==> k / 512 in sp.mid) && i !in sp.mid && IsZero(Entries(w))
    ensures TableRow(w, 512 * i, sp.low)
  {
    forall j | 0 <= j < 512
      ensures w[j] == if 512 * i + j in sp.low then Ptr(sp.low[512 * i + j]) else ZERO
    {
      RowIndex(i, j);
    }
  }

  lemma FreshLowRow(sp: Space, k: nat, w: seq<Pte>)
    requires (forall v :: v in sp.leaf ==> v / 512 in sp.low) && k !in sp.low && IsZero(Entries(w))
    ensures LeafRow(w, 512 * k, sp.leaf)
  {
    forall j | 0 <= j < 512
      ensures w[j] == if 512 * k + j in sp.leaf then sp.leaf[512 * k + j] else ZERO
    {
      RowIndex(k, j);
    }
  }

  lemma LinkMidSpace(mem: Memory, own: map<nat, Owner>, id: nat, sp: Space, i: nat, p: nat, mem': Memory,
                     own': map<nat, Owner>, sp': Space)
    requires SpaceInv(mem, own, id, sp) && i < 512 && i !in sp.mid
    requires p in own && own[p] == Held && p in mem && IsZero(mem[p])
    requires mem' == mem[id := Entries(mem[id].w[i := Ptr(p)])]
    requires own' == own[p := Mid(id, i)] && sp' == sp.(mid := sp.mid[i := p])
    ensures SpaceInv(mem', own', id, sp')
  {
    hide LowOk, MidOk, LeafOk;
    LowsHaveMids(mem, own, id, sp);
    FreshMidRow(sp, i, mem[p].w);
    forall x | x in sp'.mid
      ensures MidOk(mem', own', id, sp', x)
    {
      if x != i {
        MidFrame(mem, own, mem', own', {id, p}, id, sp, x, sp');
      } else {
        NewMid(mem, own, id, sp, i, p, mem', own', sp');
      }
    }
    forall k | k in sp'.low
      ensures LowOk(mem', own', id, sp', k)
    {
      LowFrame(mem, own, mem', own', {id, p}, id, sp, k, sp');
    }
    LeavesFrame(own, own', id, sp);
  }

  lemma NewMid(mem: Memory, own: map<nat, Owner>, id: nat, sp: Space, i: nat, p: nat, mem': Memory,
               own': map<nat, Owner>, sp': Space)
    requires i < 512 && p in own && own[p] == Held && p in mem && IsZero(mem[p]) && TableRow(mem[p].w, 512 * i, sp.low)
    requires mem'.Keys >= mem.Keys && mem'[p] == mem[p]
    requires own' == own[p := Mid(id, i)] && sp' == sp.(mid := sp.mid[i := p])
    ensures MidOk(mem', own', id, sp', i)
  {
  }

  lemma LowsHaveMids(mem: Memory, own: map<nat, Owner>, id: nat, sp: Space)
    requires SpaceInv(mem, own, id, sp)
    ensures forall k :: k in sp.low ==> k / 512 in sp.mid
  {
    assert forall k :: k in sp.low ==> LowOk(mem, own, id, sp, k);
  }

  /** Giving a held page a role disturbs no leaf. */
  lemma LeavesFrame(own: map<nat, Owner>, own': map<nat, Owner>, id: nat, sp: Space)
    requires forall v :: v in sp.leaf ==> LeafOk(own, id, v, sp.leaf[v])
    requires forall q :: q in own && own[q].User? ==> q in own' && own'[q] == own[q]
    ensures forall v :: v in sp.leaf ==> LeafOk(own', id, v, sp.leaf[v])
  {
  }

  /** Walk's second level: a zeroed page becomes the table for index k % 512 of mid[k / 512]. */
  lemma LinkLow(mem: Memory, g: Ghost, id: nat, k: nat, p: nat, mem': Memory, g': Ghost)
    requires Inv(mem, g) && id in g.spaces && k / 512 in g.spaces[id].mid && k !in g.spaces[id].low
    requires p in g.own && g.own[p] == Held && p in mem && IsZero(mem[p])
    requires MidOk(mem, g.own, id, g.spaces[id], k / 512)
    requires var sp := g.spaces[id]; var m := sp.mid[k / 512];
             && mem' == mem[m := Entries(mem[m].w[k % 512 := Ptr(p)])]
             && g' == g.(own := g.own[p := Low(id, k)], spaces := g.spaces[id := sp.(low := sp.low[k := p])])
    ensures Inv(mem', g')
  {
    hide FreeInv, OwnInv, SpaceInv;
    var sp, sp' := g.spaces[id], g'.spaces[id];
    OthersFrame(mem, g, mem', g'.own, {p, sp.mid[k / 512]}, id);
    LinkLowSpace(mem, g.own, id, sp, k, p, mem', g'.own, sp');
    PlacesAfterLink(mem, g, id, p, Low(id, k), mem', g');
  }

  lemma LinkLowSpace(mem: Memory, own: map<nat, Owner>, id: nat, sp: Space, k: nat, p: nat, mem': Memory,
                     own': map<nat, Owner>, sp': Space)
    requires SpaceInv(mem, own, id, sp) && k / 512 in sp.mid && k !in sp.low
    requires p in own && own[p] == Held && p in mem && IsZero(mem[p]) && MidOk(mem, own, id, sp, k / 512)
    requires mem' == mem[sp.mid[k / 512] := Entries(mem[sp.mid[k / 512]].w[k % 512 := Ptr(p)])]
    requires own' == own[p := Low(id, k)] && sp' == sp.(low := sp.low[k := p])
    ensures SpaceInv(mem', own', id, sp')
  {
    hide LowOk, MidOk, LeafOk;
    var m := sp.mid[k / 512];
    TableOf(mem, own, id, sp, k / 512);
    FreshLowRow(sp, k, mem[p].w);
    forall x | x in sp'.mid
      ensures MidOk(mem', own', id, sp', x)
    {
      MidEntry(mem, own, id, sp, k, p, mem', own', sp', x);
    }
    forall x | x in sp'.low
      ensures LowOk(mem', own', id, sp', x)
    {
      if x != k {
        LowFrame(mem, own, mem', own', {m, p}, id, sp, x, sp');
      } else {
        NewLow(mem, own, id, sp, k, p, mem', own', sp');
      }
    }
    LeavesFrame(own, own', id, sp);
  }

  lemma TableOf(mem: Memory, own: map<nat, Owner>, id: nat, sp: Space, i: nat)
    requires i in sp.mid && MidOk(mem, own, id, sp, i)
    ensures TableAt(mem, own, sp.mid[i], Mid(id, i))
  {
  }

  lemma NewLow(mem: Memory, own: map<nat, Owner>, id: nat, sp: Space, k: nat, p: nat, mem': Memory,
               own': map<nat, Owner>, sp': Space)
    requires k / 512 in sp.mid && p in own && own[p] == Held && p in mem && IsZero(mem[p])
    requires LeafRow(mem[p].w, 512 * k, sp.leaf)
    requires mem'.Keys >= mem.Keys && mem'[p] == mem[p]
    requires own' == own[p := Low(id, k)] && sp' == sp.(low := sp.low[k := p])
    ensures LowOk(mem', own', id, sp', k)
  {
  }

  lemma MidEntry(mem: Memory, own: map<nat, Owner>, id: nat, sp: Space, k: nat, p: nat, mem': Memory,
                 own': map<nat, Owner>, sp': Space, x: nat)
    requires k / 512 in sp.mid && MidOk(mem, own, id, sp, k / 512) && x in sp.mid && MidOk(mem, own, id, sp, x)
    requires p in own && own[p] == Held
    requires mem' == mem[sp.mid[k / 512] := Entries(mem[sp.mid[k / 512]].w[k % 512 := Ptr(p)])]
    requires own' == own[p := Low(id, k)] && sp' == sp.(low := sp.low[k := p])
    ensures MidOk(mem', own', id, sp', x)
  {
    hide TableRow;
    RowUpdated(mem[sp.mid[x]].w, sp.low, k, p, x);
  }

  /** Entry k % 512 of row k / 512 changed, and no other row. */
  lemma RowUpdated(w: seq<Pte>, m: map<nat, nat>, k: nat, p: nat, x: nat)
    requires TableRow(w, 512 * x, m)
    ensures TableRow(if x == k / 512 then w[k % 512 := Ptr(p)] else w, 512 * x, m[k := p])
  {
    var w' := if x == k / 512 then w[k % 512 := Ptr(p)] else w;
    forall j | 0 <= j < 512
      ensures w'[j] == if 512 * x + j in m[k := p] then Ptr(m[k := p][512 * x + j]) else ZERO
    {
      RowIndex(x, j);
    }
  }

  /** Storing pte as the entry of page v; ZERO removes it. */
  function WithLeaf(leaf: map<nat, Pte>, v: nat, pte: Pte): map<nat, Pte> {
    if pte == ZERO then leaf - {v} else leaf[v := pte]
  }

  lemma LeafRowUpdated(w: seq<Pte>, leaf: map<nat, Pte>, v: nat, pte: Pte, x: nat)
    requires LeafRow(w, 512 * x, leaf)
    ensures LeafRow(if x == v / 512 then w[v % 512 := pte] else w, 512 * x, WithLeaf(leaf, v, pte))
  {
    var w' := if x == v / 512 then w[v % 512 := pte] else w;
    var leaf' := WithLeaf(leaf, v, pte);
    forall j | 0 <= j < 512
      ensures w'[j] == if 512 * x + j in leaf' then leaf'[512 * x + j] else ZERO
    {
      RowIndex(x, j);
    }
  }

  /** *pte = ... for page v, under the low-level table of v. */
  ghost predicate EntryStored(mem: Memory, own: map<nat, Owner>, id: nat, sp: Space, v: nat, pte: Pte, mem': Memory,
                              sp': Space) {
    && v < NVPN && v / 512 in sp.low && LowOk(mem, own, id, sp, v / 512)
    && (pte == ZERO || (IsValid(pte) && IsLeaf(pte)))
    && mem' == mem[sp.low[v / 512] := Entries(mem[sp.low[v / 512]].w[v % 512 := pte])]
    && sp' == sp.(leaf := WithLeaf(sp.leaf, v, pte))
  }

  /** Storing an entry keeps the tree and changes the map it stands for at v only, provided
      ownership follows. */
  lemma StoreSpace(mem: Memory, own: map<nat, Owner>, id: nat, sp: Space, v: nat, pte: Pte, mem': Memory,
                   own': map<nat, Owner>, sp': Space)
    requires SpaceInv(mem, own, id, sp) && EntryStored(mem, own, id, sp, v, pte, mem', sp')
    requires forall q :: q in own && !own[q].User? && !own[q].Held? ==> q in own' && own'[q] == own[q]
    requires forall x :: x in sp'.leaf ==> LeafOk(own', id, x, sp'.leaf[x])
    ensures SpaceInv(mem', own', id, sp')
  {
    hide LowOk, MidOk, LeafOk, TableRow;
    LowTable(mem, own, id, sp, v / 512);
    forall i | i in sp.mid
      ensures MidOk(mem', own', id, sp', i)
    {
      StoreMid(mem, own, id, sp, v, pte, mem', own', sp', i);
    }
    forall k | k in sp.low
      ensures LowOk(mem', own', id, sp', k)
    {
      StoreLow(mem, own, id, sp, v, pte, mem', own', sp', k);
    }
  }

  lemma LowTable(mem: Memory, own: map<nat, Owner>, id: nat, sp: Space, k: nat)
    requires k in sp.low && LowOk(mem, own, id, sp, k)
    ensures TableAt(mem, own, sp.low[k], Low(id, k))
  {
  }

  lemma StoreMid(mem: Memory, own: map<nat, Owner>, id: nat, sp: Space, v: nat, pte: Pte, mem': Memory,
                 own': map<nat, Owner>, sp': Space, i: nat)
    requires EntryStored(mem, own, id, sp, v, pte, mem', sp') && i in sp.mid && MidOk(mem, own, id, sp, i)
    requires forall q :: q in own && !own[q].User? && !own[q].Held? ==> q in own' && own'[q] == own[q]
    ensures MidOk(mem', own', id, sp', i)
  {
    hide TableRow, LeafRow;
  }

  lemma StoreLow(mem: Memory, own: map<nat, Owner>, id: nat, sp: Space, v: nat, pte: Pte, mem': Memory,
                 own': map<nat, Owner>, sp': Space, k: nat)
    requires EntryStored(mem, own, id, sp, v, pte, mem', sp') && k in sp.low && LowOk(mem, own, id, sp, k)
    requires forall q :: q in own && !own[q].User? && !own[q].Held? ==> q in own' && own'[q] == own[q]
    ensures LowOk(mem', own', id, sp', k)
  {
    hide LeafRow, WithLeaf;
    LeafRowUpdated(mem[sp.low[k]].w, sp.leaf, v, pte, k);
  }

  ghost predicate LeavesOk(own: map<nat, Owner>, id: nat, sp: Space) {
    forall x :: x in sp.leaf ==> LeafOk(own, id, x, sp.leaf[x])
  }

  lemma LeavesOf(mem: Memory, g: Ghost, id: nat)
    requires Inv(mem, g) && id in g.spaces
    ensures LeavesOk(g.own, id, g.spaces[id])
  {
  }

  /** Each user page backs one virtual page. */
  lemma LeavesAfter(own: map<nat, Owner>, id: nat, sp: Space, v: nat, pte: Pte, own': map<nat, Owner>, sp': Space)
    requires LeavesOk(own, id, sp) && sp' == sp.(leaf := WithLeaf(sp.leaf, v, pte))
    requires pte != ZERO ==> LeafOk(own', id, v, pte)
    requires forall q :: q in own && own[q].User? && own[q] != User(id, v) ==> q in own' && own'[q] == own[q]
    ensures LeavesOk(own', id, sp')
  {
  }

  /** The invariant after an entry store that moved at most page p in or out of the space. */
  lemma StoreInv(mem: Memory, g: Ghost, id: nat, v: nat, pte: Pte, p: nat, mem': Memory, g': Ghost)
    requires Inv(mem, g) && id in g.spaces && id in g'.spaces && g'.free == g.free
    requires g'.spaces == g.spaces[id := g'.spaces[id]]
    requires EntryStored(mem, g.own, id, g.spaces[id], v, pte, mem', g'.spaces[id])
    requires forall q :: q in g.own && q != p ==> q in g'.own && g'.own[q] == g.own[q]
    requires p in g.own ==> p in g'.own && (g'.own[p] == g.own[p] || g.own[p] == Held || g.own[p] == User(id, v))
    requires LeavesOk(g'.own, id, g'.spaces[id]) && OwnInv(mem', g')
    ensures Inv(mem', g')
  {
    hide SpaceInv, FreeInv, OwnInv;
    var sp, sp' := g.spaces[id], g'.spaces[id];
    StoreSpace(mem, g.own, id, sp, v, pte, mem', g'.own, sp');
    var changed := {sp.low[v / 512]} + if p in g.own && g'.own[p] != g.own[p] then {p} else {};
    OthersFrame(mem, g, mem', g'.own, changed, id);
  }

  /** Pages keep their places when page v of space id is remapped. */
  lemma StorePlaces(mem: Memory, g: Ghost, id: nat, v: nat, pte: Pte, p: nat, mem': Memory, g': Ghost)
    requires OwnInv(mem, g) && id in g.spaces && mem'.Keys >= mem.Keys && g'.free == g.free && g'.own.Keys == g.own.Keys
    requires g'.spaces == g.spaces[id := g.spaces[id].(leaf := WithLeaf(g.spaces[id].leaf, v, pte))]
    requires forall q :: q in g.own && q != p ==> g'.own[q] == g.own[q] && g.own[q] != User(id, v)
    requires p in g.own ==> PlaceOk(g', p, g'.own[p])
    ensures OwnInv(mem', g')
  {
    forall q | q in g'.own
      ensures q in mem' && PlaceOk(g', q, g'.own[q])
    {
      assert PlaceOk(g, q, g.own[q]);
    }
  }

  /** The page that backs v is the only one owned as v. */
  lemma OneBacking(mem: Memory, g: Ghost, id: nat, v: nat)
    requires OwnInv(mem, g) && id in g.spaces
    ensures forall q :: q in g.own && g.own[q] == User(id, v) ==>
              v in g.spaces[id].leaf && q == g.spaces[id].leaf[v].ppn
  {
    forall q | q in g.own && g.own[q] == User(id, v)
      ensures v in g.spaces[id].leaf && q == g.spaces[id].leaf[v].ppn
    {
      assert PlaceOk(g, q, g.own[q]);
    }
  }

  /** mappages of a user page: held page pte.ppn becomes page v of the space. */
  lemma MapUser(mem: Memory, g: Ghost, id: nat, v: nat, pte: Pte, mem': Memory, g': Ghost)
    requires Inv(mem, g) && id in g.spaces && v < TRAPFRAME && v !in g.spaces[id].leaf && pte != ZERO
    requires pte.ppn in g.own && g.own[pte.ppn] == Held
    requires var sp' := g.spaces[id].(leaf := WithLeaf(g.spaces[id].leaf, v, pte));
             && EntryStored(mem, g.own, id, g.spaces[id], v, pte, mem', sp')
             && g' == g.(own := g.own[pte.ppn := User(id, v)], spaces := g.spaces[id := sp'])
    ensures Inv(mem', g')
  {
    hide SpaceInv, FreeInv, OwnInv, LowOk;
    OneBacking(mem, g, id, v);
    LeavesOf(mem, g, id);
    LeavesAfter(g.own, id, g.spaces[id], v, pte, g'.own, g'.spaces[id]);
    StorePlaces(mem, g, id, v, pte, pte.ppn, mem', g');
    StoreInv(mem, g, id, v, pte, pte.ppn, mem', g');
  }

  /** uvmunmap of a user page: its physical page is held again. */
  lemma UnmapUser(mem: Memory, g: Ghost, id: nat, v: nat, mem': Memory, g': Ghost)
    requires Inv(mem, g) && id in g.spaces && v < TRAPFRAME && v in g.spaces[id].leaf
    requires var sp := g.spaces[id]; var sp' := sp.(leaf := WithLeaf(sp.leaf, v, ZERO));
             && EntryStored(mem, g.own, id, sp, v, ZERO, mem', sp')
             && g' == g.(own := g.own[sp.leaf[v].ppn := Held], spaces := g.spaces[id := sp'])
    ensures Inv(mem', g')
  {
    hide SpaceInv, FreeInv, OwnInv, LowOk;
    var p := g.spaces[id].leaf[v].ppn;
    LeavesOf(mem, g, id);
    assert LeafOk(g.own, id, v, g.spaces[id].leaf[v]);
    OneBacking(mem, g, id, v);
    LeavesAfter(g.own, id, g.spaces[id], v, ZERO, g'.own, g'.spaces[id]);
    StorePlaces(mem, g, id, v, ZERO, p, mem', g');
    StoreInv(mem, g, id, v, ZERO, p, mem', g');
  }

  /** Stores that leave ownership alone: TRAPFRAME and TRAMPOLINE, whose pages the space does
      not own, and changes of the flags of a mapped page. */
  lemma StoreUnowned(mem: Memory, g: Ghost, id: nat, v: nat, pte: Pte, mem': Memory, g': Ghost)
    requires Inv(mem, g) && id in g.spaces
    requires v >= TRAPFRAME || (v in g.spaces[id].leaf && pte != ZERO && pte.ppn == g.spaces[id].leaf[v].ppn)
    requires var sp := g.spaces[id]; var sp' := sp.(leaf := WithLeaf(sp.leaf, v, pte));
             && EntryStored(mem, g.own, id, sp, v, pte, mem', sp') && (v >= TRAPFRAME ==> !IsUser(pte))
             && g' == g.(spaces := g.spaces[id := sp'])
    ensures Inv(mem', g')
  {
    hide SpaceInv, FreeInv, OwnInv, LowOk;
    OneBacking(mem, g, id, v);
    LeavesOf(mem, g, id);
    assert v in g.spaces[id].leaf ==> LeafOk(g.own, id, v, g.spaces[id].leaf[v]);
    LeavesAfter(g.own, id, g.spaces[id], v, pte, g'.own, g'.spaces[id]);
    UnownedPlaces(mem, g, id, v, pte, mem', g');
    StoreInv(mem, g, id, v, pte, 0, mem', g');
  }

  lemma UnownedPlaces(mem: Memory, g: Ghost, id: nat, v: nat, pte: Pte, mem': Memory, g': Ghost)
    requires OwnInv(mem, g) && id in g.spaces && mem'.Keys >= mem.Keys
    requires v >= TRAPFRAME || (v in g.spaces[id].leaf && pte != ZERO && pte.ppn == g.spaces[id].leaf[v].ppn)
    requires g' == g.(spaces := g.spaces[id := g.spaces[id].(leaf := WithLeaf(g.spaces[id].leaf, v, pte))])
    ensures OwnInv(mem', g')
  {
    forall q | q in g'.own
      ensures q in mem' && PlaceOk(g', q, g'.own[q])
    {
      assert PlaceOk(g, q, g.own[q]);
    }
  }

  /** freewalk begins: a space without leaves gives its tables up. */
  lemma DropSpace(mem: Memory, g: Ghost, id: nat, g': Ghost)
    requires Inv(mem, g) && id in g.spaces && g.spaces[id].leaf == map[]
    requires g'.free == g.free && g'.spaces == g.spaces - {id} && g'.own.Keys == g.own.Keys
    requires forall q :: q in g.own ==> g'.own[q] == if OwnedBy(g.own[q], id) then Held else g.own[q]
    ensures Inv(mem, g')
  {
    var tables := set q | q in g.own && OwnedBy(g.own[q], id);
    FreeFrame(mem, g.own, mem, g'.own, tables, g.free);
    forall x | x in g'.spaces
      ensures SpaceInv(mem, g'.own, x, g'.spaces[x])
    {
      SpaceFrame(mem, g.own, mem, g'.own, tables, x, g.spaces[x]);
    }
    forall q | q in g'.own
      ensures q in mem && PlaceOk(g', q, g'.own[q])
    {
      assert PlaceOk(g, q, g.own[q]);
    }
  }
}
