/** The Kernighan and Ritchie allocator (user/umalloc.c): its free list as a sequence and its
    blocks as an ownership map. Addresses count headers, that is, units of sizeof(Header). */
module FreeList {
  import opened Counting

  /** ptr and size of the headers; the blocks handed out; which block each unit belongs to. */
  datatype Memory = Memory(ptr: map<nat, nat>, size: map<nat, nat>)

  ghost function Succ(list: seq<nat>, i: nat): nat
    requires i < |list|
  {
    if i + 1 < |list| then list[i + 1] else list[0]
  }

  ghost predicate NodeOk(list: seq<nat>, m: Memory, i: nat)
    requires i < |list|
  {
    && list[i] in m.ptr && list[i] in m.size && m.ptr[list[i]] == Succ(list, i)
    && (if i == 0 then m.size[list[i]] == 0 else m.size[list[i]] > 0)
  }

  /** Blocks i and i + 1 of the list are in order and not adjacent, unless i is `loose`. */
  ghost predicate GapOk(list: seq<nat>, m: Memory, i: nat, loose: int)
    requires i + 1 < |list|
  {
    && list[i] in m.size && list[i] < list[i + 1] && list[i] + m.size[list[i]] <= list[i + 1]
    && (i != loose ==> list[i] + m.size[list[i]] < list[i + 1])
  }

  /** The list starts at base, whose block is empty, and goes up in memory and back to base. */
  ghost predicate ListInv(base: nat, list: seq<nat>, m: Memory, loose: int) {
    && |list| > 0 && list[0] == base
    && (forall i {:trigger NodeOk(list, m, i)} :: 0 <= i < |list| ==> NodeOk(list, m, i))
    && (forall i {:trigger GapOk(list, m, i, loose)} :: 0 <= i < |list| - 1 ==> GapOk(list, m, i, loose))
  }

  /** h is a block of n units, all its own. */
  ghost predicate Whole(owner: map<nat, nat>, h: nat, n: nat) {
    forall u: nat {:trigger u in owner} :: h <= u < h + n ==> u in owner && owner[u] == h
  }

  ghost predicate Listed(list: seq<nat>, h: nat) { exists i :: 0 < i < |list| && list[i] == h }

  ghost predicate UnitOk(list: seq<nat>, m: Memory, alloc: map<nat, nat>, u: nat, h: nat) {
    (h in alloc || Listed(list, h)) && h in m.size && h <= u < h + m.size[h]
  }

  ghost predicate AllocOk(list: seq<nat>, m: Memory, alloc: map<nat, nat>, owner: map<nat, nat>, h: nat)
    requires h in alloc
  {
    h in m.size && alloc[h] == m.size[h] > 0 && Whole(owner, h, alloc[h]) && !Listed(list, h)
  }

  ghost predicate FreeOk(m: Memory, owner: map<nat, nat>, h: nat) {
    h in m.size && m.size[h] > 0 && Whole(owner, h, m.size[h])
  }

  /** Every unit obtained from sbrk is in exactly one block, free or handed out. */
  ghost predicate OwnInv(list: seq<nat>, m: Memory, alloc: map<nat, nat>, owner: map<nat, nat>) {
    && (forall u {:trigger u in owner} :: u in owner ==> UnitOk(list, m, alloc, u, owner[u]))
    && (forall h {:trigger h in alloc} :: h in alloc ==> AllocOk(list, m, alloc, owner, h))
    && (forall i {:trigger list[i]} :: 0 < i < |list| ==> FreeOk(m, owner, list[i]))
  }

  lemma OwnFree(list: seq<nat>, m: Memory, alloc: map<nat, nat>, owner: map<nat, nat>, i: nat)
    requires OwnInv(list, m, alloc, owner) && 0 < i < |list|
    ensures FreeOk(m, owner, list[i]) && Listed(list, list[i])
  {
  }

  lemma OwnAlloc(list: seq<nat>, m: Memory, alloc: map<nat, nat>, owner: map<nat, nat>, h: nat)
    requires OwnInv(list, m, alloc, owner) && h in alloc
    ensures AllocOk(list, m, alloc, owner, h)
  {
  }

  lemma {:induction false} Rising(base: nat, list: seq<nat>, m: Memory, loose: int, i: nat, j: nat)
    requires ListInv(base, list, m, loose) && i < j < |list|
    ensures list[i] < list[j] && list[i] in m.size && list[i] + m.size[list[i]] <= list[j]
    decreases j
  {
    assert GapOk(list, m, j - 1, loose);
    if i < j - 1 {
      Rising(base, list, m, loose, i, j - 1);
    }
  }

  /** The position behind which address a belongs. */
  ghost predicate IsPlace(list: seq<nat>, a: nat, j: nat) {
    j < |list| && list[j] < a && (j + 1 < |list| ==> a < list[j + 1])
  }

  lemma {:induction false} HasPlace(base: nat, list: seq<nat>, m: Memory, a: nat, n: nat) returns (j: nat)
    requires ListInv(base, list, m, -1) && base < a && a !in list && n < |list| && (n + 1 < |list| ==> a < list[n + 1])
    ensures IsPlace(list, a, j)
    decreases n
  {
    if list[n] < a {
      j := n;
    } else {
      assert list[n] in list;
      j := HasPlace(base, list, m, a, n - 1);
    }
  }

  /** The test with which free stops its search, at position i. */
  predicate Stops(p: nat, next: nat, a: nat) { (p < a < next) || (p >= next && (a > p || a < next)) }

  /** The search stops exactly at the place. */
  lemma StopsAt(base: nat, list: seq<nat>, m: Memory, a: nat, i: nat, j: nat)
    requires ListInv(base, list, m, -1) && base < a && IsPlace(list, a, j) && i < |list|
    ensures Stops(list[i], Succ(list, i), a) <==> i == j
  {
    if i > 0 { Rising(base, list, m, -1, 0, i); }
    if i + 1 < |list| { Rising(base, list, m, -1, i, i + 1); }
    if i < j { Rising(base, list, m, -1, i, j); if i + 1 < j { Rising(base, list, m, -1, i + 1, j); } }
    if j < i { if j + 1 < i { Rising(base, list, m, -1, j + 1, i); } }
  }

  // ----- free -----

  /** A block that is handed out does not overlap a free one. */
  lemma Apart(list: seq<nat>, m: Memory, alloc: map<nat, nat>, owner: map<nat, nat>, bp: nat, i: nat)
    requires OwnInv(list, m, alloc, owner) && bp in alloc && 0 < i < |list| && list[i] in m.size && m.size[list[i]] > 0
    ensures list[i] != bp
    ensures if list[i] < bp then list[i] + m.size[list[i]] <= bp else bp + alloc[bp] <= list[i]
  {
    assert Listed(list, list[i]);
    var q := list[i];
    assert Whole(owner, q, m.size[q]) && Whole(owner, bp, alloc[bp]);
    assert q in owner && owner[q] == q && bp in owner && owner[bp] == bp;
  }

  /** The list with bp behind position j, in place of the next block if the two are adjacent. */
  ghost function Inserted(list: seq<nat>, j: nat, bp: nat, joins: bool): seq<nat>
    requires j < |list| && (joins ==> j + 1 < |list|)
  {
    list[..j + 1] + [bp] + list[if joins then j + 2 else j + 1..]
  }

  /** What free's first if does, and then linking bp behind p. */
  ghost function Linked(list: seq<nat>, m: Memory, j: nat, bp: nat, joins: bool): Memory
    requires j < |list| && (joins ==> j + 1 < |list| && list[j + 1] in m.ptr && list[j + 1] in m.size) && bp in m.size
  {
    var next := Succ(list, j);
    if joins then
      Memory(m.ptr[bp := m.ptr[next]][list[j] := bp], m.size[bp := m.size[bp] + m.size[next]])
    else Memory(m.ptr[bp := next][list[j] := bp], m.size)
  }

  ghost predicate CanInsert(base: nat, list: seq<nat>, m: Memory, j: nat, bp: nat, joins: bool) {
    && ListInv(base, list, m, -1) && IsPlace(list, bp, j) && bp in m.size && m.size[bp] > 0 && bp !in list && base < bp
    && (forall i {:trigger list[i]} :: 0 < i < |list| && list[i] in m.size ==>
          if list[i] < bp then list[i] + m.size[list[i]] <= bp else bp + m.size[bp] <= list[i])
    && (joins <==> bp + m.size[bp] == Succ(list, j))
  }

  lemma JoinsNext(base: nat, list: seq<nat>, m: Memory, j: nat, bp: nat, joins: bool)
    requires CanInsert(base, list, m, j, bp, joins)
    ensures joins ==> j + 1 < |list| && NodeOk(list, m, j + 1)
    ensures NodeOk(list, m, j) && list[j] + m.size[list[j]] <= bp
  {
    assert NodeOk(list, m, j);
    if j + 1 < |list| { assert NodeOk(list, m, j + 1); }
  }

  lemma InsertNode(base: nat, list: seq<nat>, m: Memory, j: nat, bp: nat, joins: bool, list': seq<nat>, m': Memory,
                   i: nat)
    requires CanInsert(base, list, m, j, bp, joins) && (joins ==> j + 1 < |list| && NodeOk(list, m, j + 1))
    requires list' == Inserted(list, j, bp, joins) && m' == Linked(list, m, j, bp, joins) && i < |list'|
    ensures NodeOk(list', m', i)
  {
    var d := if joins then 1 else 0;
    if i <= j {
      assert NodeOk(list, m, i);
      if i < j { Rising(base, list, m, -1, i, j); }
    } else if i > j + 1 {
      var k := i - 1 + d;
      assert NodeOk(list, m, k) && list'[i] == list[k];
      Rising(base, list, m, -1, j, k);
    } else {
      assert NodeOk(list, m, j);
    }
  }

  lemma InsertGap(base: nat, list: seq<nat>, m: Memory, j: nat, bp: nat, joins: bool, list': seq<nat>, m': Memory,
                  i: nat)
    requires CanInsert(base, list, m, j, bp, joins) && (joins ==> j + 1 < |list| && NodeOk(list, m, j + 1))
    requires list' == Inserted(list, j, bp, joins) && m' == Linked(list, m, j, bp, joins) && i + 1 < |list'|
    ensures GapOk(list', m', i, j)
  {
    var d := if joins then 1 else 0;
    assert NodeOk(list, m, j);
    if i < j {
      assert GapOk(list, m, i, -1);
    } else if i > j + 1 {
      assert GapOk(list, m, i - 1 + d, -1);
      Rising(base, list, m, -1, j, i - 1 + d);
    } else if i == j + 1 {
      assert list'[i + 1] == list[j + 1 + d] && NodeOk(list, m, j + 1 + d);
      if joins { assert GapOk(list, m, j + 1, -1); }
    }
  }

  lemma InsertList(base: nat, list: seq<nat>, m: Memory, j: nat, bp: nat, joins: bool, list': seq<nat>, m': Memory)
    requires CanInsert(base, list, m, j, bp, joins) && (joins ==> j + 1 < |list| && NodeOk(list, m, j + 1))
    requires list' == Inserted(list, j, bp, joins) && m' == Linked(list, m, j, bp, joins)
    ensures ListInv(base, list', m', j)
  {
    forall i {:trigger NodeOk(list', m', i)} | 0 <= i < |list'| ensures NodeOk(list', m', i) {
      InsertNode(base, list, m, j, bp, joins, list', m', i);
    }
    forall i {:trigger GapOk(list', m', i, j)} | 0 <= i < |list'| - 1 ensures GapOk(list', m', i, j) {
      InsertGap(base, list, m, j, bp, joins, list', m', i);
    }
  }

  /** free's second if, when block j + 1 starts where block j ends. */
  ghost function Joined(m: Memory, p: nat, bp: nat): Memory
    requires p in m.size && bp in m.size && bp in m.ptr
  {
    Memory(m.ptr[p := m.ptr[bp]], m.size[p := m.size[p] + m.size[bp]])
  }

  lemma JoinList(base: nat, list: seq<nat>, m: Memory, j: nat, list': seq<nat>, m': Memory)
    requires ListInv(base, list, m, j) && 0 < j && j + 1 < |list| && NodeOk(list, m, j) && NodeOk(list, m, j + 1)
    requires list[j] + m.size[list[j]] == list[j + 1]
    requires list' == list[..j + 1] + list[j + 2..] && m' == Joined(m, list[j], list[j + 1])
    ensures ListInv(base, list', m', -1)
  {
    forall i {:trigger NodeOk(list', m', i)} | 0 <= i < |list'| ensures NodeOk(list', m', i) {
      if i < j {
        assert NodeOk(list, m, i);
        Rising(base, list, m, j, i, j);
      } else if i > j {
        assert NodeOk(list, m, i + 1) && list'[i] == list[i + 1];
        Rising(base, list, m, j, j, i + 1);
      }
    }
    forall i {:trigger GapOk(list', m', i, -1)} | 0 <= i < |list'| - 1 ensures GapOk(list', m', i, -1) {
      if i < j {
        assert GapOk(list, m, i, j);
        Rising(base, list, m, j, i, j);
      } else {
        assert GapOk(list, m, i + 1, j) && list'[i + 1] == list[i + 2];
        if i > j { Rising(base, list, m, j, j, i + 1); } else { assert GapOk(list, m, j, j); }
      }
    }
  }

  // ----- Owners -----

  /** The units of block `from` now belong to block `to`. */
  ghost function Moved(owner: map<nat, nat>, from: nat, to: nat): map<nat, nat> {
    map u | u in owner :: if owner[u] == from then to else owner[u]
  }

  /** free makes bp one of the listed blocks. */
  lemma InsertOwn(list: seq<nat>, m: Memory, alloc: map<nat, nat>, owner: map<nat, nat>, j: nat, bp: nat,
                  list': seq<nat>, m': Memory)
    requires OwnInv(list, m, alloc, owner) && bp in alloc && j < |list| && bp in m.size
    requires list' == Inserted(list, j, bp, false) && m'.size == m.size
    ensures OwnInv(list', m', alloc - {bp}, owner)
  {
    assert list'[j + 1] == bp;
    forall h | h != bp ensures Listed(list', h) <==> Listed(list, h) {
      if Listed(list, h) {
        var i :| 0 < i < |list| && list[i] == h;
        assert list'[if i <= j then i else i + 1] == h;
      }
    }
    forall h {:trigger h in alloc} | h in alloc - {bp} ensures AllocOk(list', m', alloc - {bp}, owner, h) {
      assert AllocOk(list, m, alloc, owner, h);
    }
    forall i {:trigger list'[i]} | 0 < i < |list'| ensures FreeOk(m', owner, list'[i]) {
      if i == j + 1 {
        assert AllocOk(list, m, alloc, owner, bp);
      } else {
        assert list'[i] == list[if i <= j then i else i - 1];
      }
    }
  }

  ghost predicate Unrepeated(list: seq<nat>) {
    forall i, k :: 0 <= i < k < |list| ==> list[i] != list[k]
  }

  /** Block i + 1 joins block i, and its units with it. */
  ghost predicate Joins(list: seq<nat>, m: Memory, owner: map<nat, nat>, i: nat, list': seq<nat>, m': Memory,
                        owner': map<nat, nat>) {
    && 0 < i && i + 1 < |list| && Unrepeated(list)
    && list[i] in m.size && list[i + 1] in m.size && list[i] + m.size[list[i]] == list[i + 1]
    && list' == list[..i + 1] + list[i + 2..]
    && m'.size == m.size[list[i] := m.size[list[i]] + m.size[list[i + 1]]]
    && owner' == Moved(owner, list[i + 1], list[i])
  }

  lemma JoinListed(list: seq<nat>, m: Memory, owner: map<nat, nat>, i: nat, list': seq<nat>, m': Memory,
                   owner': map<nat, nat>, h: nat)
    requires Joins(list, m, owner, i, list', m', owner')
    ensures Listed(list', h) <==> Listed(list, h) && h != list[i + 1]
  {
    if Listed(list, h) && h != list[i + 1] {
      var k :| 0 < k < |list| && list[k] == h;
      assert list'[if k <= i then k else k - 1] == h;
    }
  }

  /** A block other than the one that disappears keeps its units. */
  lemma JoinWhole(list: seq<nat>, m: Memory, owner: map<nat, nat>, i: nat, list': seq<nat>, m': Memory,
                  owner': map<nat, nat>, h: nat)
    requires Joins(list, m, owner, i, list', m', owner') && h in m.size && Whole(owner, h, m.size[h])
    requires h != list[i + 1]
    requires Whole(owner, list[i + 1], m.size[list[i + 1]])
    ensures h in m'.size && Whole(owner', h, m'.size[h])
  {
    forall u: nat {:trigger u in owner'} | h <= u < h + m'.size[h] ensures u in owner' && owner'[u] == h {
      if u < h + m.size[h] { assert u in owner && owner[u] == h; }
          else { assert u in owner && owner[u] == list[i + 1]; }
    }
  }

  lemma JoinOwn(list: seq<nat>, m: Memory, alloc: map<nat, nat>, owner: map<nat, nat>, i: nat,
                list': seq<nat>, m': Memory, owner': map<nat, nat>)
    requires OwnInv(list, m, alloc, owner) && Joins(list, m, owner, i, list', m', owner')
    ensures OwnInv(list', m', alloc, owner') && owner'.Keys == owner.Keys
  {
    hide Whole, Listed, Moved;
    var p, q := list[i], list[i + 1];
    assert FreeOk(m, owner, p) && FreeOk(m, owner, q);
    assert Listed(list, p) && Listed(list, q) by { AreListed(list, i); AreListed(list, i + 1); }
    forall k {:trigger list'[k]} | 0 < k < |list'| ensures FreeOk(m', owner', list'[k]) {
      var k0 := if k <= i then k else k + 1;
      assert list'[k] == list[k0] && FreeOk(m, owner, list[k0]);
      JoinWhole(list, m, owner, i, list', m', owner', list[k0]);
    }
    forall h {:trigger h in alloc} | h in alloc ensures AllocOk(list', m', alloc, owner', h) {
      assert AllocOk(list, m, alloc, owner, h);
      JoinListed(list, m, owner, i, list', m', owner', h);
      JoinWhole(list, m, owner, i, list', m', owner', h);
    }
    forall u {:trigger u in owner'} | u in owner' ensures UnitOk(list', m', alloc, u, owner'[u]) {
      JoinUnit(list, m, alloc, owner, i, list', m', owner', u);
    }
    assert owner'.Keys == owner.Keys by { MovedKeys(owner, q, p); }
  }

  lemma AreListed(list: seq<nat>, i: nat)
    requires 0 < i < |list|
    ensures Listed(list, list[i])
  {
  }

  lemma MovedKeys(owner: map<nat, nat>, from: nat, to: nat)
    ensures Moved(owner, from, to).Keys == owner.Keys
  {
  }

  lemma JoinUnit(list: seq<nat>, m: Memory, alloc: map<nat, nat>, owner: map<nat, nat>, i: nat,
                 list': seq<nat>, m': Memory, owner': map<nat, nat>, u: nat)
    requires OwnInv(list, m, alloc, owner) && Joins(list, m, owner, i, list', m', owner') && u in owner'
    ensures UnitOk(list', m', alloc, u, owner'[u])
  {
    hide Whole;
    assert u in owner && UnitOk(list, m, alloc, u, owner[u]);
    JoinListed(list, m, owner, i, list', m', owner', owner'[u]);
    AreListed(list, i);
    hide Listed;
  }

  // ----- malloc -----

  /** malloc takes all of block i. */
  lemma UnlinkList(base: nat, list: seq<nat>, m: Memory, i: nat, list': seq<nat>, m': Memory)
    requires ListInv(base, list, m, -1) && 0 < i < |list| && NodeOk(list, m, i)
    requires list' == list[..i] + list[i + 1..] && m' == m.(ptr := m.ptr[list[i - 1] := m.ptr[list[i]]])
    ensures ListInv(base, list', m', -1)
  {
    forall k {:trigger NodeOk(list', m', k)} | 0 <= k < |list'| ensures NodeOk(list', m', k) {
      if k < i {
        assert NodeOk(list, m, k);
        if k < i - 1 { Rising(base, list, m, -1, k, i - 1); }
      } else {
        assert NodeOk(list, m, k + 1) && list'[k] == list[k + 1];
        Rising(base, list, m, -1, i - 1, k + 1);
      }
    }
    forall k {:trigger GapOk(list', m', k, -1)} | 0 <= k < |list'| - 1 ensures GapOk(list', m', k, -1) {
      assert GapOk(list, m, if k < i then k else k + 1, -1);
      if k == i - 1 { assert GapOk(list, m, i, -1); }
    }
  }

  lemma UnlinkOwn(list: seq<nat>, m: Memory, alloc: map<nat, nat>, owner: map<nat, nat>, i: nat, list': seq<nat>,
                  m': Memory)
    requires OwnInv(list, m, alloc, owner) && 0 < i < |list| && Unrepeated(list) && list[i] in m.size
    requires m.size[list[i]] > 0
    requires list' == list[..i] + list[i + 1..] && m'.size == m.size
    ensures list[i] !in alloc && OwnInv(list', m', alloc[list[i] := m.size[list[i]]], owner)
  {
    var h, alloc' := list[i], alloc[list[i] := m.size[list[i]]];
    AreListed(list, i);
    assert h in alloc ==> AllocOk(list, m, alloc, owner, h);
    forall x | x != h ensures Listed(list', x) <==> Listed(list, x) {
      if Listed(list, x) {
        var k :| 0 < k < |list| && list[k] == x;
        assert list'[if k < i then k else k - 1] == x;
      }
    }
    forall x {:trigger x in alloc'} | x in alloc' ensures AllocOk(list', m', alloc', owner, x) {
      if x != h { assert AllocOk(list, m, alloc, owner, x); } else { assert FreeOk(m, owner, list[i]); }
    }
    forall k {:trigger list'[k]} | 0 < k < |list'| ensures FreeOk(m', owner, list'[k]) {
      assert list'[k] == list[if k < i then k else k + 1];
    }
  }

  /** malloc takes the last n units of block i, which is larger. */
  ghost function Split(m: Memory, p: nat, n: nat): Memory
    requires p in m.size && n < m.size[p]
  {
    m.(size := m.size[p := m.size[p] - n][p + m.size[p] - n := n])
  }

  lemma SplitList(base: nat, list: seq<nat>, m: Memory, i: nat, n: nat, m': Memory)
    requires ListInv(base, list, m, -1) && 0 < i < |list| && NodeOk(list, m, i) && 0 < n < m.size[list[i]]
    requires m' == Split(m, list[i], n)
    ensures ListInv(base, list, m', -1)
  {
    var bp := list[i] + m.size[list[i]] - n;
    forall k | 0 <= k < |list| ensures list[k] != bp && (k != i ==> list[k] != list[i]) {
      if k < i { Rising(base, list, m, -1, k, i); } else if k > i { Rising(base, list, m, -1, i, k); }
    }
    forall k {:trigger NodeOk(list, m', k)} | 0 <= k < |list| ensures NodeOk(list, m', k) {
      assert NodeOk(list, m, k);
    }
    forall k {:trigger GapOk(list, m', k, -1)} | 0 <= k < |list| - 1 ensures GapOk(list, m', k, -1) {
      assert GapOk(list, m, k, -1);
    }
  }

  /** The units from bp on now belong to bp. */
  ghost function Carved(owner: map<nat, nat>, p: nat, bp: nat): map<nat, nat> {
    map u | u in owner :: if owner[u] == p && u >= bp then bp else owner[u]
  }

  /** The state after the split. */
  ghost predicate IsSplit(list: seq<nat>, m: Memory, alloc: map<nat, nat>, owner: map<nat, nat>, i: nat, n: nat,
                          bp: nat, m': Memory, alloc': map<nat, nat>, owner': map<nat, nat>) {
    && OwnInv(list, m, alloc, owner) && 0 < i < |list| && list[i] in m.size && 0 < n < m.size[list[i]]
    && bp == list[i] + m.size[list[i]] - n && m' == Split(m, list[i], n)
    && alloc' == alloc[bp := n] && owner' == Carved(owner, list[i], bp)
  }

  lemma SplitFree(list: seq<nat>, m: Memory, alloc: map<nat, nat>, owner: map<nat, nat>, i: nat, n: nat, bp: nat,
                  m': Memory, alloc': map<nat, nat>, owner': map<nat, nat>, k: nat)
    requires IsSplit(list, m, alloc, owner, i, n, bp, m', alloc', owner') && 0 < k < |list|
    ensures FreeOk(m', owner', list[k])
  {
    hide OwnInv, Whole, Listed;
    OwnFree(list, m, alloc, owner, i);
    OwnFree(list, m, alloc, owner, k);
    SplitWhole(m, owner, list[i], n, m', owner', list[k]);
  }

  lemma SplitAlloc(list: seq<nat>, m: Memory, alloc: map<nat, nat>, owner: map<nat, nat>, i: nat, n: nat, bp: nat,
                   m': Memory, alloc': map<nat, nat>, owner': map<nat, nat>, x: nat)
    requires IsSplit(list, m, alloc, owner, i, n, bp, m', alloc', owner') && x in alloc'
    ensures AllocOk(list, m', alloc', owner', x)
  {
    hide OwnInv, Whole, Listed;
    OwnFree(list, m, alloc, owner, i);
    SplitNew(list, m, alloc, owner, list[i], n, owner');
    if x != bp {
      OwnAlloc(list, m, alloc, owner, x);
      SplitWhole(m, owner, list[i], n, m', owner', x);
    }
  }

  lemma SplitOwn(list: seq<nat>, m: Memory, alloc: map<nat, nat>, owner: map<nat, nat>, i: nat, n: nat, bp: nat,
                 m': Memory, alloc': map<nat, nat>, owner': map<nat, nat>)
    requires IsSplit(list, m, alloc, owner, i, n, bp, m', alloc', owner')
    ensures bp !in alloc && OwnInv(list, m', alloc', owner') && owner'.Keys == owner.Keys
  {
    hide Carved, Split, Whole, Listed, UnitOk, AllocOk;
    OwnFree(list, m, alloc, owner, i);
    SplitNew(list, m, alloc, owner, list[i], n, owner');
    CarvedKeys(owner, list[i], bp);
    hide FreeOk;
    forall k {:trigger list[k]} | 0 < k < |list| ensures FreeOk(m', owner', list[k]) {
      SplitFree(list, m, alloc, owner, i, n, bp, m', alloc', owner', k);
    }
    forall x {:trigger x in alloc'} | x in alloc' ensures AllocOk(list, m', alloc', owner', x) {
      SplitAlloc(list, m, alloc, owner, i, n, bp, m', alloc', owner', x);
    }
    forall u {:trigger u in owner'} | u in owner' ensures UnitOk(list, m', alloc', u, owner'[u]) {
      SplitUnit(list, m, alloc, owner, i, n, m', u);
    }
  }

  lemma CarvedKeys(owner: map<nat, nat>, p: nat, bp: nat)
    ensures Carved(owner, p, bp).Keys == owner.Keys
  {
  }

  /** The new block is new, and its units are its own. */
  lemma SplitNew(list: seq<nat>, m: Memory, alloc: map<nat, nat>, owner: map<nat, nat>, p: nat, n: nat,
                 owner': map<nat, nat>)
    requires OwnInv(list, m, alloc, owner) && p in m.size && 0 < n < m.size[p] && Whole(owner, p, m.size[p])
    requires owner' == Carved(owner, p, p + m.size[p] - n)
    ensures var bp := p + m.size[p] - n; bp !in alloc && !Listed(list, bp) && Whole(owner', bp, n)
  {
    var bp := p + m.size[p] - n;
    assert bp in owner && owner[bp] == p;
    assert bp in alloc ==> AllocOk(list, m, alloc, owner, bp);
    forall k | 0 < k < |list| ensures list[k] != bp {
      assert FreeOk(m, owner, list[k]);
      assert list[k] in owner && owner[list[k]] == list[k];
    }
    forall u: nat {:trigger u in owner'} | bp <= u < bp + n ensures u in owner' && owner'[u] == bp {
      assert u in owner && owner[u] == p;
    }
  }

  lemma SplitUnit(list: seq<nat>, m: Memory, alloc: map<nat, nat>, owner: map<nat, nat>, i: nat, n: nat, m': Memory,
                  u: nat)
    requires OwnInv(list, m, alloc, owner) && 0 < i < |list|
    requires list[i] in m.size && 0 < n < m.size[list[i]] && m' == Split(m, list[i], n) && u in owner
    requires !Listed(list, list[i] + m.size[list[i]] - n) && list[i] + m.size[list[i]] - n !in alloc
    ensures var bp := list[i] + m.size[list[i]] - n;
            && u in Carved(owner, list[i], bp)
            && UnitOk(list, m', alloc[bp := n], u, Carved(owner, list[i], bp)[u])
  {
    AreListed(list, i);
    hide Listed, Whole;
    assert UnitOk(list, m, alloc, u, owner[u]);
  }

  lemma SplitWhole(m: Memory, owner: map<nat, nat>, p: nat, n: nat, m': Memory, owner': map<nat, nat>, h: nat)
    requires p in m.size && 0 < n < m.size[p] && m' == Split(m, p, n) && h in m.size && m.size[h] > 0
    requires Whole(owner, p, m.size[p]) && Whole(owner, h, m.size[h]) && owner' == Carved(owner, p, p + m.size[p] - n)
    ensures h != p + m.size[p] - n && h in m'.size && Whole(owner', h, m'.size[h])
  {
    var bp := p + m.size[p] - n;
    assert bp in owner && owner[bp] == p && h in owner && owner[h] == h;
    forall u: nat {:trigger u in owner'} | h <= u < h + m'.size[h] ensures u in owner' && owner'[u] == h {
      assert u in owner && owner[u] == h;
    }
  }

  // ----- morecore -----

  ghost function Grown(owner: map<nat, nat>, p: nat, n: nat): map<nat, nat> {
    map u: nat | u in owner.Keys + Interval(p, n) :: if u in owner then owner[u] else p
  }

  lemma GrowWhole(owner: map<nat, nat>, p: nat, n: nat, h: nat, k: nat)
    requires Whole(owner, h, k) && k > 0 && forall u :: u in owner ==> u < p
    ensures h != p && Whole(Grown(owner, p, n), h, k) && Whole(Grown(owner, p, n), p, n)
  {
    assert h in owner;
  }

  lemma GrowNew(owner: map<nat, nat>, p: nat, n: nat)
    requires forall u :: u in owner ==> u < p
    ensures Whole(Grown(owner, p, n), p, n)
    ensures forall u :: u in Grown(owner, p, n) <==> u in owner || p <= u < p + n
  {
  }

  /** New memory above everything else, as a block that is handed out. */
  lemma GrowOwn(list: seq<nat>, m: Memory, alloc: map<nat, nat>, owner: map<nat, nat>, p: nat, n: nat, m': Memory)
    requires OwnInv(list, m, alloc, owner) && n > 0 && (forall u :: u in owner ==> u < p) && p !in list
    requires m'.size == m.size[p := n]
    ensures OwnInv(list, m', alloc[p := n], Grown(owner, p, n))
  {
    hide Whole, Listed, Grown;
    var alloc', owner' := alloc[p := n], Grown(owner, p, n);
    GrowNew(owner, p, n);
    NotIn(list, p);
    forall x {:trigger x in alloc'} | x in alloc' ensures AllocOk(list, m', alloc', owner', x) {
      if x != p {
        OwnAlloc(list, m, alloc, owner, x);
        GrowWhole(owner, p, n, x, alloc[x]);
      }
    }
    forall i {:trigger list[i]} | 0 < i < |list| ensures FreeOk(m', owner', list[i]) {
      OwnFree(list, m, alloc, owner, i);
      GrowWhole(owner, p, n, list[i], m.size[list[i]]);
    }
    forall u {:trigger u in owner'} | u in owner' ensures UnitOk(list, m', alloc', u, owner'[u]) {
      GrowUnit(list, m, alloc, owner, p, n, m', owner', u);
    }
  }

  lemma NotIn(list: seq<nat>, p: nat)
    requires p !in list
    ensures !Listed(list, p)
  {
  }

  lemma GrowUnit(list: seq<nat>, m: Memory, alloc: map<nat, nat>, owner: map<nat, nat>, p: nat, n: nat, m': Memory,
                 owner': map<nat, nat>, u: nat)
    requires OwnInv(list, m, alloc, owner) && n > 0 && (u in owner ==> u < p)
    requires m'.size == m.size[p := n] && owner' == Grown(owner, p, n) && u in owner'
    ensures UnitOk(list, m', alloc[p := n], u, owner'[u])
  {
    hide OwnInv, Listed, Grown;
    GrownAt(owner, p, n, u);
    if u in owner { OwnUnit(list, m, alloc, owner, u); }
  }

  lemma OwnUnit(list: seq<nat>, m: Memory, alloc: map<nat, nat>, owner: map<nat, nat>, u: nat)
    requires OwnInv(list, m, alloc, owner) && u in owner
    ensures UnitOk(list, m, alloc, u, owner[u])
  {
  }

  lemma GrownAt(owner: map<nat, nat>, p: nat, n: nat, u: nat)
    requires u in Grown(owner, p, n)
    ensures if u in owner then Grown(owner, p, n)[u] == owner[u] else p <= u < p + n && Grown(owner, p, n)[u] == p
  {
  }

  lemma GrowList(base: nat, list: seq<nat>, m: Memory, p: nat, n: nat, m': Memory)
    requires ListInv(base, list, m, -1) && p !in list && m' == m.(size := m.size[p := n])
    ensures ListInv(base, list, m', -1)
  {
    forall i {:trigger NodeOk(list, m', i)} | 0 <= i < |list| ensures NodeOk(list, m', i) {
      assert NodeOk(list, m, i) && list[i] in list;
    }
    forall i {:trigger GapOk(list, m', i, -1)} | 0 <= i < |list| - 1 ensures GapOk(list, m', i, -1) {
      assert GapOk(list, m, i, -1) && list[i] in list;
    }
  }

  // ----- The two ifs of free together -----

  lemma ListUnrepeated(base: nat, list: seq<nat>, m: Memory, loose: int)
    requires ListInv(base, list, m, loose)
    ensures Unrepeated(list)
  {
    forall i, k | 0 <= i < k < |list| ensures list[i] != list[k] {
      Rising(base, list, m, loose, i, k);
    }
  }

  lemma InsertedUnrepeated(list: seq<nat>, j: nat, bp: nat)
    requires Unrepeated(list) && j < |list| && bp !in list
    ensures Unrepeated(Inserted(list, j, bp, false))
  {
    var list' := Inserted(list, j, bp, false);
    forall i, k | 0 <= i < k < |list'| ensures list'[i] != list'[k] {
      var i0, k0 := if i <= j then i else i - 1, if k <= j then k else k - 1;
      assert i != j + 1 ==> list'[i] == list[i0] && list[i0] in list;
      assert k != j + 1 ==> list'[k] == list[k0] && list[k0] in list;
    }
  }

  /** Everything is in place for free to insert bp behind position j. */
  lemma MayInsert(base: nat, list: seq<nat>, m: Memory, alloc: map<nat, nat>, owner: map<nat, nat>, bp: nat, j: nat)
    requires ListInv(base, list, m, -1) && OwnInv(list, m, alloc, owner) && bp in alloc && base < bp
    requires IsPlace(list, bp, j)
    ensures bp in m.size && CanInsert(base, list, m, j, bp, bp + m.size[bp] == Succ(list, j))
  {
    OwnAlloc(list, m, alloc, owner, bp);
    hide Whole;
    forall i {:trigger list[i]} | 0 < i < |list|
      ensures list[i] != bp && list[i] in m.size
      ensures if list[i] < bp then list[i] + m.size[list[i]] <= bp else bp + m.size[bp] <= list[i]
    {
      OwnFree(list, m, alloc, owner, i);
      Apart(list, m, alloc, owner, bp, i);
    }
    assert bp !in list;
  }

  /** The owners after the first if. */
  lemma FirstIf(base: nat, list: seq<nat>, m: Memory, alloc: map<nat, nat>, owner: map<nat, nat>, bp: nat, j: nat,
                joins: bool, list': seq<nat>, m': Memory, owner': map<nat, nat>)
    requires CanInsert(base, list, m, j, bp, joins) && (joins ==> j + 1 < |list| && NodeOk(list, m, j + 1))
    requires OwnInv(list, m, alloc, owner) && bp in alloc
    requires list' == Inserted(list, j, bp, joins) && m' == Linked(list, m, j, bp, joins)
    requires owner' == if joins then Moved(owner, Succ(list, j), bp) else owner
    ensures OwnInv(list', m', alloc - {bp}, owner') && owner'.Keys == owner.Keys
  {
    ListUnrepeated(base, list, m, -1);
    InsertedUnrepeated(list, j, bp);
    var list1 := Inserted(list, j, bp, false);
    hide ListInv, Unrepeated, OwnInv, Moved;
    InsertOwn(list, m, alloc, owner, j, bp, list1, m);
    if joins {
      assert list' == list1[..j + 2] + list1[j + 3..];
      assert list1[j + 1] == bp && list1[j + 2] == list[j + 1];
      JoinOwn(list1, m, alloc - {bp}, owner, j + 1, list', m', owner');
    } else {
      SameSize(list', m, alloc - {bp}, owner, m');
    }
  }

  lemma SameSize(list: seq<nat>, m: Memory, alloc: map<nat, nat>, owner: map<nat, nat>, m': Memory)
    requires OwnInv(list, m, alloc, owner) && m'.size == m.size
    ensures OwnInv(list, m', alloc, owner)
  {
    forall h {:trigger h in alloc} | h in alloc ensures AllocOk(list, m', alloc, owner, h) {
      OwnAlloc(list, m, alloc, owner, h);
    }
  }

  /** No join behind p: the list was in order all along. */
  lemma Tight(base: nat, list: seq<nat>, m: Memory, j: nat)
    requires ListInv(base, list, m, j) && j + 1 < |list| && list[j] in m.size
    requires list[j] + m.size[list[j]] != list[j + 1]
    ensures ListInv(base, list, m, -1)
  {
    forall i {:trigger GapOk(list, m, i, -1)} | 0 <= i < |list| - 1 ensures GapOk(list, m, i, -1) {
      assert GapOk(list, m, i, j);
    }
  }

  /** The list and the owners after the second if; block j + 1 is the one that was freed. */
  lemma SecondIf(base: nat, list: seq<nat>, m: Memory, alloc: map<nat, nat>, owner: map<nat, nat>, j: nat, joins: bool,
                 list': seq<nat>, m': Memory, owner': map<nat, nat>)
    requires ListInv(base, list, m, j) && OwnInv(list, m, alloc, owner) && j + 1 < |list|
    requires NodeOk(list, m, j) && NodeOk(list, m, j + 1)
    requires joins == (list[j] + m.size[list[j]] == list[j + 1])
    requires list' == if joins then list[..j + 1] + list[j + 2..] else list
    requires m' == if joins then Joined(m, list[j], list[j + 1]) else m
    requires owner' == if joins then Moved(owner, list[j + 1], list[j]) else owner
    ensures ListInv(base, list', m', -1) && OwnInv(list', m', alloc, owner') && owner'.Keys == owner.Keys
  {
    if joins {
      assert GapOk(list, m, j, j);
      ListUnrepeated(base, list, m, j);
      JoinList(base, list, m, j, list', m');
      hide ListInv;
      JoinOwn(list, m, alloc, owner, j, list', m', owner');
    } else {
      Tight(base, list, m, j);
    }
  }

  /** Where the freed block bp is now. */
  lemma FreedAt(list: seq<nat>, m: Memory, owner: map<nat, nat>, j: nat, joins: bool,
                list': seq<nat>, m': Memory, owner': map<nat, nat>)
    requires j + 1 < |list| && NodeOk(list, m, j) && NodeOk(list, m, j + 1) && (joins ==> j > 0)
    requires list[j] != list[j + 1]
    requires list[j + 1] in owner && owner[list[j + 1]] == list[j + 1]
    requires list' == if joins then list[..j + 1] + list[j + 2..] else list
    requires m' == if joins then Joined(m, list[j], list[j + 1]) else m
    requires owner' == if joins then Moved(owner, list[j + 1], list[j]) else owner
    ensures list[j] in list' && list[j + 1] in owner' && Listed(list', owner'[list[j + 1]])
    ensures owner'[list[j + 1]] in m'.size && m'.size[owner'[list[j + 1]]] >= m.size[list[j + 1]]
  {
    assert list'[j] == list[j];
    if !joins { AreListed(list, j + 1); }
  }

  // ----- What the invariant says about blocks -----

  ghost predicate IsBlock(list: seq<nat>, alloc: map<nat, nat>, h: nat) { h in alloc || Listed(list, h) }

  /** Different blocks, free or handed out, have no unit in common. */
  lemma BlocksDisjoint(list: seq<nat>, m: Memory, alloc: map<nat, nat>, owner: map<nat, nat>, h: nat, k: nat)
    requires OwnInv(list, m, alloc, owner) && IsBlock(list, alloc, h) && IsBlock(list, alloc, k) && h < k
    ensures h in m.size && h + m.size[h] <= k
  {
    BlockWhole(list, m, alloc, owner, h);
    BlockWhole(list, m, alloc, owner, k);
    hide OwnInv;
    assert k in owner && owner[k] == k;
  }

  lemma BlockWhole(list: seq<nat>, m: Memory, alloc: map<nat, nat>, owner: map<nat, nat>, h: nat)
    requires OwnInv(list, m, alloc, owner) && IsBlock(list, alloc, h)
    ensures h in m.size && m.size[h] > 0 && Whole(owner, h, m.size[h])
  {
    if h in alloc {
      OwnAlloc(list, m, alloc, owner, h);
    } else {
      var i :| 0 < i < |list| && list[i] == h;
      OwnFree(list, m, alloc, owner, i);
    }
  }

  /** Free blocks never touch: what lies between two of them is in use or not the heap's. */
  lemma FreeBlocksApart(base: nat, list: seq<nat>, m: Memory, h: nat, k: nat)
    requires ListInv(base, list, m, -1) && Listed(list, h) && Listed(list, k) && h < k
    ensures h in m.size && h + m.size[h] < k
  {
    var i :| 0 < i < |list| && list[i] == h;
    var j :| 0 < j < |list| && list[j] == k;
    if j <= i {
      if j < i { Rising(base, list, m, -1, j, i); }
      assert false;
    }
    assert GapOk(list, m, i, -1);
    if i + 1 < j { Rising(base, list, m, -1, i + 1, j); }
  }
}
