/** What growing an address space costs: the tables that a range of pages still lacks, and the
    pages themselves, all taken from the free list. */
module PageBudget {
  import opened Counting
  import opened Sv39
  import opened PageTables

  /** The third-level tables for the pages lo .. hi - 1. */
  ghost function Lows(lo: nat, hi: nat): set<nat> { set v | lo <= v < hi :: v / 512 }

  /** The second-level tables for the same pages. */
  ghost function Mids(lo: nat, hi: nat): set<nat> { set v | lo <= v < hi :: v / 512 / 512 }

  /** How many tables must be made before the pages lo .. hi - 1 can be mapped. */
  ghost function Missing(sp: Space, lo: nat, hi: nat): nat {
    |Lows(lo, hi) - sp.low.Keys| + |Mids(lo, hi) - sp.mid.Keys|
  }

  /** sp' has the tables of sp and those for the pages lo .. hi - 1, and no others. */
  ghost predicate TablesFor(sp: Space, sp': Space, lo: nat, hi: nat) {
    sp'.low.Keys == sp.low.Keys + Lows(lo, hi) && sp'.mid.Keys == sp.mid.Keys + Mids(lo, hi)
  }

  /** The free list has paid for those tables and for n more pages. */
  ghost predicate Paid(g: Ghost, g': Ghost, pt: nat, lo: nat, hi: nat, n: nat) {
    && pt in g.spaces && pt in g'.spaces && TablesFor(g.spaces[pt], g'.spaces[pt], lo, hi)
    && |g'.free| + n + Missing(g.spaces[pt], lo, hi) == |g.free|
  }

  /** There are free pages enough for the pages lo .. hi - 1 of pt and the tables they lack. */
  ghost predicate Affords(g: Ghost, pt: nat, lo: nat, hi: nat)
    requires pt in g.spaces && lo <= hi
  {
    hi - lo + Missing(g.spaces[pt], lo, hi) <= |g.free|
  }

  // ----- Ranges -----

  lemma LowsSplit(lo: nat, mid: nat, hi: nat)
    requires lo <= mid <= hi
    ensures Lows(lo, hi) == Lows(lo, mid) + Lows(mid, hi) && Mids(lo, hi) == Mids(lo, mid) + Mids(mid, hi)
  {
  }

  lemma CountUnion(a: set<nat>, b: set<nat>, have: set<nat>)
    ensures |a + b - have| == |a - have| + |b - (have + a)|
  {
    assert a + b - have == (a - have) + (b - (have + a)) && (a - have) !! (b - (have + a));
  }

  /** Making the tables of a range in two steps costs the same. */
  lemma MissingSplit(sp: Space, sp1: Space, lo: nat, mid: nat, hi: nat)
    requires lo <= mid <= hi && TablesFor(sp, sp1, lo, mid)
    ensures Missing(sp, lo, hi) == Missing(sp, lo, mid) + Missing(sp1, mid, hi)
  {
    LowsSplit(lo, mid, hi);
    hide Lows, Mids;
    CountUnion(Lows(lo, mid), Lows(mid, hi), sp.low.Keys);
    CountUnion(Mids(lo, mid), Mids(mid, hi), sp.mid.Keys);
  }

  lemma MissingMore(sp: Space, lo: nat, mid: nat, hi: nat)
    requires lo <= mid <= hi
    ensures Missing(sp, lo, mid) <= Missing(sp, lo, hi)
  {
    LowsSplit(lo, mid, hi);
    hide Lows, Mids;
    CountUnion(Lows(lo, mid), Lows(mid, hi), sp.low.Keys);
    CountUnion(Mids(lo, mid), Mids(mid, hi), sp.mid.Keys);
  }

  lemma OnePageTables(v: nat)
    ensures Lows(v, v + 1) == {v / 512} && Mids(v, v + 1) == {v / 512 / 512}
  {
  }

  lemma MissingOne(sp: Space, v: nat)
    ensures Missing(sp, v, v + 1) ==
              (if v / 512 in sp.low then 0 else 1) + (if v / 512 / 512 in sp.mid then 0 else 1)
  {
    OnePageTables(v);
    hide Lows, Mids;
    assert {v / 512} - sp.low.Keys == if v / 512 in sp.low then {} else {v / 512};
    assert {v / 512 / 512} - sp.mid.Keys == if v / 512 / 512 in sp.mid then {} else {v / 512 / 512};
  }

  // ----- Accounts -----

  lemma PaidNone(g: Ghost, pt: nat, v: nat)
    requires pt in g.spaces
    ensures Paid(g, g, pt, v, v, 0) && Missing(g.spaces[pt], v, v) == 0
  {
    assert Lows(v, v) == {} && Mids(v, v) == {};
  }

  lemma TablesMore(sp: Space, sp1: Space, sp2: Space, lo: nat, mid: nat, hi: nat)
    requires lo <= mid <= hi && TablesFor(sp, sp1, lo, mid) && TablesFor(sp1, sp2, mid, hi)
    ensures TablesFor(sp, sp2, lo, hi)
  {
    LowsSplit(lo, mid, hi);
    hide Lows, Mids;
    assert sp2.low.Keys == sp.low.Keys + (Lows(lo, mid) + Lows(mid, hi));
    assert sp2.mid.Keys == sp.mid.Keys + (Mids(lo, mid) + Mids(mid, hi));
  }

  lemma PaidMore(g: Ghost, g1: Ghost, g2: Ghost, pt: nat, lo: nat, mid: nat, hi: nat, n: nat, m: nat)
    requires lo <= mid <= hi && Paid(g, g1, pt, lo, mid, n) && Paid(g1, g2, pt, mid, hi, m)
    ensures Paid(g, g2, pt, lo, hi, n + m)
  {
    hide Missing, TablesFor;
    MissingSplit(g.spaces[pt], g1.spaces[pt], lo, mid, hi);
    TablesMore(g.spaces[pt], g1.spaces[pt], g2.spaces[pt], lo, mid, hi);
  }

  /** What comes after lo .. mid - 1 cannot be paid for, so the whole range could not be. */
  lemma CannotPay(g: Ghost, g1: Ghost, pt: nat, lo: nat, mid: nat, hi: nat, top: nat, n: nat, m: nat)
    requires lo <= mid <= hi <= top && Paid(g, g1, pt, lo, mid, n) && |g1.free| < m + Missing(g1.spaces[pt], mid, hi)
    ensures |g.free| < n + m + Missing(g.spaces[pt], lo, top)
  {
    hide Missing;
    MissingSplit(g.spaces[pt], g1.spaces[pt], lo, mid, hi);
    MissingMore(g.spaces[pt], lo, hi, top);
  }

  lemma PaidWithin(g: Ghost, g': Ghost, pt: nat, lo: nat, hi: nat, n: nat)
    requires Paid(g, g', pt, lo, hi, n)
    ensures n + Missing(g.spaces[pt], lo, hi) <= |g.free|
  {
  }

  /** Whether a range can be afforded may be asked before or after part of it was paid for. */
  lemma AffordsRest(g: Ghost, g1: Ghost, pt: nat, lo: nat, mid: nat, hi: nat)
    requires lo <= mid <= hi && Paid(g, g1, pt, lo, mid, mid - lo)
    ensures Affords(g, pt, lo, hi) <==> Affords(g1, pt, mid, hi)
  {
    hide Missing;
    MissingSplit(g.spaces[pt], g1.spaces[pt], lo, mid, hi);
  }

  lemma AffordsLess(g: Ghost, pt: nat, lo: nat, mid: nat, hi: nat)
    requires pt in g.spaces && lo <= mid <= hi && Affords(g, pt, lo, hi)
    ensures Affords(g, pt, lo, mid)
  {
    hide Missing;
    MissingMore(g.spaces[pt], lo, mid, hi);
  }

  /** Storing an entry makes no table. */
  lemma PaidStill(g: Ghost, g1: Ghost, g2: Ghost, pt: nat, lo: nat, hi: nat, n: nat)
    requires Paid(g, g1, pt, lo, hi, n) && pt in g2.spaces && g2.free == g1.free
    requires g2.spaces[pt].mid == g1.spaces[pt].mid && g2.spaces[pt].low == g1.spaces[pt].low
    ensures Paid(g, g2, pt, lo, hi, n)
  {
  }

  // ----- A whole address space -----

  const TOP_LOW: nat := TRAMPOLINE / 512
  const TOP_MID: nat := TRAMPOLINE / 512 / 512

  /** The tables for the two pages at the top, and no others. */
  ghost predicate Bare(sp: Space) { sp.low.Keys == {TOP_LOW} && sp.mid.Keys == {TOP_MID} }

  /** The n pages of user memory from address 0 and the tables for them. */
  function UserPages(n: nat): nat { n + (n + 511) / 512 + (n + 0x3_ffff) / 0x4_0000 }

  lemma TablesFromZero(n: nat)
    ensures Lows(0, n) == Interval(0, (n + 511) / 512) && Mids(0, n) == Interval(0, (n + 0x3_ffff) / 0x4_0000)
  {
    forall k: nat ensures k in Lows(0, n) <==> k in Interval(0, (n + 511) / 512) {
      if 512 * k < n {
        assert 512 * k / 512 == k;
      }
    }
    forall k: nat ensures k in Mids(0, n) <==> k in Interval(0, (n + 0x3_ffff) / 0x4_0000) {
      if 0x4_0000 * k < n {
        assert 0x4_0000 * k / 512 / 512 == k;
      }
    }
  }

  /** User memory that fits in physical memory shares no table with the pages at the top. */
  lemma BareCost(sp: Space, n: nat)
    requires Bare(sp) && n <= 0x8000
    ensures n + Missing(sp, 0, n) == UserPages(n)
  {
    TablesFromZero(n);
    assert Lows(0, n) - {TOP_LOW} == Lows(0, n) && Mids(0, n) - {TOP_MID} == Mids(0, n);
  }

  ghost function FreeSet(free: seq<nat>, n: nat): set<nat>
    requires n <= |free|
  {
    if n == 0 then {} else FreeSet(free, n - 1) + {free[n - 1]}
  }

  lemma {:induction false} FreeDistinct(mem: Memory, own: map<nat, Owner>, free: seq<nat>, n: nat)
    requires FreeInv(mem, own, free) && n <= |free|
    ensures |FreeSet(free, n)| == n
    ensures forall p :: p in FreeSet(free, n) ==> p in own && own[p].Free? && own[p].depth < n
  {
    if n > 0 {
      FreeDistinct(mem, own, free, n - 1);
      assert FreeAt(mem, own, free, n - 1);
      hide FreeInv;
      assert free[n - 1] !in FreeSet(free, n - 1);
    }
  }

  /** There are no more free pages than pages. */
  lemma FreeBound(mem: Memory, g: Ghost, first: nat, last: nat)
    requires Inv(mem, g) && first <= last && forall p :: p in g.own ==> first <= p < last
    ensures |g.free| <= last - first
  {
    hide FreeInv, OwnInv, SpaceInv;
    FreeDistinct(mem, g.own, g.free, |g.free|);
    hide FreeSet;
    Smaller(FreeSet(g.free, |g.free|), Interval(first, last - first));
  }

  /** What a bare address space affords, by a count over the pages alone. */
  lemma BareAffords(g: Ghost, pt: nat, n: nat)
    requires pt in g.spaces && Bare(g.spaces[pt]) && |g.free| <= 0x8000
    ensures Affords(g, pt, 0, n) <==> UserPages(n) <= |g.free|
  {
    hide Missing, Bare;
    if n <= 0x8000 {
      BareCost(g.spaces[pt], n);
    }
  }
}
