/** What growing a file costs in blocks: those that a range of it still lacks, and the indirect
    block. */
module FsSpace {
  import opened FsBlocks
  import opened FsCode

  /** The blocks lo .. hi - 1 of a file that are not there yet. */
  ghost function Holes(d: Disk, ip: Inode, lo: nat, hi: nat): set<nat>
    requires |ip.addrs| == NDIRECT + 1
  {
    set k | lo <= k < hi && AddrOf(d, ip, k) == 0
  }

  ghost function LacksIndirect(ip: Inode, lo: nat, hi: nat): nat
    requires |ip.addrs| == NDIRECT + 1
  {
    if lo < hi && hi > NDIRECT && ip.addrs[NDIRECT] == 0 then 1 else 0
  }

  /** How many blocks must be allocated before the blocks lo .. hi - 1 of a file are all there. */
  ghost function NewBlocks(d: Disk, ip: Inode, lo: nat, hi: nat): nat
    requires |ip.addrs| == NDIRECT + 1
  {
    |Holes(d, ip, lo, hi)| + LacksIndirect(ip, lo, hi)
  }

  /** The file has gained the blocks lo .. hi - 1, as far as it lacked them, and no others. */
  ghost predicate Gained(d0: Disk, ip0: Inode, d1: Disk, ip1: Inode, lo: nat, hi: nat) {
    && |ip0.addrs| == |ip1.addrs| == NDIRECT + 1
    && (forall k: nat {:trigger AddrOf(d1, ip1, k)} :: k < MAXFILE ==>
          (AddrOf(d1, ip1, k) != 0 <==> AddrOf(d0, ip0, k) != 0 || lo <= k < hi))
    && (ip1.addrs[NDIRECT] != 0 <==> ip0.addrs[NDIRECT] != 0 || (lo < hi && hi > NDIRECT))
  }

  /** The free blocks have paid for them. */
  ghost predicate Grew(d0: Disk, g0: Ghost, d1: Disk, g1: Ghost, ino: nat, lo: nat, hi: nat) {
    && ino in g0.view && ino in g1.view && Gained(d0, g0.view[ino], d1, g1.view[ino], lo, hi)
    && FreeCount(g1.own) + NewBlocks(d0, g0.view[ino], lo, hi) == FreeCount(g0.own)
  }

  lemma GrewNone(d: Disk, g: Ghost, ino: nat, lo: nat)
    requires ino in g.view && |g.view[ino].addrs| == NDIRECT + 1
    ensures Grew(d, g, d, g, ino, lo, lo) && NewBlocks(d, g.view[ino], lo, lo) == 0
  {
    hide AddrOf;
    assert Holes(d, g.view[ino], lo, lo) == {};
  }

  /** bmap of one block. */
  lemma OneBlock(d: Disk, ip: Inode, bn: nat)
    requires |ip.addrs| == NDIRECT + 1 && (bn >= NDIRECT && ip.addrs[NDIRECT] == 0 ==> AddrOf(d, ip, bn) == 0)
    ensures NewBlocks(d, ip, bn, bn + 1) == BlocksFor(d, ip, bn)
  {
    hide AddrOf;
    assert Holes(d, ip, bn, bn + 1) == if AddrOf(d, ip, bn) == 0 then {bn} else {};
  }

  lemma NoIndirectNoBlock(d: Disk, ip: Inode, bn: nat)
    requires |ip.addrs| == NDIRECT + 1 && bn >= NDIRECT && ip.addrs[NDIRECT] == 0
    ensures AddrOf(d, ip, bn) == 0
  {
  }

  /** What is missing in a range that continues one already there, or overlaps it. */
  lemma HolesSplit(d0: Disk, ip0: Inode, d1: Disk, ip1: Inode, lo: nat, from: nat, mid: nat, hi: nat)
    requires lo <= from <= mid <= hi <= MAXFILE && Gained(d0, ip0, d1, ip1, lo, mid)
    ensures |Holes(d0, ip0, lo, hi)| == |Holes(d0, ip0, lo, mid)| + |Holes(d1, ip1, from, hi)|
  {
    hide AddrOf;
    var a, b := Holes(d0, ip0, lo, mid), Holes(d1, ip1, from, hi);
    forall k: nat ensures k in Holes(d0, ip0, lo, hi) <==> k in a || k in b {
      if k < MAXFILE {
        assert AddrOf(d1, ip1, k) != 0 <==> AddrOf(d0, ip0, k) != 0 || lo <= k < mid;
      }
    }
    assert Holes(d0, ip0, lo, hi) == a + b;
    forall k | k in b ensures k !in a {
      assert AddrOf(d1, ip1, k) != 0 <==> AddrOf(d0, ip0, k) != 0 || lo <= k < mid;
    }
    assert a !! b;
  }

  lemma SpaceSplit(d0: Disk, ip0: Inode, d1: Disk, ip1: Inode, lo: nat, from: nat, mid: nat, hi: nat)
    requires lo <= from <= mid <= hi <= MAXFILE && (lo == mid ==> from == lo) && from < hi
    requires Gained(d0, ip0, d1, ip1, lo, mid)
    ensures NewBlocks(d0, ip0, lo, hi) == NewBlocks(d0, ip0, lo, mid) + NewBlocks(d1, ip1, from, hi)
  {
    hide AddrOf, Holes;
    HolesSplit(d0, ip0, d1, ip1, lo, from, mid, hi);
  }

  lemma GainedMore(d0: Disk, ip0: Inode, d1: Disk, ip1: Inode, d2: Disk, ip2: Inode, lo: nat, from: nat, mid: nat,
                   hi: nat)
    requires lo <= from <= mid <= hi <= MAXFILE && (lo == mid ==> from == lo) && from < hi
    requires Gained(d0, ip0, d1, ip1, lo, mid) && Gained(d1, ip1, d2, ip2, from, hi)
    ensures Gained(d0, ip0, d2, ip2, lo, hi)
  {
    hide AddrOf;
    forall k: nat {:trigger AddrOf(d2, ip2, k)} | k < MAXFILE
      ensures AddrOf(d2, ip2, k) != 0 <==> AddrOf(d0, ip0, k) != 0 || lo <= k < hi
    {
      assert AddrOf(d1, ip1, k) != 0 <==> AddrOf(d0, ip0, k) != 0 || lo <= k < mid;
    }
  }

  lemma GrewMore(d0: Disk, g0: Ghost, d1: Disk, g1: Ghost, d2: Disk, g2: Ghost, ino: nat, lo: nat, from: nat,
                 mid: nat, hi: nat)
    requires lo <= from <= mid <= hi <= MAXFILE && (lo == mid ==> from == lo) && from < hi
    requires Grew(d0, g0, d1, g1, ino, lo, mid) && Grew(d1, g1, d2, g2, ino, from, hi)
    ensures Grew(d0, g0, d2, g2, ino, lo, hi)
  {
    var ip0, ip1, ip2 := g0.view[ino], g1.view[ino], g2.view[ino];
    SpaceSplit(d0, ip0, d1, ip1, lo, from, mid, hi);
    GainedMore(d0, ip0, d1, ip1, d2, ip2, lo, from, mid, hi);
    hide Gained, NewBlocks, FreeCount;
  }

  lemma SpaceMore(d: Disk, ip: Inode, lo: nat, mid: nat, hi: nat)
    requires lo <= mid <= hi && |ip.addrs| == NDIRECT + 1
    ensures NewBlocks(d, ip, lo, mid) <= NewBlocks(d, ip, lo, hi)
  {
    hide AddrOf;
    var a, b := Holes(d, ip, lo, mid), Holes(d, ip, mid, hi);
    assert Holes(d, ip, lo, hi) == a + b && a !! b;
  }

  /** There are too few blocks for what comes next, so there were for all of it. */
  lemma CannotGrow(d0: Disk, g0: Ghost, d1: Disk, g1: Ghost, ino: nat, lo: nat, from: nat, mid: nat, hi: nat, end: nat)
    requires lo <= from <= mid <= hi <= end <= MAXFILE && (lo == mid ==> from == lo) && from < hi
    requires Grew(d0, g0, d1, g1, ino, lo, mid) && FreeCount(g1.own) < NewBlocks(d1, g1.view[ino], from, hi)
    ensures FreeCount(g0.own) < NewBlocks(d0, g0.view[ino], lo, end)
  {
    SpaceSplit(d0, g0.view[ino], d1, g1.view[ino], lo, from, mid, hi);
    SpaceMore(d0, g0.view[ino], lo, hi, end);
    hide Gained, NewBlocks, FreeCount;
  }
}
