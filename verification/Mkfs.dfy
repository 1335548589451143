/** mkfs (mkfs/mkfs.c): the image that the kernel boots from. */
module Mkfs {
  import opened Params
  import opened Sequences
  import opened FsBlocks
  import opened FsCode
  import opened FsContents

  const INODEBLOCKS: nat := 200 / IPB + 1
  const ROOTINO: nat := 1
  const DIRSIZ: nat := 14
  const DIRENT: nat := DIRSIZ + 2          // sizeof(struct dirent)

  function Super(size: nat): Superblock { Superblock(size, 2 + LOGSIZE, 2 + LOGSIZE + INODEBLOCKS) }

  /** Blocks of metadata on a disk of `size` blocks. */
  function Nmeta(size: nat): nat { 2 + LOGSIZE + INODEBLOCKS + size / BPB + 1 }

  predicate InBitmap(sb: Superblock, b: nat) { sb.bmapstart <= b < sb.bmapstart + sb.size / BPB + 1 }

  /** Block k of a bitmap in which the first `used` blocks of the disk are marked. */
  function BitsBelow(used: nat, k: nat): (r: seq<bool>)
    ensures |r| == BPB
  {
    seq(BPB, j requires 0 <= j => k * BPB + j < used)
  }

  /** `shown` is the disk with that bitmap. */
  ghost predicate Shows(sb: Superblock, disk: Disk, used: nat, shown: Disk) {
    && shown.Keys == disk.Keys
    && forall b :: b in disk ==>
         shown[b] == if InBitmap(sb, b) then Bits(BitsBelow(used, b - sb.bmapstart)) else disk[b]
  }

  /** The first nmeta blocks hold metadata, and the blocks from `used` on are free. */
  ghost predicate Packed(own: map<nat, Use>, nmeta: nat, used: nat) {
    forall b :: b in own ==> (own[b] == Free <==> b >= used) && (b < nmeta ==> own[b] == Meta)
  }

  /** The inode's blocks are those that hold its first o bytes. */
  ghost predicate MappedTo(d: Disk, ip: Inode, o: nat) {
    && |ip.addrs| == NDIRECT + 1 && (ip.addrs[NDIRECT] != 0 <==> o > NDIRECT * BSIZE)
    && forall n: nat :: n < MAXFILE ==> (AddrOf(d, ip, n) != 0 <==> n * BSIZE < o)
  }

  /** How many blocks o bytes take, the indirect block included. */
  function BlocksOf(o: nat): nat { (o + BSIZE - 1) / BSIZE + if o > NDIRECT * BSIZE then 1 else 0 }

  /** How many blocks must be added to map block bn. */
  ghost function Needs(d: Disk, ip: Inode, bn: nat): nat
    requires |ip.addrs| == NDIRECT + 1
  {
    if AddrOf(d, ip, bn) != 0 then 0 else if bn >= NDIRECT && ip.addrs[NDIRECT] == 0 then 2 else 1
  }

  /** mkfs writes the bitmap last. */
  ghost predicate BlankBitmap(sb: Superblock, disk: Disk) {
    forall b :: b in disk && InBitmap(sb, b) ==> disk[b] == Bits(BitsBelow(0, 0))
  }

  /** The state of an image under construction, but for how far inode ino reaches. */
  ghost predicate Built(sb: Superblock, disk: Disk, used: nat, shown: Disk, g: Ghost, ino: nat) {
    && Inv(sb, shown, g) && sb == Super(sb.size) && Nmeta(sb.size) <= used <= sb.size
    && Shows(sb, disk, used, shown) && Packed(g.own, Nmeta(sb.size), used)
    && (forall b :: b in disk && b >= used ==> disk[b] == Zero) && BlankBitmap(sb, disk)
    && forall x :: x in g.view && x != ino ==> MappedTo(shown, g.view[x], g.view[x].size)
  }

  lemma BuiltInv(sb: Superblock, disk: Disk, used: nat, d: Disk, g: Ghost, ino: nat)
    requires Built(sb, disk, used, d, g, ino)
    ensures Inv(sb, d, g) && used <= sb.size
  {
  }

  // ----- A new block -----

  /** Block b was free and is taken, zeroed; nothing else about files changed. */
  ghost predicate Taking(disk: Disk, d0: Disk, g0: Ghost, b: nat, d1: Disk, g1: Ghost, ino: nat, bn: nat) {
    && b != 0 && WasFree(g0.own, b) && g1 == g0.(own := g0.own[b := Taken]) && Extended(d0, g0, d1, g1, ino, bn)
    && b in d1 && d1[b] == Zero && b in disk && disk[b] == Zero
    && forall q :: q in g0.own && g0.own[q].Indirect? ==> q in d1 && q in d0 && d1[q] == d0[q]
  }

  /** The next free block. */
  lemma FreeHere(sb: Superblock, disk: Disk, shown: Disk, g: Ghost, b: nat, ino: nat)
    requires Built(sb, disk, b, shown, g, ino) && b < sb.size
    ensures b in g.own && g.own[b] == Free && b in disk && b in shown && b != 0 && disk[b] == shown[b] == Zero
    ensures BBLOCK(sb, b) in shown && shown[BBLOCK(sb, b)].Bits? && |shown[BBLOCK(sb, b)].bits| == BPB
    ensures BBLOCK(sb, b) in g.own && g.own[BBLOCK(sb, b)] == Meta && BBLOCK(sb, b) != b && BBLOCK(sb, b) in disk
  {
    hide InodeInv, Backed, PlacesInv, MappedTo;
    assert BitOk(sb, shown, g.own, b);
  }

  lemma PackedMore(own: map<nat, Use>, nmeta: nat, b: nat)
    requires Packed(own, nmeta, b) && b in own && nmeta <= b
    ensures Packed(own[b := Taken], nmeta, b + 1)
  {
  }

  lemma OneBit(b: nat, k: nat, j: nat)
    requires j < BPB
    ensures k * BPB + j == b <==> k == b / BPB && j == b % BPB
  {
    assert b == b / BPB * BPB + b % BPB;
  }

  lemma BitsNext(b: nat, k: nat)
    ensures BitsBelow(b + 1, k) == if k == b / BPB then BitsBelow(b, k)[b % BPB := true] else BitsBelow(b, k)
  {
    assert b == b / BPB * BPB + b % BPB;
    forall j | 0 <= j < BPB
      ensures BitsBelow(b + 1, k)[j] == (BitsBelow(b, k)[j] || (k == b / BPB && j == b % BPB))
    {
      OneBit(b, k, j);
    }
  }

  /** Setting bit b is marking one block more. */
  lemma Marked(sb: Superblock, disk: Disk, b: nat, shown: Disk, shown': Disk)
    requires Shows(sb, disk, b, shown) && b < sb.size && b in disk && BBLOCK(sb, b) in disk && BBLOCK(sb, b) != b
    requires shown[BBLOCK(sb, b)].Bits? && |shown[BBLOCK(sb, b)].bits| == BPB
    requires shown' == shown[BBLOCK(sb, b) := Bits(shown[BBLOCK(sb, b)].bits[b % BPB := true])]
    ensures Shows(sb, disk, b + 1, shown') && BitSet(sb, shown, b, true, shown')
  {
    hide BitsBelow;
    forall q | q in disk && InBitmap(sb, q)
      ensures shown'[q] == Bits(BitsBelow(b + 1, q - sb.bmapstart))
    {
      BitsNext(b, q - sb.bmapstart);
    }
  }

  lemma OthersReach(d0: Disk, g0: Ghost, d1: Disk, g1: Ghost, ino: nat, bn: nat)
    requires Extended(d0, g0, d1, g1, ino, bn)
    requires forall x :: x in g0.view && x != ino ==> MappedTo(d0, g0.view[x], g0.view[x].size)
    ensures forall x :: x in g1.view && x != ino ==> MappedTo(d1, g1.view[x], g1.view[x].size)
  {
    hide AddrOf;
    forall x | x in g1.view && x != ino ensures MappedTo(d1, g1.view[x], g1.view[x].size) {
      assert g1.view[x] == g0.view[x] && MappedTo(d0, g0.view[x], g0.view[x].size);
      assert SameAddrs(d0, d1, g0.view[x]);
    }
  }

  lemma Allocated(sb: Superblock, disk: Disk, d0: Disk, g0: Ghost, b: nat, d1: Disk, g1: Ghost, ino: nat, bn: nat)
    requires Built(sb, disk, b, d0, g0, ino) && b < sb.size && ino in g0.view && BBLOCK(sb, b) in d0
    requires d0[BBLOCK(sb, b)].Bits? && |d0[BBLOCK(sb, b)].bits| == BPB && b in g0.own
    requires d1 == d0[BBLOCK(sb, b) := Bits(d0[BBLOCK(sb, b)].bits[b % BPB := true])]
    requires g1 == g0.(own := g0.own[b := Taken])
    ensures Built(sb, disk, b + 1, d1, g1, ino) && Taking(disk, d0, g0, b, d1, g1, ino, bn)
  {
    hide Inv, Extended, MappedTo, Shows, Packed, BitSet, Super, Nmeta;
    FreeHere(sb, disk, d0, g0, b, ino);
    Marked(sb, disk, b, d0, d1);
    PackedMore(g0.own, Nmeta(sb.size), b);
    TakeBlock(sb, d0, g0, b, d1, g1);
    TakeExtends(sb, d0, g0, b, d1, g1, ino, bn);
    IndirectKept(sb, d0, g0, b, d1);
    OthersReach(d0, g0, d1, g1, ino, bn);
  }

  // ----- Where a block of a file is -----

  /** Block fbn of the file is at x; nothing else about files changed. */
  ghost predicate Mapping(d0: Disk, g0: Ghost, disk: Disk, d1: Disk, g1: Ghost, ino: nat, fbn: nat, x: nat) {
    && Extended(d0, g0, d1, g1, ino, fbn) && AddrOf(d1, g1.view[ino], fbn) == x && x != 0
    && FileBlock(d1, g1.own, ino, fbn, x) && (AddrOf(d0, g0.view[ino], fbn) == 0 ==> d1[x] == Zero)
    && x in disk && disk[x] == d1[x]
    && (g1.view[ino].addrs[NDIRECT] != 0 <==> g0.view[ino].addrs[NDIRECT] != 0 || fbn >= NDIRECT)
  }

  /** A block in use gets other contents, and perhaps another use. */
  lemma Replaced(sb: Superblock, disk: Disk, used: nat, d0: Disk, g0: Ghost, p: nat, blk: Block, d1: Disk, g1: Ghost,
                 ino: nat)
    requires Built(sb, disk, used, d0, g0, ino) && p in g0.own && g0.own[p] != Free && g0.own[p] != Meta
    requires Inv(sb, d1, g1) && d1 == d0[p := blk] && g1.own.Keys == g0.own.Keys
    requires forall q :: q in g0.own ==>
               (g1.own[q] == Free <==> g0.own[q] == Free) && (g0.own[q] == Meta ==> g1.own[q] == Meta)
    requires forall x :: x in g1.view && x != ino ==> MappedTo(d1, g1.view[x], g1.view[x].size)
    ensures p in disk && Built(sb, disk[p := blk], used, d1, g1, ino)
  {
    hide InodeInv, Backed, PlacesInv, MappedTo, BitsBelow;
    assert BitOk(sb, d0, g0.own, p);
  }

  lemma AttachedDirect(sb: Superblock, disk: Disk, used: nat, d0: Disk, g0: Ghost, d1: Disk, g1: Ghost, ino: nat,
                       fbn: nat, x: nat, g2: Ghost)
    requires Built(sb, disk, used, d1, g1, ino) && Taking(disk, d0, g0, x, d1, g1, ino, fbn) && fbn < NDIRECT
    requires ino in g1.view && |g1.view[ino].addrs| == NDIRECT + 1 && g1.view[ino].addrs[fbn] == 0
    requires g2 == Ghost(g1.own[x := File(ino, fbn)],
                         g1.view[ino := g1.view[ino].(addrs := g1.view[ino].addrs[fbn := x])])
    ensures Built(sb, disk, used, d1, g2, ino) && Extended(d0, g0, d1, g2, ino, fbn)
    ensures AddrOf(d1, g2.view[ino], fbn) == x
  {
    hide Inv, Extended, MappedTo, Shows, Packed, AddrOf, Super, Nmeta;
    AttachDirect(sb, d1, g1, ino, fbn, x, g2);
    AttachExtends(sb, d1, g1, d1, g2, ino, x, fbn);
    ExtendedTrans(d0, g0, d1, g1, d1, g2, ino, fbn);
    OthersReach(d1, g1, d1, g2, ino, fbn);
    Replaced(sb, disk, used, d1, g1, x, d1[x], d1, g2, ino);
    assert disk[x := d1[x]] == disk && d1[x := d1[x]] == d1;
  }

  lemma MappedHere(sb: Superblock, disk: Disk, used: nat, d: Disk, g: Ghost, ino: nat, fbn: nat)
    requires Built(sb, disk, used, d, g, ino) && ino in g.view && |g.view[ino].addrs| == NDIRECT + 1 && fbn < MAXFILE
    requires AddrOf(d, g.view[ino], fbn) != 0
    ensures var x := AddrOf(d, g.view[ino], fbn); FileBlock(d, g.own, ino, fbn, x) && x in disk && disk[x] == d[x]
  {
    MappedBlock(sb, d, g, ino, fbn);
    hide Inv, MappedTo, AddrOf, BitsBelow;
  }

  /** The file has an indirect block, at p, and the same blocks of data as before. */
  ghost predicate HasIndirectAt(d0: Disk, g0: Ghost, disk: Disk, d1: Disk, g1: Ghost, ino: nat, fbn: nat, p: nat) {
    && Extended(d0, g0, d1, g1, ino, fbn) && g1.view[ino].addrs[NDIRECT] == p != 0
    && AddrOf(d1, g1.view[ino], fbn) == AddrOf(d0, g0.view[ino], fbn)
    && p in d1 && IsAddrs(d1[p]) && p in disk && disk[p] == d1[p] && p in g1.own && g1.own[p] == Indirect(ino)
  }

  lemma IndirectHere(sb: Superblock, disk: Disk, used: nat, d: Disk, g: Ghost, ino: nat)
    requires Built(sb, disk, used, d, g, ino) && ino in g.view && |g.view[ino].addrs| == NDIRECT + 1
    requires g.view[ino].addrs[NDIRECT] != 0
    ensures var p := g.view[ino].addrs[NDIRECT];
            p in d && IsAddrs(d[p]) && p in disk && disk[p] == d[p] && p in g.own && g.own[p] == Indirect(ino)
  {
    IndirectBlock(sb, d, g, ino);
    hide Inv, MappedTo, BitsBelow;
  }

  lemma AttachedIndirect(sb: Superblock, disk: Disk, used: nat, d0: Disk, g0: Ghost, d1: Disk, g1: Ghost, ino: nat,
                         fbn: nat, p: nat, g2: Ghost)
    requires Built(sb, disk, used, d1, g1, ino) && Taking(disk, d0, g0, p, d1, g1, ino, fbn) && NDIRECT <= fbn < MAXFILE
    requires ino in g1.view && |g1.view[ino].addrs| == NDIRECT + 1 && g1.view[ino].addrs[NDIRECT] == 0
    requires g2 == Ghost(g1.own[p := Indirect(ino)],
                         g1.view[ino := g1.view[ino].(addrs := g1.view[ino].addrs[NDIRECT := p])])
    ensures Built(sb, disk, used, d1, g2, ino) && Extended(d0, g0, d1, g2, ino, fbn)
    ensures ino in g0.view && |g0.view[ino].addrs| == NDIRECT + 1
    ensures AddrOf(d1, g2.view[ino], fbn) == AddrOf(d0, g0.view[ino], fbn) == 0
  {
    hide Inv, Extended, MappedTo, Shows, Packed, Super, Nmeta;
    AttachIndirect(sb, d1, g1, ino, p, g2, fbn);
    AttachExtends(sb, d1, g1, d1, g2, ino, p, fbn);
    ExtendedTrans(d0, g0, d1, g1, d1, g2, ino, fbn);
    OthersReach(d1, g1, d1, g2, ino, fbn);
    Replaced(sb, disk, used, d1, g1, p, d1[p], d1, g2, ino);
    assert disk[p := d1[p]] == disk && d1[p := d1[p]] == d1;
  }

  lemma AttachedLeaf(sb: Superblock, disk: Disk, used: nat, d0: Disk, g0: Ghost, d1: Disk, g1: Ghost, d2: Disk,
                     g2: Ghost, ino: nat, fbn: nat, x: nat, p: nat, blk: Block, g3: Ghost)
    requires HasIndirectAt(d0, g0, disk, d1, g1, ino, fbn, p) && NDIRECT <= fbn < MAXFILE
    requires Built(sb, disk, used, d2, g2, ino) && Taking(disk, d1, g1, x, d2, g2, ino, fbn)
    requires p in disk && IsAddrs(disk[p]) && AddrsOf(disk[p])[fbn - NDIRECT] == 0
    requires blk == Addrs(AddrsOf(disk[p])[fbn - NDIRECT := x]) && g3 == g2.(own := g2.own[x := File(ino, fbn)])
    ensures Built(sb, disk[p := blk], used, d2[p := blk], g3, ino) && Extended(d0, g0, d2[p := blk], g3, ino, fbn)
    ensures AddrOf(d2[p := blk], g3.view[ino], fbn) == x && x != p
  {
    hide Inv, Extended, MappedTo, Shows, Packed, AddrOf, Super, Nmeta;
    var d3 := d2[p := blk];
    ExtendedFacts(d0, g0, d1, g1, ino, fbn);
    ExtendedTrans(d0, g0, d1, g1, d2, g2, ino, fbn);
    AttachLeaf(sb, d2, g2, ino, fbn - NDIRECT, x, p, d3, g3);
    AttachExtends(sb, d2, g2, d3, g3, ino, x, fbn);
    ExtendedTrans(d0, g0, d2, g2, d3, g3, ino, fbn);
    OthersReach(d2, g2, d3, g3, ino, fbn);
    Replaced(sb, disk, used, d2, g2, p, blk, d3, g3, ino);
  }

  // ----- iappend -----

  lemma Opened(sb: Superblock, disk: Disk, used: nat, d: Disk, g: Ghost, ino: nat)
    requires Built(sb, disk, used, d, g, 0) && 0 !in g.view && ino in g.view
    ensures Built(sb, disk, used, d, g, ino) && Inv(sb, d, g) && MappedTo(d, g.view[ino], g.view[ino].size)
    ensures g.view[ino].size <= MAXFILE * BSIZE && used <= sb.size && |g.view[ino].addrs| == NDIRECT + 1
  {
    hide MappedTo, Inv, Shows, Packed;
    HasBacked(sb, d, g, ino);
  }

  lemma BlocksMore(a: nat, b: nat)
    requires a <= b
    ensures BlocksOf(a) <= BlocksOf(b)
  {
  }

  lemma NoBlocks()
    ensures BlocksOf(0) == 0
  {
  }

  lemma NeedsIs(d: Disk, ip: Inode, o: nat, n1: nat)
    requires MappedTo(d, ip, o) && o / BSIZE < MAXFILE && 0 < n1 <= BSIZE - o % BSIZE
    ensures BlocksOf(o + n1) == BlocksOf(o) + Needs(d, ip, o / BSIZE)
  {
    var k := o / BSIZE;
    assert o == k * BSIZE + o % BSIZE;
    assert (o + n1 + BSIZE - 1) / BSIZE == k + 1;
    assert (o + BSIZE - 1) / BSIZE == if o % BSIZE == 0 then k else k + 1;
    assert AddrOf(d, ip, k) != 0 <==> o % BSIZE != 0;
    hide AddrOf;
  }

  /** With block o / BSIZE, the file reaches to o + n1. */
  lemma ReachMore(d0: Disk, g0: Ghost, disk: Disk, d1: Disk, g1: Ghost, ino: nat, o: nat, n1: nat, x: nat)
    requires Mapping(d0, g0, disk, d1, g1, ino, o / BSIZE, x) && o / BSIZE < MAXFILE && 0 < n1 <= BSIZE - o % BSIZE
    requires MappedTo(d0, g0.view[ino], o)
    ensures MappedTo(d1, g1.view[ino], o + n1)
  {
    hide AddrOf, FileBlock, FilesKept, OthersSame;
    var k := o / BSIZE;
    assert o == k * BSIZE + o % BSIZE;
    forall n: nat | n < MAXFILE ensures AddrOf(d1, g1.view[ino], n) != 0 <==> n * BSIZE < o + n1 {
      if n != k {
        assert AddrOf(d1, g1.view[ino], n) == AddrOf(d0, g0.view[ino], n);
      }
    }
  }

  lemma SameReach(d0: Disk, d1: Disk, g: Ghost, ino: nat, o: nat)
    requires forall x :: x in g.view ==> |g.view[x].addrs| == NDIRECT + 1 && SameAddrs(d0, d1, g.view[x])
    requires forall x :: x in g.view && x != ino ==> MappedTo(d0, g.view[x], g.view[x].size)
    requires ino in g.view && MappedTo(d0, g.view[ino], o)
    ensures forall x :: x in g.view && x != ino ==> MappedTo(d1, g.view[x], g.view[x].size)
    ensures MappedTo(d1, g.view[ino], o)
  {
    hide AddrOf;
  }

  /** One round of iappend's loop: block o / BSIZE was mapped, at x, and receives the chunk. */
  lemma Grown(sb: Superblock, disk: Disk, used: nat, d1: Disk, g1: Ghost, d2: Disk, g2: Ghost, ino: nat, o: nat,
              chunk: seq<nat>, x: nat)
    requires Inv(sb, d1, g1) && Built(sb, disk, used, d2, g2, ino) && o / BSIZE < MAXFILE
    requires Mapping(d1, g1, disk, d2, g2, ino, o / BSIZE, x) && 0 < |chunk| <= BSIZE - o % BSIZE
    requires MappedTo(d1, g1.view[ino], o)
    ensures x in disk && x in d2 && disk[x] == d2[x] && |BytesOf(disk[x])| == BSIZE
    ensures ino in g2.view && g2.view == g1.view[ino := g2.view[ino]] && |g2.view[ino].addrs| == NDIRECT + 1
    ensures var blk := Bytes(Splice(BytesOf(disk[x]), o % BSIZE, chunk));
            && Built(sb, disk[x := blk], used, d2[x := blk], g2, ino)
            && Spliced(d1, g1, d2[x := blk], g2, ino, o, chunk)
            && MappedTo(d2[x := blk], g2.view[ino], o + |chunk|)
  {
    hide Inv, Extended, MappedTo, Spliced, Shows, Packed, AddrOf, SameAddrs, FileBlock;
    var fbn := o / BSIZE;
    ReachMore(d1, g1, disk, d2, g2, ino, o, |chunk|, x);
    ExtendedFacts(d1, g1, d2, g2, ino, fbn);
    Mapped(d2, g2.own, ino, fbn, x);
    BmapBytes(sb, d1, g1, d2, g2, ino, fbn, o);
    var blk := Bytes(Splice(BytesOf(disk[x]), o % BSIZE, chunk));
    var d3 := d2[x := blk];
    StoreKept(sb, d2, g2, ino, o, chunk, x, d3);
    SplicedTrans(d1, g1, d2, g2, d3, g2, ino, o, [], chunk);
    assert [] + chunk == chunk;
    WriteFileBlock(sb, d2, g2, x, blk, d3);
    SameReach(d2, d3, g2, ino, o + |chunk|);
    Replaced(sb, disk, used, d2, g2, x, blk, d3, g2, ino);
  }

  /** The end of iappend: the inode gets its new size. */
  lemma Closed(sb: Superblock, disk: Disk, used: nat, d0: Disk, g0: Ghost, d: Disk, g: Ghost, ino: nat, off: nat,
               p: seq<nat>)
    requires Inv(sb, d0, g0) && ino in g0.view && off == g0.view[ino].size && off + |p| <= MAXFILE * BSIZE
    requires Built(sb, disk, used, d, g, ino) && Spliced(d0, g0, d, g, ino, off, p) && ino in g.view
    requires MappedTo(d, g.view[ino], off + |p|) && 0 !in g.view
    ensures var g' := g.(view := g.view[ino := g.view[ino].(size := off + |p|)]);
            && Built(sb, disk, used, d, g', 0)
            && Written(d0, g0.view, d, g'.view, ino, off, p, |p|)
  {
    hide Inv, Spliced, Shows, Packed, AddrOf, BytesStored, OthersBytes;
    var ip, g' := g.view[ino], g.(view := g.view[ino := g.view[ino].(size := off + |p|)]);
    HasBacked(sb, d0, g0, ino);
    BackedAfter(d0, g0, d, g, ino, off, p, |p|);
    SplicedIsWritten(d0, g0, d, g, ino, off, p, |p|);
    assert Max(ip.size, off + |p|) == off + |p|;
    SetSize(sb, d, g, ino, off + |p|, g');
    AddrIgnoresSize(d, ip, off + |p|);
    assert forall x :: x in g'.view && x != 0 ==> MappedTo(d, g'.view[x], g'.view[x].size);
  }

  // ----- A new disk, a new file -----

  function FreshDisk(size: nat): Disk {
    map b: nat | 0 <= b < size ::
      if InBitmap(Super(size), b) then Bits(BitsBelow(Nmeta(size), b - Super(size).bmapstart)) else Zero
  }

  function FreshUse(size: nat, b: nat): Use { if b < Nmeta(size) then Meta else Free }

  function FreshOwn(size: nat): map<nat, Use> {
    map b: nat | 0 <= b < size :: FreshUse(size, b)
  }

  lemma FreshBit(size: nat, b: nat)
    requires Nmeta(size) <= size && b < size
    ensures b in FreshOwn(size) && BitOk(Super(size), FreshDisk(size), FreshOwn(size), b)
  {
    assert b == b / BPB * BPB + b % BPB;
    assert b / BPB <= size / BPB;
  }

  /** Before any file has been made, the image is as it should be, whatever the size. */
  lemma FreshImage(size: nat, disk: Disk)
    requires Nmeta(size) <= size && (forall b :: b in disk <==> 0 <= b < size)
    requires forall b :: b in disk ==> disk[b] == if InBitmap(Super(size), b) then Bits(BitsBelow(0, 0)) else Zero
    ensures Built(Super(size), disk, Nmeta(size), FreshDisk(size), Ghost(FreshOwn(size), map[]), 0)
  {
    var sb, shown, own := Super(size), FreshDisk(size), FreshOwn(size);
    forall b {:trigger BitOk(sb, shown, own, b)} | b in own ensures BitOk(sb, shown, own, b) {
      FreshBit(size, b);
    }
  }

  lemma EmptyReach(d: Disk)
    ensures MappedTo(d, EMPTY, 0) && EMPTY.size == 0
  {
  }

  lemma MorePlaces(d: Disk, g: Ghost, ino: nat, g': Ghost)
    requires PlacesInv(d, g) && ino !in g.view && g' == g.(view := g.view[ino := EMPTY])
    ensures PlacesInv(d, g')
  {
    hide AddrOf;
    forall b | b in g'.own ensures PlaceOk(d, g', b, g'.own[b]) {
      assert PlaceOk(d, g, b, g.own[b]);
    }
  }

  lemma InodeIsMeta(sb: Superblock, d: Disk, g: Ghost, ino: nat, used: nat)
    requires BitmapInv(sb, d, g.own) && Packed(g.own, Nmeta(sb.size), used) && sb == Super(sb.size)
    requires Nmeta(sb.size) <= sb.size && ino < INODEBLOCKS * IPB
    ensures InodeBlock(sb, g.own, ino)
  {
    assert ino / IPB < INODEBLOCKS;
  }

  /** An empty file uses no blocks. */
  lemma NewFile(sb: Superblock, disk: Disk, used: nat, d: Disk, g: Ghost, ino: nat)
    requires Built(sb, disk, used, d, g, 0) && ino !in g.view && 0 < ino < INODEBLOCKS * IPB
    ensures Built(sb, disk, used, d, g.(view := g.view[ino := EMPTY]), 0)
  {
    hide MappedTo, BitmapInv, PlacesInv, InodeInv, Backed, Shows, AddrOf, BlankBitmap, InodeBlock, Packed;
    EmptyInode(d, g.own, ino);
    EmptyReach(d);
    InodeIsMeta(sb, d, g, ino, used);
    MorePlaces(d, g, ino, g.(view := g.view[ino := EMPTY]));
  }

  // ----- What the files hold -----

  ghost predicate Holds(d: Disk, v: map<nat, Inode>, ino: nat, c: seq<nat>) {
    ino in v && |v[ino].addrs| == NDIRECT + 1 && v[ino].size <= MAXFILE * BSIZE && Content(d, v[ino]) == c
  }

  /** Files other than ino hold what they held. */
  ghost predicate Kept(d0: Disk, v0: map<nat, Inode>, d: Disk, v: map<nat, Inode>, ino: nat) {
    v.Keys == v0.Keys && forall x, c :: x != ino && Holds(d0, v0, x, c) ==> Holds(d, v, x, c)
  }

  lemma HoldsNone(d: Disk, v: map<nat, Inode>, ino: nat)
    requires ino in v && v[ino] == EMPTY
    ensures Holds(d, v, ino, []) && Kept(d, v, d, v, ino)
  {
  }

  lemma AppendHolds(d0: Disk, v0: map<nat, Inode>, d: Disk, v: map<nat, Inode>, ino: nat, p: seq<nat>, c: seq<nat>)
    requires Holds(d0, v0, ino, c) && Written(d0, v0, d, v, ino, v0[ino].size, p, |p|)
    requires v0[ino].size + |p| <= MAXFILE * BSIZE
    ensures Holds(d, v, ino, c + p) && Kept(d0, v0, d, v, ino) && ino in v && v[ino].size == v0[ino].size + |p|
  {
    hide FileByte, BytesStored, OthersBytes;
    WriteIsSplice(d0, v0, d, v, ino, v0[ino].size, p);
    assert c[..v0[ino].size] == c && c + p + [] == c + p;
  }

  lemma KeptMore(d0: Disk, v0: map<nat, Inode>, d1: Disk, v1: map<nat, Inode>, d: Disk, v: map<nat, Inode>, ino: nat)
    requires Kept(d0, v0, d1, v1, ino) && Kept(d1, v1, d, v, ino)
    ensures Kept(d0, v0, d, v, ino)
  {
    hide Holds;
  }

  lemma FreshHolds(d: Disk, v0: map<nat, Inode>, v: map<nat, Inode>, inum: nat)
    requires inum !in v0 && v == v0[inum := EMPTY]
    ensures forall x, c :: Holds(d, v0, x, c) ==> Holds(d, v, x, c)
  {
    hide Content;
  }

  lemma HoldsSize(d: Disk, v: map<nat, Inode>, ino: nat, c: seq<nat>)
    requires Holds(d, v, ino, c)
    ensures ino in v && v[ino].size == |c|
  {
  }

  lemma OtherInode(d0: Disk, v0: map<nat, Inode>, d: Disk, v: map<nat, Inode>, ino: nat, off: nat, p: seq<nat>, t: nat,
                   x: nat)
    requires Written(d0, v0, d, v, ino, off, p, t) && x in v0 && x != ino
    ensures x in v && v[x] == v0[x]
  {
  }

  // ----- The whole program -----

  /** A file of the host. */
  datatype Input = Input(name: seq<nat>, data: seq<nat>)

  /** A directory entry in its 16 bytes. */
  function Dirent(inum: nat, name: seq<nat>): (r: seq<nat>)
    ensures |r| == DIRENT
  {
    [inum % 256, inum / 256 % 256]
      + if |name| >= DIRSIZ then name[..DIRSIZ] else name + seq(DIRSIZ - |name|, _ => 0)
  }

  const DOT: seq<nat> := [46]

  /** The root directory with the first i files. */
  function Entries(files: seq<Input>, i: nat): (r: seq<nat>)
    requires i <= |files|
    ensures |r| == (2 + i) * DIRENT
  {
    if i == 0 then Dirent(ROOTINO, DOT) + Dirent(ROOTINO, DOT + DOT)
    else Entries(files, i - 1) + Dirent(ROOTINO + i, files[i - 1].name)
  }

  function DataBlocks(files: seq<Input>, i: nat): nat
    requires i <= |files|
  {
    if i == 0 then 0 else DataBlocks(files, i - 1) + BlocksOf(|files[i - 1].data|)
  }

  /** The blocks used when the first i files are in place. */
  function Used(size: nat, files: seq<Input>, i: nat): nat
    requires i <= |files|
  {
    Nmeta(size) + BlocksOf((2 + i) * DIRENT) + DataBlocks(files, i)
  }

  /** Every file can be as long as it is, and together they fit on the disk and under one block
      of the bitmap. */
  predicate Fits(size: nat, files: seq<Input>) {
    && (forall i :: 0 <= i < |files| ==> |files[i].data| <= MAXFILE * BSIZE)
    && Used(size, files, |files|) <= size && Used(size, files, |files|) < BPB
  }

  /** The first i files and their directory entries. */
  ghost predicate Stored(d: Disk, v: map<nat, Inode>, files: seq<Input>, i: nat)
    requires i <= |files|
  {
    && (forall x :: x in v <==> ROOTINO <= x <= ROOTINO + i) && Holds(d, v, ROOTINO, Entries(files, i))
    && forall k :: 0 <= k < i ==> Holds(d, v, ROOTINO + 1 + k, files[k].data)
  }

  lemma StoredMore(d0: Disk, v0: map<nat, Inode>, v1: map<nat, Inode>, d2: Disk, v2: map<nat, Inode>, d: Disk,
                   v: map<nat, Inode>, files: seq<Input>, i: nat, inum: nat)
    requires i < |files| && inum == ROOTINO + 1 + i && Stored(d0, v0, files, i) && v1 == v0[inum := EMPTY]
    requires forall x, c :: Holds(d0, v0, x, c) ==> Holds(d0, v1, x, c)
    requires Kept(d0, v1, d2, v2, ROOTINO)
    requires Holds(d2, v2, ROOTINO, Entries(files, i) + Dirent(inum, files[i].name))
    requires Kept(d2, v2, d, v, inum) && Holds(d, v, inum, files[i].data)
    ensures Stored(d, v, files, i + 1)
  {
    hide Holds, Dirent;
    forall k | 0 <= k < i + 1 ensures Holds(d, v, ROOTINO + 1 + k, files[k].data) {
      if k < i {
        assert Holds(d0, v1, ROOTINO + 1 + k, files[k].data);
        assert Holds(d2, v2, ROOTINO + 1 + k, files[k].data);
      }
    }
    assert Entries(files, i + 1) == Entries(files, i) + Dirent(inum, files[i].name);
  }

  lemma {:induction false} EmptyFiles(files: seq<Input>, i: nat)
    requires i <= |files| && forall k :: 0 <= k < |files| ==> files[k].data == []
    ensures DataBlocks(files, i) == 0
  {
    if i > 0 { EmptyFiles(files, i - 1); }
  }

  /** 62 empty files fill the first block of the root directory. They fit on a disk of 1000 blocks. */
  lemma FullRoot(files: seq<Input>)
    requires |files| == 62 && forall k :: 0 <= k < |files| ==> files[k].data == []
    ensures Fits(1000, files) && (2 + |files|) * DIRENT % BSIZE == 0
  {
    EmptyFiles(files, |files|);
    assert Used(1000, files, 62) == 47;
  }

  lemma {:induction false} UsedMore(size: nat, files: seq<Input>, i: nat, j: nat)
    requires i <= j <= |files|
    ensures Used(size, files, i) <= Used(size, files, j)
  {
    hide BlocksOf;
    if i < j {
      UsedMore(size, files, i, j - 1);
      BlocksMore((1 + j) * DIRENT, (2 + j) * DIRENT);
    }
  }

  // ----- The end -----

  /** The file's first bytes are c. */
  ghost predicate Begins(d: Disk, ip: Inode, c: seq<nat>) {
    |ip.addrs| == NDIRECT + 1 && |c| <= ip.size && forall k :: 0 <= k < |c| ==> FileByte(d, ip, k) == c[k]
  }

  lemma InvKeys(sb: Superblock, d: Disk, g: Ghost)
    requires Inv(sb, d, g)
    ensures forall b: nat :: b < sb.size ==> b in d
  {
    hide InodeInv, Backed, PlacesInv;
    forall b: nat | b < sb.size ensures b in d {
      assert BitOk(sb, d, g.own, b);
    }
  }

  /** Once the first block of the bitmap is written, the disk shows it all. */
  lemma Whole(sb: Superblock, disk: Disk, used: nat, shown: Disk, g: Ghost)
    requires Built(sb, disk, used, shown, g, 0) && used < BPB
    ensures sb.bmapstart in disk && disk[sb.bmapstart := Bits(BitsBelow(used, 0))] == shown
  {
    hide Inv, MappedTo, Packed;
    InvKeys(sb, shown, g);
    assert 0 <= sb.bmapstart < sb.size;
    var disk' := disk[sb.bmapstart := Bits(BitsBelow(used, 0))];
    forall b | b in disk ensures disk'[b] == shown[b] {
      if InBitmap(sb, b) && b > sb.bmapstart {
        assert BitsBelow(used, b - sb.bmapstart) == BitsBelow(0, 0);
      }
    }
  }

  /** A size of one more block than the bytes fill: there is a block for all of it exactly when
      the last one was not full. */
  lemma Rounded(d: Disk, ip: Inode, off: nat)
    requires MappedTo(d, ip, ip.size) && off == (ip.size / BSIZE + 1) * BSIZE <= MAXFILE * BSIZE
    ensures |ip.addrs| == NDIRECT + 1 && (Backed(d, ip.(size := off)) <==> ip.size % BSIZE != 0)
  {
    AddrIgnoresSize(d, ip, off);
    hide AddrOf;
    var n := ip.size / BSIZE;
    assert ip.size == n * BSIZE + ip.size % BSIZE;
    if ip.size % BSIZE == 0 {
      assert AddrOf(d, ip.(size := off), n) == 0 && n * BSIZE < off;
    } else {
      forall m: nat | m < MAXFILE && m * BSIZE < off ensures AddrOf(d, ip.(size := off), m) != 0 {
        assert m <= n;
      }
    }
  }

  lemma Finished(sb: Superblock, disk: Disk, used: nat, shown: Disk, g: Ghost, root: nat, off: nat)
    requires Built(sb, disk, used, shown, g, 0) && used < BPB && root in g.view && root != 0
    requires off == (g.view[root].size / BSIZE + 1) * BSIZE <= MAXFILE * BSIZE
    ensures sb.bmapstart in disk && disk[sb.bmapstart := Bits(BitsBelow(used, 0))] == shown
    ensures Consistent(sb, shown, g.view[root := g.view[root].(size := off)]) <==> g.view[root].size % BSIZE != 0
  {
    Whole(sb, disk, used, shown, g);
    hide Inv, MappedTo, Shows, Packed, BlankBitmap, Backed;
    var ip, view := g.view[root], g.view[root := g.view[root].(size := off)];
    Rounded(shown, ip, off);
    if ip.size % BSIZE != 0 {
      SetSize(sb, shown, g, root, off, g.(view := view));
      assert Inv(sb, shown, Ghost(g.own, view));
    } else {
      forall own: map<nat, Use> ensures !Inv(sb, shown, Ghost(own, view)) {
        if Inv(sb, shown, Ghost(own, view)) {
          HasBacked(sb, shown, Ghost(own, view), root);
          assert false;
        }
      }
    }
  }

  lemma HoldsElse(d: Disk, v: map<nat, Inode>, root: nat, off: nat)
    requires root in v
    ensures forall x, c :: x != root && Holds(d, v, x, c) ==> Holds(d, v[root := v[root].(size := off)], x, c)
  {
    hide Content;
  }

  lemma RootBegins(d: Disk, v: map<nat, Inode>, root: nat, c: seq<nat>, off: nat)
    requires Holds(d, v, root, c) && off >= v[root].size
    ensures Begins(d, v[root].(size := off), c)
  {
    ByteIgnoresSize(d, v[root], off);
    hide FileByte;
    forall k | 0 <= k < |c| ensures FileByte(d, v[root].(size := off), k) == c[k] {
      assert Content(d, v[root])[k] == FileByte(d, v[root], k);
    }
  }

  class Image {
    const sb: Superblock
    var disk: Disk
    var inodes: map<nat, Inode>
    var freeblock: nat
    var freeinode: nat
    ghost var shown: Disk                  // the disk as if the bitmap had been written
    ghost var g: Ghost

    ghost predicate Open(ino: nat)
      reads this
    {
      Built(sb, disk, freeblock, shown, g, ino) && inodes == g.view
    }

    ghost predicate Ready()
      reads this
    {
      Open(0) && 0 !in inodes
    }

    /** A disk of zeros. */
    constructor (size: nat)
      requires Nmeta(size) <= size
      ensures Ready() && sb == Super(size) && inodes == map[] && freeinode == ROOTINO && freeblock == Nmeta(size)
    {
      sb := Super(size);
      disk := map b: nat | 0 <= b < size :: if InBitmap(Super(size), b) then Bits(BitsBelow(0, 0)) else Zero;
      inodes, freeblock, freeinode := map[], Nmeta(size), ROOTINO;
      shown := FreshDisk(size);
      g := Ghost(FreshOwn(size), map[]);
      new;
      FreshImage(size, disk);
    }

    /** freeblock++. When the disk is full there is nothing to read at the new block's place, and
        mkfs stops. */
    method NewBlock(ino: nat, ghost bn: nat) returns (b: nat, ok: bool)
      requires Open(ino) && ino in inodes
      modifies `freeblock, `shown, `g
      ensures ok <==> old(freeblock) < sb.size
      ensures ok ==> Open(ino) && freeblock == old(freeblock) + 1 && b == old(freeblock)
      ensures ok ==> Taking(disk, old(shown), old(g), b, shown, g, ino, bn)
    {
      hide Built, Taking;
      b, ok := freeblock, freeblock < sb.size;
      freeblock := freeblock + 1;
      if ok {
        FreeHere(sb, disk, shown, g, b, ino);
        shown := shown[BBLOCK(sb, b) := Bits(shown[BBLOCK(sb, b)].bits[b % BPB := true])];
        g := g.(own := g.own[b := Taken]);
        Allocated(sb, disk, old(shown), old(g), b, shown, g, ino, bn);
      }
    }

    /** The file's indirect block. */
    method MapIndirect(ino: nat, ghost fbn: nat) returns (p: nat, ok: bool)
      requires Open(ino) && ino in inodes && |g.view[ino].addrs| == NDIRECT + 1 && NDIRECT <= fbn < MAXFILE
      modifies `inodes, `freeblock, `shown, `g
      ensures ok <==> old(freeblock) < sb.size || old(g.view[ino]).addrs[NDIRECT] != 0
      ensures ok ==> Open(ino)
      ensures ok ==> freeblock == old(freeblock) + if old(g.view[ino]).addrs[NDIRECT] == 0 then 1 else 0
      ensures ok ==> HasIndirectAt(old(shown), old(g), disk, shown, g, ino, fbn, p)
    {
      hide Built, Extended, Inv, AddrOf;
      BuiltInv(sb, disk, freeblock, shown, g, ino);
      ExtendedRefl(sb, shown, g, ino, fbn);
      ok := true;
      p := inodes[ino].addrs[NDIRECT];
      if p == 0 {
        p, ok := NewBlock(ino, fbn);
        if !ok { return; }
        ghost var g' := Ghost(g.own[p := Indirect(ino)],
                              g.view[ino := g.view[ino].(addrs := g.view[ino].addrs[NDIRECT := p])]);
        AttachedIndirect(sb, disk, freeblock, old(shown), old(g), shown, g, ino, fbn, p, g');
        inodes := inodes[ino := inodes[ino].(addrs := inodes[ino].addrs[NDIRECT := p])];
        g := g';
      }
      IndirectHere(sb, disk, freeblock, shown, g, ino);
    }

    /** MapBlock for blocks behind the indirect block. */
    method MapBehind(ino: nat, fbn: nat) returns (x: nat, ok: bool)
      requires Open(ino) && ino in inodes && |g.view[ino].addrs| == NDIRECT + 1 && NDIRECT <= fbn < MAXFILE
      modifies `disk, `inodes, `freeblock, `shown, `g
      ensures ok <==> old(freeblock) + Needs(old(shown), old(g.view[ino]), fbn) <= sb.size
      ensures ok ==> Open(ino) && freeblock == old(freeblock) + Needs(old(shown), old(g.view[ino]), fbn)
      ensures ok ==> Mapping(old(shown), old(g), disk, shown, g, ino, fbn, x)
    {
      hide Built, Extended, FileBlock, Inv;
      var p;
      x := 0;
      p, ok := MapIndirect(ino, fbn);
      if !ok { return; }
      ghost var d1, g1 := shown, g;
      ExtendedFacts(old(shown), old(g), d1, g1, ino, fbn);
      BuiltInv(sb, disk, freeblock, shown, g, ino);
      x := AddrsOf(disk[p])[fbn - NDIRECT];
      if x == 0 {
        x, ok := NewBlock(ino, fbn);
        if !ok { return; }
        ghost var g' := g.(own := g.own[x := File(ino, fbn)]);
        ghost var blk := Addrs(AddrsOf(disk[p])[fbn - NDIRECT := x]);
        AttachedLeaf(sb, disk, freeblock, old(shown), old(g), d1, g1, shown, g, ino, fbn, x, p, blk, g');
        disk := disk[p := Addrs(AddrsOf(disk[p])[fbn - NDIRECT := x])];
        shown, g := shown[p := blk], g';
      }
      MappedHere(sb, disk, freeblock, shown, g, ino, fbn);
    }

    /** The first part of iappend's loop: the block that holds block fbn of the file. */
    method MapBlock(ino: nat, fbn: nat) returns (x: nat, ok: bool)
      requires Open(ino) && ino in inodes && |g.view[ino].addrs| == NDIRECT + 1 && fbn < MAXFILE
      modifies `disk, `inodes, `freeblock, `shown, `g
      ensures ok <==> old(freeblock) + Needs(old(shown), old(g.view[ino]), fbn) <= sb.size
      ensures ok ==> Open(ino) && freeblock == old(freeblock) + Needs(old(shown), old(g.view[ino]), fbn)
      ensures ok ==> Mapping(old(shown), old(g), disk, shown, g, ino, fbn, x)
    {
      hide Built, Extended, FileBlock, Inv;
      BuiltInv(sb, disk, freeblock, shown, g, ino);
      ExtendedRefl(sb, shown, g, ino, fbn);
      ok := true;
      if fbn < NDIRECT {
        x := inodes[ino].addrs[fbn];
        if x == 0 {
          x, ok := NewBlock(ino, fbn);
          if !ok { return; }
          ghost var g' := Ghost(g.own[x := File(ino, fbn)],
                                g.view[ino := g.view[ino].(addrs := g.view[ino].addrs[fbn := x])]);
          AttachedDirect(sb, disk, freeblock, old(shown), old(g), shown, g, ino, fbn, x, g');
          inodes := inodes[ino := inodes[ino].(addrs := inodes[ino].addrs[fbn := x])];
          g := g';
        }
        MappedHere(sb, disk, freeblock, shown, g, ino, fbn);
      } else {
        x, ok := MapBehind(ino, fbn);
      }
    }

    /** Appends p to the file. mkfs stops if the file gets too long or the disk is full. */
    method IAppend(inum: nat, p: seq<nat>) returns (ok: bool)
      requires Ready() && inum in inodes
      modifies `disk, `inodes, `freeblock, `shown, `g
      ensures ok <==> var size := old(inodes)[inum].size;
                size + |p| <= MAXFILE * BSIZE && old(freeblock) + BlocksOf(size + |p|) <= sb.size + BlocksOf(size)
      ensures ok ==> var size := old(inodes)[inum].size;
                Ready() && freeblock + BlocksOf(size) == old(freeblock) + BlocksOf(size + |p|)
      ensures ok ==> Written(old(shown), old(inodes), shown, inodes, inum, old(inodes)[inum].size, p, |p|)
    {
      hide Built, Spliced, Mapping, MappedTo, BlocksOf, Written, Inv, Needs, Splice;
      var off := inodes[inum].size;
      Opened(sb, disk, freeblock, shown, g, inum);
      SplicedNone(sb, shown, g, inum, off);
      var done := 0;
      while done < |p|
        invariant done <= |p| && Open(inum) && inum in inodes && off + done <= MAXFILE * BSIZE
        invariant MappedTo(shown, inodes[inum], off + done) && |inodes[inum].addrs| == NDIRECT + 1 && 0 !in inodes
        invariant Spliced(old(shown), old(g), shown, g, inum, off, p[..done])
        invariant freeblock + BlocksOf(off) == old(freeblock) + BlocksOf(off + done)
      {
        var fbn := (off + done) / BSIZE;
        if off + done < MAXFILE * BSIZE { BlockIndex(off + done); }
        if fbn >= MAXFILE { return false; }
        BuiltInv(sb, disk, freeblock, shown, g, inum);
        var left := (fbn + 1) * BSIZE - (off + done);
        var n1 := if |p| - done < left then |p| - done else left;
        BlocksMore(off + done + n1, off + |p|);
        NeedsIs(shown, inodes[inum], off + done, n1);
        ghost var d1, g1 := shown, g;
        var x;
        x, ok := MapBlock(inum, fbn);
        if !ok { return; }
        ghost var d2, g2 := shown, g;
        var chunk := p[done..done + n1];
        Grown(sb, disk, freeblock, d1, g1, d2, g2, inum, off + done, chunk, x);
        disk := disk[x := Bytes(Splice(BytesOf(disk[x]), off + done - fbn * BSIZE, chunk))];
        shown := shown[x := disk[x]];
        SplicedTrans(old(shown), old(g), d1, g1, shown, g, inum, off, p[..done], chunk);
        assert p[..done] + chunk == p[..done + n1];
        done := done + n1;
      }
      assert p[..done] == p;
      BuiltInv(sb, disk, freeblock, shown, g, inum);
      Closed(sb, disk, freeblock, old(shown), old(g), shown, g, inum, off, p);
      inodes := inodes[inum := inodes[inum].(size := off + |p|)];
      g := g.(view := inodes);
      ok := true;
    }

    /** A new, empty file. */
    method IAlloc() returns (inum: nat)
      requires Ready() && freeinode !in inodes && 0 < freeinode < INODEBLOCKS * IPB
      modifies `inodes, `freeinode, `g
      ensures Ready() && inum == old(freeinode) && freeinode == inum + 1 && inodes == old(inodes)[inum := EMPTY]
    {
      inum := freeinode;
      freeinode := freeinode + 1;
      NewFile(sb, disk, freeblock, shown, g, inum);
      inodes := inodes[inum := EMPTY];
      g := g.(view := inodes);
    }

    /** Reads a file of the host a block at a time and appends it. */
    method CopyFile(inum: nat, data: seq<nat>) returns (ok: bool)
      requires Ready() && inum in inodes && inodes[inum] == EMPTY
      modifies `disk, `inodes, `freeblock, `shown, `g
      ensures ok <==> |data| <= MAXFILE * BSIZE && old(freeblock) + BlocksOf(|data|) <= sb.size
      ensures ok ==> Ready() && freeblock == old(freeblock) + BlocksOf(|data|)
      ensures ok ==> Kept(old(shown), old(inodes), shown, inodes, inum) && Holds(shown, inodes, inum, data)
    {
      hide Built, BlocksOf, Holds, Kept, Written;
      NoBlocks();
      HoldsNone(shown, inodes, inum);
      var done := 0;
      ok := freeblock <= sb.size;
      BuiltInv(sb, disk, freeblock, shown, g, 0);
      while done < |data|
        invariant done <= |data| && Ready() && inum in inodes && inodes[inum].size == done <= MAXFILE * BSIZE
        invariant freeblock == old(freeblock) + BlocksOf(done) && freeblock <= sb.size && ok
        invariant Kept(old(shown), old(inodes), shown, inodes, inum) && Holds(shown, inodes, inum, data[..done])
      {
        var cc := if |data| - done < BSIZE then |data| - done else BSIZE;
        BlocksMore(done + cc, |data|);
        ghost var d, v := shown, inodes;
        ok := IAppend(inum, data[done..done + cc]);
        if !ok { return; }
        BuiltInv(sb, disk, freeblock, shown, g, 0);
        AppendHolds(d, v, shown, inodes, inum, data[done..done + cc], data[..done]);
        KeptMore(old(shown), old(inodes), d, v, shown, inodes, inum);
        assert data[..done] + data[done..done + cc] == data[..done + cc];
        done := done + cc;
      }
      assert data[..done] == data;
    }

    /** The root directory with its two first entries. */
    method MakeRoot(files: seq<Input>) returns (ok: bool)
      requires Ready() && inodes == map[] && freeinode == ROOTINO && freeblock == Nmeta(sb.size)
      modifies this
      ensures ok <==> Used(sb.size, files, 0) <= sb.size
      ensures ok ==> Ready() && freeinode == ROOTINO + 1 && freeblock == Used(sb.size, files, 0)
      ensures ok ==> Stored(shown, inodes, files, 0)
    {
      hide Built, BlocksOf, Holds, Written, Dirent, Content;
      NoBlocks();
      var rootino := IAlloc();
      HoldsNone(shown, inodes, rootino);
      ghost var d1, v1 := shown, inodes;
      BlocksMore(DIRENT, 2 * DIRENT);
      ok := IAppend(rootino, Dirent(rootino, DOT));
      if !ok { return; }
      ghost var d2, v2 := shown, inodes;
      AppendHolds(d1, v1, d2, v2, rootino, Dirent(rootino, DOT), []);
      ok := IAppend(rootino, Dirent(rootino, DOT + DOT));
      if ok {
        AppendHolds(d2, v2, shown, inodes, rootino, Dirent(rootino, DOT + DOT), [] + Dirent(rootino, DOT));
        assert [] + Dirent(rootino, DOT) == Dirent(rootino, DOT);
      }
    }

    /** One directory entry and one file. */
    method AddFile(files: seq<Input>, i: nat) returns (ok: bool)
      requires Ready() && i < |files| < INODEBLOCKS * IPB - 1 && Stored(shown, inodes, files, i)
      requires freeinode == ROOTINO + 1 + i && freeblock == Used(sb.size, files, i)
      modifies this
      ensures ok <==> |files[i].data| <= MAXFILE * BSIZE && Used(sb.size, files, i + 1) <= sb.size
      ensures ok ==> Ready() && freeinode == ROOTINO + 2 + i && freeblock == Used(sb.size, files, i + 1)
      ensures ok ==> Stored(shown, inodes, files, i + 1)
    {
      hide Built, BlocksOf, Holds, Kept, Written, Dirent, Content;
      ghost var d0, v0 := shown, inodes;
      var inum := IAlloc();
      FreshHolds(shown, v0, inodes, inum);
      ghost var d1, v1 := shown, inodes;
      HoldsSize(d1, v1, ROOTINO, Entries(files, i));
      BlocksMore((2 + i) * DIRENT, (3 + i) * DIRENT);
      ok := IAppend(ROOTINO, Dirent(inum, files[i].name));
      if !ok { return; }
      ghost var d2, v2 := shown, inodes;
      AppendHolds(d1, v1, d2, v2, ROOTINO, Dirent(inum, files[i].name), Entries(files, i));
      OtherInode(d1, v1, d2, v2, ROOTINO, v1[ROOTINO].size, Dirent(inum, files[i].name), DIRENT, inum);
      ok := CopyFile(inum, files[i].data);
      if ok {
        StoredMore(d0, v0, v1, d2, v2, shown, inodes, files, i, inum);
      }
    }

    /** mkfs on a new disk. If it does not stop, every file is in the image under its name. The
        root directory is then given a whole number of blocks, one more than it fills. The kernel
        could mount the result exactly when the directory did not end at a block's end. */
    method Fill(files: seq<Input>) returns (ok: bool)
      requires Ready() && inodes == map[] && freeinode == ROOTINO && freeblock == Nmeta(sb.size)
      requires |files| < INODEBLOCKS * IPB - 1
      modifies this
      ensures ok <==> Fits(sb.size, files)
      ensures ok ==> (Consistent(sb, disk, inodes) <==> (2 + |files|) * DIRENT % BSIZE != 0)
      ensures ok ==> forall k :: 0 <= k < |files| ==> Holds(disk, inodes, ROOTINO + 1 + k, files[k].data)
      ensures ok ==> ROOTINO in inodes && Begins(disk, inodes[ROOTINO], Entries(files, |files|))
      ensures ok ==> inodes[ROOTINO].size == ((2 + |files|) * DIRENT / BSIZE + 1) * BSIZE
    {
      hide Built, BlocksOf, Holds, Written, Dirent, Content, Inv;
      UsedMore(sb.size, files, 0, |files|);
      ok := MakeRoot(files);
      if !ok { return; }
      var i := 0;
      while i < |files|
        invariant i <= |files| && Ready() && freeinode == ROOTINO + 1 + i
        invariant freeblock == Used(sb.size, files, i) <= sb.size
        invariant Stored(shown, inodes, files, i) && forall k :: 0 <= k < i ==> |files[k].data| <= MAXFILE * BSIZE
      {
        UsedMore(sb.size, files, i + 1, |files|);
        ok := AddFile(files, i);
        if !ok { return; }
        i := i + 1;
      }
      ok := freeblock < BPB;
      if !ok { return; }
      HoldsSize(shown, inodes, ROOTINO, Entries(files, i));
      var off := (inodes[ROOTINO].size / BSIZE + 1) * BSIZE;
      Finished(sb, disk, freeblock, shown, g, ROOTINO, off);
      RootBegins(shown, inodes, ROOTINO, Entries(files, i), off);
      HoldsElse(shown, inodes, ROOTINO, off);
      inodes := inodes[ROOTINO := inodes[ROOTINO].(size := off)];
      disk := disk[sb.bmapstart := Bits(BitsBelow(freeblock, 0))];
    }
  }
}
