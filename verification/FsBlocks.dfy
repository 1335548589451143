/** Blocks and inodes of the file system (kernel/fs.c): the free bitmap, the direct and
    indirect block maps of inodes, and the invariant that ties them together. Blocks are seen
    through bread and log_write, that is, as the log and the buffer cache present them. */
module FsBlocks {
  const BSIZE: nat := 1024
  const BPB: nat := 8 * BSIZE              // bitmap bits per block
  const NDIRECT: nat := 12
  const NINDIRECT: nat := 256
  const MAXFILE: nat := NDIRECT + NINDIRECT
  const IPB: nat := 16                     // inodes per block

  /** The contents of a block. Zero is a block of zero bytes, whatever it is used for. */
  datatype Block = Zero | Bytes(b: seq<nat>) | Addrs(a: seq<nat>) | Bits(bits: seq<bool>)

  /** ip->addrs (the last entry is the indirect block) and ip->size. */
  datatype Inode = Inode(addrs: seq<nat>, size: nat)

  /** The fields of struct superblock that matter here. */
  datatype Superblock = Superblock(size: nat, inodestart: nat, bmapstart: nat)

  /** What a block is used for: metadata outside files, block n of a file, or a file's
      indirect block. Taken blocks are allocated and not yet in use. */
  datatype Use = Free | Meta | Taken | File(ino: nat, n: nat) | Indirect(ino: nat)

  type Disk = map<nat, Block>

  datatype Ghost = Ghost(own: map<nat, Use>, view: map<nat, Inode>)

  function BBLOCK(sb: Superblock, b: nat): nat { b / BPB + sb.bmapstart }

  function IBLOCK(sb: Superblock, ino: nat): nat { ino / IPB + sb.inodestart }

  predicate IsBytes(blk: Block) { blk.Zero? || (blk.Bytes? && |blk.b| == BSIZE) }

  predicate IsAddrs(blk: Block) { blk.Zero? || (blk.Addrs? && |blk.a| == NINDIRECT) }

  function BytesOf(blk: Block): seq<nat> { if blk.Bytes? then blk.b else seq(BSIZE, _ => 0) }

  /** (uint *)bp->data */
  function AddrsOf(blk: Block): seq<nat> { if blk.Addrs? then blk.a else seq(NINDIRECT, _ => 0) }

  // ----- The invariant -----

  ghost predicate BitmapBlock(sb: Superblock, disk: Disk, own: map<nat, Use>, k: nat) {
    var p := sb.bmapstart + k;
    p in disk && disk[p].Bits? && |disk[p].bits| == BPB && p in own && own[p] == Meta
  }

  /** Bit b of the bitmap. */
  ghost predicate InUse(sb: Superblock, disk: Disk, b: nat) {
    && BBLOCK(sb, b) in disk && disk[BBLOCK(sb, b)].Bits? && |disk[BBLOCK(sb, b)].bits| == BPB
    && disk[BBLOCK(sb, b)].bits[b % BPB]
  }

  /** A block's bit is set exactly when it is used for something. */
  ghost predicate BitOk(sb: Superblock, disk: Disk, own: map<nat, Use>, b: nat)
    requires b in own
  {
    b in disk && BitmapBlock(sb, disk, own, b / BPB) && (InUse(sb, disk, b) <==> own[b] != Free)
  }

  ghost predicate BitmapInv(sb: Superblock, disk: Disk, own: map<nat, Use>) {
    && (forall b :: b in own <==> 0 <= b < sb.size)
    && (forall b {:trigger BitOk(sb, disk, own, b)} :: b in own ==> BitOk(sb, disk, own, b))
  }

  /** Block n of file ino is at addr. */
  ghost predicate FileBlock(disk: Disk, own: map<nat, Use>, ino: nat, n: nat, addr: nat) {
    addr in own && own[addr] == File(ino, n) && addr in disk && IsBytes(disk[addr])
  }

  ghost predicate DirectOk(disk: Disk, own: map<nat, Use>, ino: nat, ip: Inode, i: nat)
    requires i < |ip.addrs|
  {
    ip.addrs[i] != 0 ==> FileBlock(disk, own, ino, i, ip.addrs[i])
  }

  ghost predicate LeafOk(disk: Disk, own: map<nat, Use>, ino: nat, a: seq<nat>, j: nat)
    requires j < |a|
  {
    a[j] != 0 ==> FileBlock(disk, own, ino, NDIRECT + j, a[j])
  }

  ghost predicate IndirectOk(disk: Disk, own: map<nat, Use>, ino: nat, p: nat) {
    && p in own && own[p] == Indirect(ino) && p in disk && IsAddrs(disk[p])
    && forall j :: 0 <= j < NINDIRECT ==> LeafOk(disk, own, ino, AddrsOf(disk[p]), j)
  }

  /** Where block n of a file is, or 0. */
  ghost function AddrOf(disk: Disk, ip: Inode, n: nat): nat
    requires |ip.addrs| == NDIRECT + 1
  {
    if n < NDIRECT then ip.addrs[n]
    else if ip.addrs[NDIRECT] in disk && ip.addrs[NDIRECT] != 0 && IsAddrs(disk[ip.addrs[NDIRECT]]) && n < MAXFILE
    then AddrsOf(disk[ip.addrs[NDIRECT]])[n - NDIRECT] else 0
  }

  ghost predicate InodeInv(disk: Disk, own: map<nat, Use>, ino: nat, ip: Inode) {
    && |ip.addrs| == NDIRECT + 1
    && (forall i :: 0 <= i < NDIRECT ==> DirectOk(disk, own, ino, ip, i))
    && (ip.addrs[NDIRECT] != 0 ==> IndirectOk(disk, own, ino, ip.addrs[NDIRECT]))
  }

  /** Every block below size is allocated. */
  ghost predicate Backed(disk: Disk, ip: Inode)
    requires |ip.addrs| == NDIRECT + 1
  {
    ip.size <= MAXFILE * BSIZE && forall n :: 0 <= n < MAXFILE && n * BSIZE < ip.size ==> AddrOf(disk, ip, n) != 0
  }

  /** A block in use is in the one place its use says. */
  ghost predicate PlaceOk(disk: Disk, g: Ghost, b: nat, u: Use) {
    match u
    case File(ino, n) =>
      ino in g.view && |g.view[ino].addrs| == NDIRECT + 1 && n < MAXFILE && AddrOf(disk, g.view[ino], n) == b
    case Indirect(ino) => ino in g.view && |g.view[ino].addrs| == NDIRECT + 1 && g.view[ino].addrs[NDIRECT] == b
    case _ => true
  }

  ghost predicate PlacesInv(disk: Disk, g: Ghost) {
    (0 in g.own ==> g.own[0] == Meta) && forall b :: b in g.own ==> PlaceOk(disk, g, b, g.own[b])
  }

  /** The block that holds the inode is a metadata block. */
  ghost predicate InodeBlock(sb: Superblock, own: map<nat, Use>, ino: nat) {
    IBLOCK(sb, ino) in own && own[IBLOCK(sb, ino)] == Meta
  }

  ghost predicate Inv(sb: Superblock, disk: Disk, g: Ghost) {
    && BitmapInv(sb, disk, g.own) && PlacesInv(disk, g)
    && forall ino :: ino in g.view ==>
         InodeInv(disk, g.own, ino, g.view[ino]) && Backed(disk, g.view[ino]) && InodeBlock(sb, g.own, ino)
  }

  /** There are uses of the blocks for which the invariant holds: the kernel can work with the disk. */
  ghost predicate Consistent(sb: Superblock, disk: Disk, files: map<nat, Inode>) {
    exists own: map<nat, Use> :: Inv(sb, disk, Ghost(own, files))
  }

  // ----- Frames -----

  /** Outside `changed`, blocks keep their contents and their use. */
  ghost predicate SameOutside(disk: Disk, own: map<nat, Use>, disk': Disk, own': map<nat, Use>, changed: set<nat>) {
    forall q :: q in own && q !in changed ==>
      q in own' && own'[q] == own[q] && (q in disk ==> q in disk' && disk'[q] == disk[q])
  }

  predicate UsedBy(u: Use, ino: nat) { (u.File? && u.ino == ino) || (u.Indirect? && u.ino == ino) }

  lemma InodeFrame(disk: Disk, own: map<nat, Use>, disk': Disk, own': map<nat, Use>, changed: set<nat>, ino: nat,
                   ip: Inode)
    requires InodeInv(disk, own, ino, ip) && SameOutside(disk, own, disk', own', changed)
    requires forall q :: q in changed && q in own ==> !UsedBy(own[q], ino)
    ensures InodeInv(disk', own', ino, ip)
    ensures forall n: nat :: n < MAXFILE ==> AddrOf(disk', ip, n) == AddrOf(disk, ip, n)
  {
    forall i | 0 <= i < NDIRECT
      ensures DirectOk(disk', own', ino, ip, i)
    {
      assert DirectOk(disk, own, ino, ip, i);
    }
    if ip.addrs[NDIRECT] != 0 {
      var p := ip.addrs[NDIRECT];
      forall j | 0 <= j < NINDIRECT
        ensures LeafOk(disk', own', ino, AddrsOf(disk[p]), j)
      {
        assert LeafOk(disk, own, ino, AddrsOf(disk[p]), j);
      }
    }
  }

  ghost predicate SameAddrs(disk: Disk, disk': Disk, ip: Inode)
    requires |ip.addrs| == NDIRECT + 1
  {
    forall n: nat :: n < MAXFILE ==> AddrOf(disk', ip, n) == AddrOf(disk, ip, n)
  }

  // ----- Bitmap -----

  lemma SameBit(b: nat, c: nat)
    requires b / BPB == c / BPB && b % BPB == c % BPB
    ensures b == c
  {
  }

  /** Sets or clears the bit of block b and changes b's own contents. */
  ghost predicate BitSet(sb: Superblock, disk: Disk, b: nat, used: bool, disk': Disk) {
    var p := BBLOCK(sb, b);
    && p in disk && disk[p].Bits? && |disk[p].bits| == BPB && p != b
    && disk'.Keys == disk.Keys && disk'[p] == Bits(disk[p].bits[b % BPB := used])
    && forall q :: q in disk && q != p && q != b ==> disk'[q] == disk[q]
  }

  lemma BitmapAfter(sb: Superblock, disk: Disk, own: map<nat, Use>, b: nat, u: Use, disk': Disk, own': map<nat, Use>)
    requires BitmapInv(sb, disk, own) && b in own && own[b] != Meta && BitSet(sb, disk, b, u != Free, disk')
    requires own' == own[b := u]
    ensures BitmapInv(sb, disk', own')
  {
    forall c {:trigger BitOk(sb, disk', own', c)} | c in own'
      ensures BitOk(sb, disk', own', c)
    {
      assert BitOk(sb, disk, own, c) && BitOk(sb, disk, own, b);
      if c != b && c / BPB == b / BPB {
        if c % BPB == b % BPB {
          SameBit(b, c);
        }
      }
    }
  }

  /** The use of a block changed, and no block in a file. */
  lemma PlacesAfter(disk: Disk, g: Ghost, disk': Disk, g': Ghost, b: nat)
    requires PlacesInv(disk, g) && b in g.own && b in g'.own && g'.own == g.own[b := g'.own[b]] && g'.view == g.view
    requires forall ino :: ino in g.view ==> |g.view[ino].addrs| == NDIRECT + 1 && SameAddrs(disk, disk', g.view[ino])
    requires !g'.own[b].File? && !g'.own[b].Indirect? && b != 0
    ensures PlacesInv(disk', g')
  {
    forall c | c in g'.own
      ensures PlaceOk(disk', g', c, g'.own[c])
    {
      assert PlaceOk(disk, g, c, g.own[c]);
    }
  }

  /** balloc: a free block is taken and zeroed. */
  lemma TakeBlock(sb: Superblock, disk: Disk, g: Ghost, b: nat, disk': Disk, g': Ghost)
    requires Inv(sb, disk, g) && b in g.own && g.own[b] == Free && BitSet(sb, disk, b, true, disk')
    requires g' == g.(own := g.own[b := Taken])
    ensures Inv(sb, disk', g')
  {
    BitmapBlockOf(sb, disk, g.own, b);
    hide BitmapInv, PlacesInv, InodeInv, Backed, SameAddrs;
    NotZero(disk, g, b);
    BitmapAfter(sb, disk, g.own, b, Taken, disk', g'.own);
    NoInode(sb, disk, g, disk', g'.own, {b, BBLOCK(sb, b)});
    PlacesAfter(disk, g, disk', g', b);
  }

  /** bfree: a block in nobody's use is free again. */
  lemma ReleaseBlock(sb: Superblock, disk: Disk, g: Ghost, b: nat, disk': Disk, g': Ghost)
    requires Inv(sb, disk, g) && b in g.own && g.own[b] == Taken && BitSet(sb, disk, b, false, disk')
    requires g' == g.(own := g.own[b := Free])
    ensures Inv(sb, disk', g')
  {
    BitmapBlockOf(sb, disk, g.own, b);
    hide BitmapInv, PlacesInv, InodeInv, Backed, SameAddrs;
    NotZero(disk, g, b);
    BitmapAfter(sb, disk, g.own, b, Free, disk', g'.own);
    NoInode(sb, disk, g, disk', g'.own, {b, BBLOCK(sb, b)});
    PlacesAfter(disk, g, disk', g', b);
  }

  lemma BitmapBlockOf(sb: Superblock, disk: Disk, own: map<nat, Use>, b: nat)
    requires BitmapInv(sb, disk, own) && b in own
    ensures BBLOCK(sb, b) in own && own[BBLOCK(sb, b)] == Meta && BitmapBlock(sb, disk, own, b / BPB)
  {
    assert BitOk(sb, disk, own, b);
  }

  lemma NotZero(disk: Disk, g: Ghost, b: nat)
    requires PlacesInv(disk, g) && b in g.own && g.own[b] != Meta
    ensures b != 0
  {
  }

  /** No file is concerned by the blocks that changed. */
  lemma NoInode(sb: Superblock, disk: Disk, g: Ghost, disk': Disk, own': map<nat, Use>, changed: set<nat>)
    requires Inv(sb, disk, g) && SameOutside(disk, g.own, disk', own', changed)
    requires forall q :: q in changed && q in g.own ==> !g.own[q].File? && !g.own[q].Indirect?
    ensures forall ino :: ino in g.view ==>
              && InodeInv(disk', own', ino, g.view[ino]) && Backed(disk', g.view[ino])
              && SameAddrs(disk, disk', g.view[ino])
  {
    hide BitmapInv, PlacesInv;
    forall ino | ino in g.view
      ensures InodeInv(disk', own', ino, g.view[ino]) && Backed(disk', g.view[ino])
      ensures SameAddrs(disk, disk', g.view[ino])
    {
      InodeFrame(disk, g.own, disk', own', changed, ino, g.view[ino]);
    }
  }

  // ----- Block maps -----

  /** The blocks of no other file change. */
  lemma OthersFrame(sb: Superblock, disk: Disk, g: Ghost, disk': Disk, own': map<nat, Use>, changed: set<nat>, ino: nat)
    requires Inv(sb, disk, g) && SameOutside(disk, g.own, disk', own', changed)
    requires forall q :: q in changed && q in g.own ==> g.own[q] == Taken || UsedBy(g.own[q], ino)
    ensures forall x :: x in g.view && x != ino ==>
              InodeInv(disk', own', x, g.view[x]) && Backed(disk', g.view[x]) && SameAddrs(disk, disk', g.view[x])
  {
    hide BitmapInv, PlacesInv;
    forall x | x in g.view && x != ino
      ensures InodeInv(disk', own', x, g.view[x]) && Backed(disk', g.view[x]) && SameAddrs(disk, disk', g.view[x])
    {
      InodeFrame(disk, g.own, disk', own', changed, x, g.view[x]);
    }
  }

  /** The bitmap is not concerned when a block that is in use gets another use. */
  lemma BitmapFrame(sb: Superblock, disk: Disk, own: map<nat, Use>, disk': Disk, own': map<nat, Use>)
    requires BitmapInv(sb, disk, own) && own'.Keys == own.Keys && disk'.Keys >= disk.Keys
    requires forall q :: q in own ==>
               && (own[q] == Free <==> own'[q] == Free)
               && (own[q] == Meta ==> own'[q] == Meta && (q in disk ==> disk'[q] == disk[q]))
    ensures BitmapInv(sb, disk', own')
  {
    forall c {:trigger BitOk(sb, disk', own', c)} | c in own'
      ensures BitOk(sb, disk', own', c)
    {
      assert BitOk(sb, disk, own, c);
    }
  }

  /** Places after block n of file ino was attached at b, or its indirect block was. */
  lemma AttachPlaces(disk: Disk, g: Ghost, disk': Disk, g': Ghost, ino: nat, b: nat)
    requires PlacesInv(disk, g) && b in g.own && b in g'.own && g.own[b] == Taken && g'.own == g.own[b := g'.own[b]]
    requires ino in g.view && ino in g'.view && g'.view == g.view[ino := g'.view[ino]]
    requires |g.view[ino].addrs| == |g'.view[ino].addrs| == NDIRECT + 1
    requires forall x :: x in g.view && x != ino ==>
               |g.view[x].addrs| == NDIRECT + 1 && SameAddrs(disk, disk', g.view[x])
    requires forall n: nat :: n < MAXFILE && AddrOf(disk, g.view[ino], n) != 0 ==>
               AddrOf(disk', g'.view[ino], n) == AddrOf(disk, g.view[ino], n)
    requires g.view[ino].addrs[NDIRECT] != 0 ==> g'.view[ino].addrs[NDIRECT] == g.view[ino].addrs[NDIRECT]
    requires PlaceOk(disk', g', b, g'.own[b])
    ensures PlacesInv(disk', g')
  {
    forall c | c in g'.own
      ensures PlaceOk(disk', g', c, g'.own[c])
    {
      assert PlaceOk(disk, g, c, g.own[c]);
    }
  }

  /** The block map is as it was, except that block bn may have been added. */
  ghost predicate MoreAddrs(disk: Disk, ip: Inode, disk': Disk, ip': Inode, bn: nat)
    requires |ip.addrs| == |ip'.addrs| == NDIRECT + 1
  {
    forall n: nat :: n < MAXFILE && (n != bn || AddrOf(disk, ip, n) != 0) ==>
        AddrOf(disk', ip', n) == AddrOf(disk, ip, n)
  }

  lemma StillBacked(disk: Disk, ip: Inode, disk': Disk, ip': Inode, bn: nat)
    requires |ip.addrs| == |ip'.addrs| == NDIRECT + 1 && Backed(disk, ip) && MoreAddrs(disk, ip, disk', ip', bn)
    requires ip'.size == ip.size
    ensures Backed(disk', ip')
  {
  }

  /** bmap: a taken block becomes direct block n of file ino. */
  lemma AttachDirect(sb: Superblock, disk: Disk, g: Ghost, ino: nat, n: nat, b: nat, g': Ghost)
    requires Inv(sb, disk, g) && ino in g.view && n < NDIRECT && |g.view[ino].addrs| == NDIRECT + 1
    requires g.view[ino].addrs[n] == 0
    requires b in g.own && g.own[b] == Taken && b in disk && IsBytes(disk[b])
    requires g' == Ghost(g.own[b := File(ino, n)], g.view[ino := g.view[ino].(addrs := g.view[ino].addrs[n := b])])
    ensures Inv(sb, disk, g') && MoreAddrs(disk, g.view[ino], disk, g'.view[ino], n)
    ensures AddrOf(disk, g'.view[ino], n) == b && b != 0
  {
    var ip, ip' := g.view[ino], g'.view[ino];
    assert InodeInv(disk, g.own, ino, ip) && Backed(disk, ip);
    hide BitmapInv, Backed;
    NotZero(disk, g, b);
    DirectInode(disk, g.own, ino, ip, n, b, g'.own, ip');
    StillBacked(disk, ip, disk, ip', n);
    hide PlacesInv, InodeInv, AddrOf;
    BitmapFrame(sb, disk, g.own, disk, g'.own);
    OthersFrame(sb, disk, g, disk, g'.own, {b}, ino);
    AttachPlaces(disk, g, disk, g', ino, b);
  }

  lemma DirectInode(disk: Disk, own: map<nat, Use>, ino: nat, ip: Inode, n: nat, b: nat, own': map<nat, Use>,
                    ip': Inode)
    requires InodeInv(disk, own, ino, ip) && n < NDIRECT && ip.addrs[n] == 0 && b != 0
    requires b in own && own[b] == Taken && b in disk && IsBytes(disk[b])
    requires own' == own[b := File(ino, n)] && ip' == ip.(addrs := ip.addrs[n := b])
    ensures InodeInv(disk, own', ino, ip') && MoreAddrs(disk, ip, disk, ip', n)
  {
    forall i | 0 <= i < NDIRECT
      ensures DirectOk(disk, own', ino, ip', i)
    {
      assert DirectOk(disk, own, ino, ip, i);
    }
    if ip.addrs[NDIRECT] != 0 {
      LeavesFrame(disk, own, disk, own', ino, ip.addrs[NDIRECT]);
    }
  }

  lemma LeavesFrame(disk: Disk, own: map<nat, Use>, disk': Disk, own': map<nat, Use>, ino: nat, p: nat)
    requires IndirectOk(disk, own, ino, p) && p in disk' && disk'[p] == disk[p]
    requires forall q :: q in own && UsedBy(own[q], ino) ==>
               q in own' && own'[q] == own[q] && (q in disk ==> q in disk' && disk'[q] == disk[q])
    ensures IndirectOk(disk', own', ino, p)
  {
    forall j | 0 <= j < NINDIRECT
      ensures LeafOk(disk', own', ino, AddrsOf(disk[p]), j)
    {
      assert LeafOk(disk, own, ino, AddrsOf(disk[p]), j);
    }
  }

  /** bmap: a taken, zeroed block becomes the indirect block of file ino. */
  lemma AttachIndirect(sb: Superblock, disk: Disk, g: Ghost, ino: nat, b: nat, g': Ghost, bn: nat)
    requires Inv(sb, disk, g) && ino in g.view && |g.view[ino].addrs| == NDIRECT + 1 && g.view[ino].addrs[NDIRECT] == 0
    requires b in g.own && g.own[b] == Taken && b in disk && disk[b] == Zero
    requires g' == Ghost(g.own[b := Indirect(ino)],
                         g.view[ino := g.view[ino].(addrs := g.view[ino].addrs[NDIRECT := b])])
    ensures Inv(sb, disk, g') && MoreAddrs(disk, g.view[ino], disk, g'.view[ino], bn) && b != 0
  {
    var ip, ip' := g.view[ino], g'.view[ino];
    assert InodeInv(disk, g.own, ino, ip) && Backed(disk, ip);
    hide BitmapInv, Backed;
    NotZero(disk, g, b);
    IndirectInode(disk, g.own, ino, ip, b, g'.own, ip', bn);
    StillBacked(disk, ip, disk, ip', bn);
    hide PlacesInv, InodeInv, AddrOf;
    BitmapFrame(sb, disk, g.own, disk, g'.own);
    OthersFrame(sb, disk, g, disk, g'.own, {b}, ino);
    AttachPlaces(disk, g, disk, g', ino, b);
  }

  lemma IndirectInode(disk: Disk, own: map<nat, Use>, ino: nat, ip: Inode, b: nat, own': map<nat, Use>, ip': Inode,
                      bn: nat)
    requires InodeInv(disk, own, ino, ip) && ip.addrs[NDIRECT] == 0 && b != 0
    requires b in own && own[b] == Taken && b in disk && disk[b] == Zero
    requires own' == own[b := Indirect(ino)] && ip' == ip.(addrs := ip.addrs[NDIRECT := b])
    ensures InodeInv(disk, own', ino, ip') && MoreAddrs(disk, ip, disk, ip', bn)
  {
    forall i | 0 <= i < NDIRECT
      ensures DirectOk(disk, own', ino, ip', i)
    {
      assert DirectOk(disk, own, ino, ip, i);
    }
    assert forall j :: 0 <= j < NINDIRECT ==> LeafOk(disk, own', ino, AddrsOf(disk[b]), j);
  }

  /** bmap: a taken block becomes entry j of the indirect block p of file ino. */
  lemma AttachLeaf(sb: Superblock, disk: Disk, g: Ghost, ino: nat, j: nat, b: nat, p: nat, disk': Disk, g': Ghost)
    requires Inv(sb, disk, g) && ino in g.view && |g.view[ino].addrs| == NDIRECT + 1 && p == g.view[ino].addrs[NDIRECT]
    requires p != 0
    requires j < NINDIRECT && p in disk && IsAddrs(disk[p]) && AddrsOf(disk[p])[j] == 0
    requires b in g.own && g.own[b] == Taken && b in disk && IsBytes(disk[b])
    requires disk' == disk[p := Addrs(AddrsOf(disk[p])[j := b])] && g' == g.(own := g.own[b := File(ino, NDIRECT + j)])
    ensures Inv(sb, disk', g') && MoreAddrs(disk, g.view[ino], disk', g.view[ino], NDIRECT + j)
    ensures AddrOf(disk', g.view[ino], NDIRECT + j) == b && b != 0
  {
    var ip := g.view[ino];
    assert InodeInv(disk, g.own, ino, ip) && Backed(disk, ip);
    hide BitmapInv, Backed;
    NotZero(disk, g, b);
    LeafInode(disk, g.own, ino, ip, j, b, p, disk', g'.own);
    StillBacked(disk, ip, disk', ip, NDIRECT + j);
    hide PlacesInv, InodeInv, AddrOf;
    BitmapFrame(sb, disk, g.own, disk', g'.own);
    OthersFrame(sb, disk, g, disk', g'.own, {b, p}, ino);
    AttachPlaces(disk, g, disk', g', ino, b);
  }

  lemma LeafInode(disk: Disk, own: map<nat, Use>, ino: nat, ip: Inode, j: nat, b: nat, p: nat, disk': Disk,
                  own': map<nat, Use>)
    requires InodeInv(disk, own, ino, ip) && p == ip.addrs[NDIRECT] && p != 0 && b != 0 && j < NINDIRECT
    requires IndirectOk(disk, own, ino, p) && AddrsOf(disk[p])[j] == 0
    requires b in own && own[b] == Taken && b in disk && IsBytes(disk[b])
    requires disk' == disk[p := Addrs(AddrsOf(disk[p])[j := b])] && own' == own[b := File(ino, NDIRECT + j)]
    ensures InodeInv(disk', own', ino, ip) && MoreAddrs(disk, ip, disk', ip, NDIRECT + j)
    ensures AddrOf(disk', ip, NDIRECT + j) == b
    ensures own[p] == Indirect(ino)
  {
    forall i | 0 <= i < NDIRECT
      ensures DirectOk(disk', own', ino, ip, i)
    {
      assert DirectOk(disk, own, ino, ip, i);
    }
    forall x | 0 <= x < NINDIRECT
      ensures LeafOk(disk', own', ino, AddrsOf(disk'[p]), x)
    {
      assert LeafOk(disk, own, ino, AddrsOf(disk[p]), x);
    }
  }

  // ----- Contents, size, truncation -----

  /** Storing bytes in a block of a file. */
  lemma WriteFileBlock(sb: Superblock, disk: Disk, g: Ghost, b: nat, blk: Block, disk': Disk)
    requires Inv(sb, disk, g) && b in g.own && g.own[b].File? && IsBytes(blk) && disk' == disk[b := blk]
    ensures Inv(sb, disk', g) && forall x :: x in g.view ==>
              |g.view[x].addrs| == NDIRECT + 1 && SameAddrs(disk, disk', g.view[x])
  {
    BitmapFrame(sb, disk, g.own, disk', g.own) by {
      hide InodeInv, Backed, PlacesInv;
    }
    hide BitmapInv;
    forall x | x in g.view
      ensures |g.view[x].addrs| == NDIRECT + 1
      ensures InodeInv(disk', g.own, x, g.view[x]) && Backed(disk', g.view[x]) && SameAddrs(disk, disk', g.view[x])
    {
      ContentsFrame(disk, g.own, x, g.view[x], b, blk, disk');
    }
    hide InodeInv, Backed, AddrOf;
    forall c | c in g.own
      ensures PlaceOk(disk', g, c, g.own[c])
    {
      assert PlaceOk(disk, g, c, g.own[c]);
    }
  }

  lemma ContentsFrame(disk: Disk, own: map<nat, Use>, ino: nat, ip: Inode, b: nat, blk: Block, disk': Disk)
    requires InodeInv(disk, own, ino, ip) && Backed(disk, ip) && b in own && own[b].File? && IsBytes(blk)
    requires disk' == disk[b := blk]
    ensures InodeInv(disk', own, ino, ip) && Backed(disk', ip) && SameAddrs(disk, disk', ip)
  {
    forall i | 0 <= i < NDIRECT
      ensures DirectOk(disk', own, ino, ip, i)
    {
      assert DirectOk(disk, own, ino, ip, i);
    }
    if ip.addrs[NDIRECT] != 0 {
      var p := ip.addrs[NDIRECT];
      forall j | 0 <= j < NINDIRECT
        ensures LeafOk(disk', own, ino, AddrsOf(disk[p]), j)
      {
        assert LeafOk(disk, own, ino, AddrsOf(disk[p]), j);
      }
      assert disk'[p] == disk[p];
    }
    assert SameAddrs(disk, disk', ip);
    assert forall n: nat :: n < MAXFILE ==> AddrOf(disk', ip, n) == AddrOf(disk, ip, n);
  }

  lemma SetSize(sb: Superblock, disk: Disk, g: Ghost, ino: nat, size: nat, g': Ghost)
    requires Inv(sb, disk, g) && ino in g.view && g' == g.(view := g.view[ino := g.view[ino].(size := size)])
    requires |g.view[ino].addrs| == NDIRECT + 1 && Backed(disk, g.view[ino].(size := size))
    ensures Inv(sb, disk, g')
  {
    hide BitmapInv;
    assert InodeInv(disk, g.own, ino, g'.view[ino]) by {
      assert forall i :: 0 <= i < NDIRECT && DirectOk(disk, g.own, ino, g.view[ino], i) ==>
          DirectOk(disk, g.own, ino, g'.view[ino], i);
    }
    hide InodeInv, Backed;
    forall c | c in g.own
      ensures PlaceOk(disk, g', c, g.own[c])
    {
      assert PlaceOk(disk, g, c, g.own[c]);
    }
  }

  const EMPTY: Inode := Inode(seq(NDIRECT + 1, _ => 0), 0)

  /** itrunc begins: file ino has no blocks, and those it had are in nobody's use. */
  lemma Truncated(sb: Superblock, disk: Disk, g: Ghost, ino: nat, g': Ghost)
    requires Inv(sb, disk, g) && ino in g.view && g'.view == g.view[ino := EMPTY] && g'.own.Keys == g.own.Keys
    requires forall q :: q in g.own ==> g'.own[q] == if UsedBy(g.own[q], ino) then Taken else g.own[q]
    ensures Inv(sb, disk, g')
  {
    EmptyInode(disk, g'.own, ino);
    hide InodeInv, Backed, BitmapInv, PlacesInv, UsedBy;
    TruncatedPlaces(disk, g, ino, g');
    BitmapFrame(sb, disk, g.own, disk, g'.own) by {
      UsedIsUsed(g, ino);
    }
    UsedIsUsed(g, ino);
    assert forall x :: x in g'.view ==> InodeBlock(sb, g'.own, x);
    var was := set q | q in g.own && UsedBy(g.own[q], ino);
    forall x | x in g.view && x != ino
      ensures InodeInv(disk, g'.own, x, g.view[x])
    {
      UsedByOne(g, ino, x);
      InodeFrame(disk, g.own, disk, g'.own, was, x, g.view[x]);
    }
  }

  lemma EmptyInode(disk: Disk, own: map<nat, Use>, ino: nat)
    ensures InodeInv(disk, own, ino, EMPTY) && Backed(disk, EMPTY)
  {
  }

  lemma UsedIsUsed(g: Ghost, ino: nat)
    ensures forall q :: q in g.own && UsedBy(g.own[q], ino) ==> g.own[q] != Free && g.own[q] != Meta
  {
  }

  lemma UsedByOne(g: Ghost, ino: nat, x: nat)
    requires x != ino
    ensures forall q :: q in g.own && UsedBy(g.own[q], ino) ==> !UsedBy(g.own[q], x)
  {
  }

  lemma TruncatedPlaces(disk: Disk, g: Ghost, ino: nat, g': Ghost)
    requires PlacesInv(disk, g) && ino in g.view && g'.view == g.view[ino := EMPTY] && g'.own.Keys == g.own.Keys
    requires forall q :: q in g.own ==> g'.own[q] == if UsedBy(g.own[q], ino) then Taken else g.own[q]
    ensures PlacesInv(disk, g')
  {
    hide AddrOf;
    forall c | c in g'.own
      ensures PlaceOk(disk, g', c, g'.own[c])
    {
      assert PlaceOk(disk, g, c, g.own[c]);
    }
  }
}
