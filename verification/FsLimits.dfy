/** How many blocks itrunc logs (kernel/fs.c), and up to which disk size that fits the
    reservation of one file system call. */
module FsLimits {
  import opened Params
  import opened Counting
  import opened FsBlocks
  import FsCode

  /** As mkfs lays a disk out: inodes, then the bitmap, then data, with data in the part of the
      disk that the first bitmap block covers. */
  predicate Layout(sb: Superblock, nmeta: nat) {
    && sb.size > 0 && sb.inodestart < sb.bmapstart
    && sb.bmapstart + (sb.size - 1) / BPB < nmeta < sb.size && nmeta < BPB
  }

  /** The blocks that truncating inode ino writes. */
  ghost function TruncLog(sb: Superblock, g: Ghost, ino: nat): set<nat> {
    FsCode.UsedBits(sb, g.own, ino) + {IBLOCK(sb, ino)}
  }

  lemma Quotients(a: nat, b: nat)
    requires a <= b
    ensures a / BPB <= b / BPB
  {
  }

  /** At most one bitmap block for every BPB blocks of the disk, and the inode's block. */
  lemma TruncLogBound(sb: Superblock, disk: Disk, g: Ghost, ino: nat)
    requires Inv(sb, disk, g) && sb.size > 0
    ensures |TruncLog(sb, g, ino)| <= (sb.size - 1) / BPB + 2
  {
    hide PlacesInv, InodeInv, Backed, BitOk;
    var n := (sb.size - 1) / BPB + 1;
    var all := Interval(sb.bmapstart, n);
    var bits := FsCode.UsedBits(sb, g.own, ino);
    forall x | x in bits ensures x in all {
      var q :| q in g.own && UsedBy(g.own[q], ino) && BBLOCK(sb, q) == x;
      Quotients(q, sb.size - 1);
    }
    Smaller(bits, all);
  }

  // ----- A file spread over the disk -----

  function Spread(nmeta: nat, i: nat): nat { if i == 0 then nmeta else i * BPB }

  predicate Used(nmeta: nat, x: nat) { x <= nmeta || (x % BPB == 0 && x < MAXOPBLOCKS * BPB) }

  function SpreadBits(nmeta: nat, k: nat): seq<bool> {
    seq(BPB, j requires 0 <= j => Used(nmeta, k * BPB + j))
  }

  function SpreadBlock(sb: Superblock, nmeta: nat, b: nat): Block {
    if sb.bmapstart <= b < nmeta then Bits(SpreadBits(nmeta, b - sb.bmapstart)) else Zero
  }

  function SpreadDisk(sb: Superblock, nmeta: nat): Disk {
    map b: nat | 0 <= b < sb.size :: SpreadBlock(sb, nmeta, b)
  }

  function SpreadOwn(sb: Superblock, nmeta: nat, ino: nat): map<nat, Use> {
    map b: nat | 0 <= b < sb.size :: SpreadUse(nmeta, ino, b)
  }

  function SpreadUse(nmeta: nat, ino: nat, b: nat): Use {
    if b < nmeta then Meta else if Used(nmeta, b) then File(ino, b / BPB) else Free
  }

  function SpreadInode(nmeta: nat): Inode {
    Inode(seq(NDIRECT + 1, i requires 0 <= i => if i < MAXOPBLOCKS then Spread(nmeta, i) else 0), MAXOPBLOCKS * BSIZE)
  }

  ghost function SpreadGhost(sb: Superblock, nmeta: nat, ino: nat): Ghost {
    Ghost(SpreadOwn(sb, nmeta, ino), map[ino := SpreadInode(nmeta)])
  }

  lemma SpreadUsed(sb: Superblock, nmeta: nat, i: nat)
    requires Layout(sb, nmeta) && sb.size > (MAXOPBLOCKS - 1) * BPB && i < MAXOPBLOCKS
    ensures nmeta <= Spread(nmeta, i) < sb.size && Used(nmeta, Spread(nmeta, i)) && Spread(nmeta, i) / BPB == i
  {
  }

  lemma SpreadBitmap(sb: Superblock, nmeta: nat, ino: nat)
    requires Layout(sb, nmeta)
    ensures BitmapInv(sb, SpreadDisk(sb, nmeta), SpreadOwn(sb, nmeta, ino))
  {
    var disk, own := SpreadDisk(sb, nmeta), SpreadOwn(sb, nmeta, ino);
    forall b {:trigger BitOk(sb, disk, own, b)} | b in own ensures BitOk(sb, disk, own, b) {
      Quotients(b, sb.size - 1);
      SpreadBit(sb, nmeta, ino, b);
    }
  }

  lemma SpreadBit(sb: Superblock, nmeta: nat, ino: nat, b: nat)
    requires Layout(sb, nmeta) && b < sb.size && BBLOCK(sb, b) < nmeta
    ensures b in SpreadOwn(sb, nmeta, ino) && BitOk(sb, SpreadDisk(sb, nmeta), SpreadOwn(sb, nmeta, ino), b)
  {
    var disk, own, k, j := SpreadDisk(sb, nmeta), SpreadOwn(sb, nmeta, ino), b / BPB, b % BPB;
    assert k * BPB + j == b;
    hide Layout, Used;
    var p := sb.bmapstart + k;
    assert p in disk && disk[p] == SpreadBlock(sb, nmeta, p) == Bits(SpreadBits(nmeta, k));
    assert SpreadBits(nmeta, k)[j] == Used(nmeta, b);
    assert p in own && own[p] == Meta && own[b] == SpreadUse(nmeta, ino, b);
    assert b < nmeta ==> Used(nmeta, b) by { Early(nmeta, b); }
  }

  lemma Early(nmeta: nat, b: nat)
    ensures b < nmeta ==> Used(nmeta, b)
  {
  }

  lemma SpreadInv(sb: Superblock, nmeta: nat, ino: nat)
    requires Layout(sb, nmeta) && sb.size > (MAXOPBLOCKS - 1) * BPB && IBLOCK(sb, ino) < sb.bmapstart
    ensures Inv(sb, SpreadDisk(sb, nmeta), SpreadGhost(sb, nmeta, ino))
  {
    var disk, g := SpreadDisk(sb, nmeta), SpreadGhost(sb, nmeta, ino);
    SpreadBitmap(sb, nmeta, ino);
    hide BitmapInv;
    var ip := g.view[ino];
    forall i | 0 <= i < NDIRECT ensures DirectOk(disk, g.own, ino, ip, i) {
      if i < MAXOPBLOCKS { SpreadUsed(sb, nmeta, i); }
    }
    forall b | b in g.own ensures PlaceOk(disk, g, b, g.own[b]) {
      assert (b / BPB) * BPB + b % BPB == b;
    }
  }

  lemma SpreadLog(sb: Superblock, nmeta: nat, ino: nat)
    requires Layout(sb, nmeta) && sb.size > (MAXOPBLOCKS - 1) * BPB && IBLOCK(sb, ino) < sb.bmapstart
    ensures |TruncLog(sb, SpreadGhost(sb, nmeta, ino), ino)| > MAXOPBLOCKS
  {
    var g := SpreadGhost(sb, nmeta, ino);
    var bits := FsCode.UsedBits(sb, g.own, ino);
    var some := Interval(sb.bmapstart, MAXOPBLOCKS);
    forall x | x in some ensures x in bits {
      var b: nat := Spread(nmeta, x - sb.bmapstart);
      SpreadUsed(sb, nmeta, x - sb.bmapstart);
      hide Layout, Spread, Used;
      assert b in g.own && g.own[b] == SpreadUse(nmeta, ino, b) == File(ino, b / BPB);
      assert BBLOCK(sb, b) == x;
    }
    Smaller(some, bits);
    assert forall x :: x in bits ==> x >= sb.bmapstart;
  }

  /** One iput stays within the reservation of its operation, whatever the file, exactly on disks
      of at most 9 * BPB blocks (mkfs makes 1000). */
  lemma TruncFitsIff(sb: Superblock, nmeta: nat, ino: nat)
    requires Layout(sb, nmeta) && IBLOCK(sb, ino) < sb.bmapstart
    ensures (forall disk, g :: Inv(sb, disk, g) && ino in g.view ==> |TruncLog(sb, g, ino)| <= MAXOPBLOCKS)
            <==> sb.size <= (MAXOPBLOCKS - 1) * BPB
  {
    hide Inv, TruncLog;
    if sb.size <= (MAXOPBLOCKS - 1) * BPB {
      forall disk, g | Inv(sb, disk, g) && ino in g.view ensures |TruncLog(sb, g, ino)| <= MAXOPBLOCKS {
        TruncLogBound(sb, disk, g, ino);
      }
    } else {
      SpreadInv(sb, nmeta, ino);
      SpreadLog(sb, nmeta, ino);
      assert ino in SpreadGhost(sb, nmeta, ino).view;
    }
  }
}
