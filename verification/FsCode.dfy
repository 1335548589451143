/** balloc, bfree, bmap and itrunc of kernel/fs.c. */
module FsCode {
  import opened FsBlocks

  /** Blocks of files keep their use and their contents. */
  ghost predicate FilesKept(d0: Disk, o0: map<nat, Use>, d1: Disk, o1: map<nat, Use>) {
    forall q :: q in o0 && o0[q].File? ==> q in o1 && o1[q] == o0[q] && q in d0 && q in d1 && d1[q] == d0[q]
  }

  lemma FilesKeptTrans(d0: Disk, o0: map<nat, Use>, d1: Disk, o1: map<nat, Use>, d2: Disk, o2: map<nat, Use>)
    requires FilesKept(d0, o0, d1, o1) && FilesKept(d1, o1, d2, o2)
    ensures FilesKept(d0, o0, d2, o2)
  {
  }

  lemma BitPosition(b: nat, bi: nat)
    requires b % BPB == 0 && bi < BPB
    ensures (b + bi) / BPB == b / BPB && (b + bi) % BPB == bi
  {
  }

  /** File ino may have gained blocks; no file lost one, and no file's contents changed. */
  ghost predicate Extended(d0: Disk, g0: Ghost, d1: Disk, g1: Ghost, ino: nat, bn: nat) {
    && ino in g0.view && ino in g1.view && |g0.view[ino].addrs| == |g1.view[ino].addrs| == NDIRECT + 1
    && g1.view == g0.view[ino := g1.view[ino]] && g1.view[ino].size == g0.view[ino].size
    && MoreAddrs(d0, g0.view[ino], d1, g1.view[ino], bn) && FilesKept(d0, g0.own, d1, g1.own)
    && OthersSame(d0, d1, g0.view, ino)
    && (g0.view[ino].addrs[NDIRECT] != 0 ==> g1.view[ino].addrs[NDIRECT] == g0.view[ino].addrs[NDIRECT])
  }

  ghost predicate OthersSame(d0: Disk, d1: Disk, view: map<nat, Inode>, ino: nat) {
    forall x :: x in view && x != ino ==> |view[x].addrs| == NDIRECT + 1 && SameAddrs(d0, d1, view[x])
  }

  lemma ExtendedRefl(sb: Superblock, d: Disk, g: Ghost, ino: nat, bn: nat)
    requires Inv(sb, d, g) && ino in g.view
    ensures Extended(d, g, d, g, ino, bn)
  {
    hide BitmapBlock, DirectOk, IndirectOk, Backed, PlaceOk;
    assert forall b :: b in g.own ==> b in d by {
      assert forall b :: b in g.own ==> BitOk(sb, d, g.own, b);
    }
  }

  lemma ExtendedTrans(d0: Disk, g0: Ghost, d1: Disk, g1: Ghost, d2: Disk, g2: Ghost, ino: nat, bn: nat)
    requires Extended(d0, g0, d1, g1, ino, bn) && Extended(d1, g1, d2, g2, ino, bn)
    ensures Extended(d0, g0, d2, g2, ino, bn)
  {
    hide AddrOf;
    FilesKeptTrans(d0, g0.own, d1, g1.own, d2, g2.own);
    hide FilesKept;
    assert g2.view == g0.view[ino := g2.view[ino]];
    forall x | x in g0.view && x != ino
      ensures |g0.view[x].addrs| == NDIRECT + 1 && SameAddrs(d0, d2, g0.view[x])
    {
      assert g1.view[x] == g0.view[x];
    }
    assert MoreAddrs(d0, g0.view[ino], d2, g2.view[ino], bn);
  }

  lemma TakeExtends(sb: Superblock, d0: Disk, g0: Ghost, b: nat, d1: Disk, g1: Ghost, ino: nat, bn: nat)
    requires Inv(sb, d0, g0) && ino in g0.view && b in g0.own && g0.own[b] == Free && BitSet(sb, d0, b, true, d1)
    requires g1 == g0.(own := g0.own[b := Taken])
    ensures Extended(d0, g0, d1, g1, ino, bn)
  {
    ExtendedRefl(sb, d0, g0, ino, bn);
    BitmapBlockOf(sb, d0, g0.own, b);
    hide BitmapInv, PlacesInv, InodeInv, Backed, AddrOf;
    NoInode(sb, d0, g0, d1, g1.own, {b, BBLOCK(sb, b)});
  }

  /** Only blocks in `some` change. */
  ghost predicate Only(d0: Disk, d1: Disk, some: set<nat>) {
    d1.Keys == d0.Keys && forall q :: q in d0 && q !in some ==> d1[q] == d0[q]
  }

  lemma OnlyTrans(d0: Disk, d1: Disk, d2: Disk, a: set<nat>, b: set<nat>, c: set<nat>)
    requires Only(d0, d1, a) && Only(d1, d2, b) && a <= c && b <= c
    ensures Only(d0, d2, c)
  {
  }

  lemma BitOnly(sb: Superblock, d0: Disk, b: nat, d1: Disk)
    requires BitSet(sb, d0, b, true, d1)
    ensures Only(d0, d1, {BBLOCK(sb, b), b})
  {
  }

  ghost predicate NoFree(own: map<nat, Use>) { forall c :: c in own ==> own[c] != Free }

  ghost predicate WasFree(own: map<nat, Use>, b: nat) { b in own && own[b] == Free }

  ghost function FreeBlocks(own: map<nat, Use>): set<nat> { set b | b in own && own[b] == Free }

  ghost function FreeCount(own: map<nat, Use>): nat { |FreeBlocks(own)| }

  lemma NoneLeft(own: map<nat, Use>)
    ensures NoFree(own) <==> FreeCount(own) == 0
  {
    if !NoFree(own) {
      var c :| c in own && own[c] == Free;
      assert c in FreeBlocks(own);
    }
  }

  lemma OneTaken(own: map<nat, Use>, b: nat, own': map<nat, Use>)
    requires b in own && own[b] == Free && own' == own[b := Taken]
    ensures FreeCount(own') + 1 == FreeCount(own)
  {
    assert FreeBlocks(own) == FreeBlocks(own') + {b} && b !in FreeBlocks(own');
  }

  lemma NoneTaken(own: map<nat, Use>, b: nat, own': map<nat, Use>)
    requires b in own && own[b] != Free && b in own' && own' == own[b := own'[b]] && own'[b] != Free
    ensures FreeCount(own') == FreeCount(own)
  {
    assert FreeBlocks(own) == FreeBlocks(own');
  }

  /** How many blocks bmap must allocate for block bn of a file. */
  ghost function BlocksFor(d: Disk, ip: Inode, bn: nat): nat
    requires |ip.addrs| == NDIRECT + 1
  {
    if AddrOf(d, ip, bn) != 0 then 0 else if bn >= NDIRECT && ip.addrs[NDIRECT] == 0 then 2 else 1
  }

  /** Whether a file has its indirect block after bmap of block bn. */
  predicate IndirectWith(ip: Inode, ip': Inode, bn: nat)
    requires |ip.addrs| == |ip'.addrs| == NDIRECT + 1
  {
    ip'.addrs[NDIRECT] != 0 <==> ip.addrs[NDIRECT] != 0 || bn >= NDIRECT
  }

  /** What bmap logs to map block bn, new at addr: that block, its bit, the indirect block it is
      entered in, and the bit of the indirect block if that is new. */
  ghost function NewLogs(sb: Superblock, ip: Inode, ip': Inode, bn: nat, addr: nat): set<nat>
    requires |ip.addrs| == |ip'.addrs| == NDIRECT + 1
  {
    {BBLOCK(sb, addr), addr} + IndirectLogs(sb, ip, ip')
      + if bn < NDIRECT then {} else {ip'.addrs[NDIRECT]}
  }

  ghost function IndirectLogs(sb: Superblock, ip: Inode, ip': Inode): set<nat>
    requires |ip.addrs| == |ip'.addrs| == NDIRECT + 1
  {
    if NewIndirect(ip, ip') == 0 then {} else {BBLOCK(sb, ip'.addrs[NDIRECT]), ip'.addrs[NDIRECT]}
  }

  class FileSystem {
    const sb: Superblock
    var disk: Disk
    var inodes: map<nat, Inode>            // in memory
    var dinodes: map<nat, Inode>           // in the inode blocks
    ghost var g: Ghost
    var logged: set<nat>                   // blocks passed to log_write in this transaction

    /** At rest: every in-memory inode is as on disk. */
    ghost predicate Valid()
      reads this
    {
      Inv(sb, disk, g) && inodes == g.view && dinodes == inodes
    }

    /** Inode ino is locked, and may be ahead of the disk. */
    ghost predicate Busy(ino: nat)
      reads this
    {
      && Inv(sb, disk, g) && inodes == g.view && ino in inodes && ino in dinodes
      && dinodes == inodes[ino := dinodes[ino]]
    }

    /** Mounts a file system image. */
    constructor (super: Superblock, image: Disk, files: map<nat, Inode>, ghost uses: map<nat, Use>)
      requires Inv(super, image, Ghost(uses, files))
      ensures Valid() && sb == super && disk == image && inodes == files && g.own == uses
    {
      sb, disk, inodes, dinodes, g, logged := super, image, files, files, Ghost(uses, files), {};
    }

    /** The lowest free block, marked and zeroed. 0 stands for the panic when there is none. */
    method Balloc() returns (block: nat)
      requires Inv(sb, disk, g)
      modifies `disk, `g, `logged
      ensures block == 0 ==> g == old(g) && disk == old(disk) && forall c :: c in g.own ==> g.own[c] != Free
      ensures block != 0 ==>
                && Inv(sb, disk, g) && block in old(g.own) && old(g.own)[block] == Free
                && g == old(g).(own := old(g.own)[block := Taken])
                && BitSet(sb, old(disk), block, true, disk) && block in disk && disk[block] == Zero
                && (forall c :: c in old(g.own) && c < block ==> old(g.own)[c] != Free)
                && logged == old(logged) + {BBLOCK(sb, block), block}
    {
      hide InodeInv, Backed, PlacesInv;
      var b := 0;
      while b < sb.size
        invariant b % BPB == 0 && unchanged(this)
        invariant forall c :: c in g.own && c < b ==> g.own[c] != Free
      {
        assert BitOk(sb, disk, g.own, b);
        var bi := 0;
        while bi < BPB && b + bi < sb.size
          invariant 0 <= bi <= BPB && unchanged(this)
          invariant forall c :: c in g.own && c < b + bi ==> g.own[c] != Free
        {
          BitPosition(b, bi);
          assert BitOk(sb, disk, g.own, b + bi);
          if !disk[BBLOCK(sb, b)].bits[bi] {
            disk := disk[BBLOCK(sb, b) := Bits(disk[BBLOCK(sb, b)].bits[bi := true])];
            logged := logged + {BBLOCK(sb, b)};
            disk := disk[b + bi := Zero];
            logged := logged + {b + bi};
            TakeBlock(sb, old(disk), g, b + bi, disk, g.(own := g.own[b + bi := Taken]));
            NotZeroFree(sb, old(disk), g, b + bi);
            g := g.(own := g.own[b + bi := Taken]);
            return b + bi;
          }
          bi := bi + 1;
        }
        b := b + BPB;
      }
      return 0;
    }

    /** Marks a taken block as free. Its bit is set, so the panic about freeing a free block
        does not happen. */
    method Bfree(b: nat)
      requires Inv(sb, disk, g) && b in g.own && g.own[b] == Taken
      modifies `disk, `g, `logged
      ensures Inv(sb, disk, g) && g == old(g).(own := old(g.own)[b := Free]) && logged == old(logged) + {BBLOCK(sb, b)}
      ensures BBLOCK(sb, b) in old(g.own) && old(g.own)[BBLOCK(sb, b)] == Meta
      ensures disk.Keys == old(disk.Keys) && forall q :: q in disk && q != BBLOCK(sb, b) ==> disk[q] == old(disk)[q]
    {
      hide InodeInv, Backed, PlacesInv;
      assert BitOk(sb, disk, g.own, b);
      var bi := b % BPB;
      assert disk[BBLOCK(sb, b)].bits[bi];                 // no panic
      disk := disk[BBLOCK(sb, b) := Bits(disk[BBLOCK(sb, b)].bits[bi := false])];
      logged := logged + {BBLOCK(sb, b)};
      ReleaseBlock(sb, old(disk), g, b, disk, g.(own := g.own[b := Free]));
      g := g.(own := g.own[b := Free]);
    }

    /** balloc for a file: nothing else about files changes. */
    method BallocFor(ino: nat, ghost bn: nat) returns (b: nat)
      requires Busy(ino)
      modifies `disk, `g, `logged
      ensures b != 0 ==> Busy(ino) && Extended(old(disk), old(g), disk, g, ino, bn)
      ensures b != 0 ==> g == old(g).(own := old(g.own)[b := Taken])
      ensures b != 0 ==> b in old(g.own) && old(g.own)[b] == Free && b in disk && disk[b] == Zero
      ensures b != 0 ==> logged == old(logged) + {BBLOCK(sb, b), b} && Only(old(disk), disk, {BBLOCK(sb, b), b})
      ensures b == 0 ==> NoFree(g.own) && g == old(g)
      ensures b != 0 <==> FreeCount(old(g.own)) > 0
      ensures b != 0 ==> FreeCount(g.own) + 1 == FreeCount(old(g.own))
      ensures b != 0 ==> forall q :: q in old(g.own) && old(g.own)[q].Indirect? ==>
                q in disk && q in old(disk) && disk[q] == old(disk)[q]
    {
      hide Inv, BitSet, FreeCount;
      NoneLeft(g.own);
      b := Balloc();
      if b != 0 {
        OneTaken(old(g.own), b, g.own);
        TakeExtends(sb, old(disk), old(g), b, disk, g, ino, bn);
        IndirectKept(sb, old(disk), old(g), b, disk);
        BitOnly(sb, old(disk), b, disk);
      }
    }

    /** The address of block bn of file ino. If there is none, a free block is zeroed and entered
        there. 0 stands for the panic when the disk is full. */
    method Bmap(ino: nat, bn: nat) returns (addr: nat)
      requires Busy(ino) && bn < MAXFILE && |g.view[ino].addrs| == NDIRECT + 1
      modifies `disk, `inodes, `g, `logged
      ensures addr != 0 ==> Busy(ino) && Extended(old(disk), old(g), disk, g, ino, bn)
      ensures addr != 0 ==> |g.view[ino].addrs| == NDIRECT + 1
      ensures addr != 0 ==> AddrOf(disk, g.view[ino], bn) == addr && FileBlock(disk, g.own, ino, bn, addr)
      ensures addr == 0 ==> NoFree(g.own) && old(AddrOf(disk, g.view[ino], bn)) == 0
      ensures old(AddrOf(disk, g.view[ino], bn)) != 0 ==>
                addr == old(AddrOf(disk, g.view[ino], bn)) && disk == old(disk) && g == old(g) && logged == old(logged)
      ensures addr != 0 && old(AddrOf(disk, g.view[ino], bn)) == 0 ==>
                && WasFree(old(g.own), addr) && disk[addr] == Zero
                && IndirectFrom(old(g.own), old(g.view[ino]), g.view[ino])
                && logged == old(logged) + NewLogs(sb, old(g.view[ino]), g.view[ino], bn, addr)
                && Only(old(disk), disk, NewLogs(sb, old(g.view[ino]), g.view[ino], bn, addr))
      ensures addr != 0 <==> BlocksFor(old(disk), old(g.view[ino]), bn) <= FreeCount(old(g.own))
      ensures addr != 0 ==>
                FreeCount(g.own) + BlocksFor(old(disk), old(g.view[ino]), bn) == FreeCount(old(g.own))
      ensures addr != 0 ==> IndirectWith(old(g.view[ino]), g.view[ino], bn)
    {
      hide Inv, Extended, FileBlock, Only, FreeCount;
      ghost var ip := g.view[ino];
      HasAddrs(sb, disk, g, ino);
      ExtendedRefl(sb, disk, g, ino, bn);
      if bn < NDIRECT {
        addr := inodes[ino].addrs[bn];
        if addr == 0 {
          addr := BallocFor(ino, bn);
          if addr == 0 {
            return;
          }
          ghost var g' := Ghost(g.own[addr := File(ino, bn)],
                                g.view[ino := g.view[ino].(addrs := g.view[ino].addrs[bn := addr])]);
          AttachDirect(sb, disk, g, ino, bn, addr, g');
          AttachExtends(sb, disk, g, disk, g', ino, addr, bn);
          ExtendedTrans(old(disk), old(g), disk, g, disk, g', ino, bn);
          NoneTaken(g.own, addr, g'.own);
          inodes := inodes[ino := inodes[ino].(addrs := inodes[ino].addrs[bn := addr])];
          g := g';
          assert NewLogs(sb, ip, g.view[ino], bn, addr) == {BBLOCK(sb, addr), addr};
        }
        MappedBlock(sb, disk, g, ino, bn);
        return;
      }
      addr := BmapIndirect(ino, bn);
    }

    /** The indirect block of file ino, allocated if there is none. */
    method IndirectOf(ino: nat, ghost bn: nat) returns (p: nat)
      requires Busy(ino) && NDIRECT <= bn < MAXFILE && |g.view[ino].addrs| == NDIRECT + 1
      modifies `disk, `inodes, `g, `logged
      ensures p != 0 ==> Busy(ino) && Extended(old(disk), old(g), disk, g, ino, bn)
      ensures p != 0 ==> |g.view[ino].addrs| == NDIRECT + 1
      ensures p != 0 ==> g.view[ino].addrs[NDIRECT] == p
      ensures p != 0 ==> AddrOf(disk, g.view[ino], bn) == old(AddrOf(disk, g.view[ino], bn))
      ensures p == 0 ==> NoFree(g.own) && g == old(g)
      ensures p == 0 ==> FreeCount(g.own) == 0
      ensures p != 0 ==>
                FreeCount(g.own) + (if old(g.view[ino]).addrs[NDIRECT] == 0 then 1 else 0) == FreeCount(old(g.own))
      ensures old(g.view[ino]).addrs[NDIRECT] != 0 ==> p != 0 && disk == old(disk) && g == old(g)
      ensures old(g.view[ino]).addrs[NDIRECT] == 0 && p != 0 ==> WasFree(old(g.own), p)
      ensures p != 0 ==> forall q :: WasFree(g.own, q) ==> WasFree(old(g.own), q)
      ensures p != 0 ==> logged == old(logged) + IndirectLogs(sb, old(g.view[ino]), g.view[ino])
      ensures p != 0 ==> Only(old(disk), disk, IndirectLogs(sb, old(g.view[ino]), g.view[ino]))
    {
      hide Inv, Extended, FreeCount;
      ExtendedRefl(sb, disk, g, ino, bn);
      p := inodes[ino].addrs[NDIRECT];
      if p == 0 {
        p := BallocFor(ino, bn);
        if p == 0 {
          return;
        }
        ghost var g' := Ghost(g.own[p := Indirect(ino)],
                              g.view[ino := g.view[ino].(addrs := g.view[ino].addrs[NDIRECT := p])]);
        AttachIndirect(sb, disk, g, ino, p, g', bn);
        AttachExtends(sb, disk, g, disk, g', ino, p, bn);
        ExtendedTrans(old(disk), old(g), disk, g, disk, g', ino, bn);
        NoneTaken(g.own, p, g'.own);
        inodes := inodes[ino := inodes[ino].(addrs := inodes[ino].addrs[NDIRECT := p])];
        g := g';
      }
    }

    /** The part of bmap for blocks behind the indirect block. */
    method BmapIndirect(ino: nat, bn: nat) returns (addr: nat)
      requires Busy(ino) && NDIRECT <= bn < MAXFILE && |g.view[ino].addrs| == NDIRECT + 1
      modifies `disk, `inodes, `g, `logged
      ensures addr != 0 ==> Busy(ino) && Extended(old(disk), old(g), disk, g, ino, bn)
      ensures addr != 0 ==> |g.view[ino].addrs| == NDIRECT + 1
      ensures addr != 0 ==> AddrOf(disk, g.view[ino], bn) == addr && FileBlock(disk, g.own, ino, bn, addr)
      ensures addr == 0 ==> NoFree(g.own) && old(AddrOf(disk, g.view[ino], bn)) == 0
      ensures old(AddrOf(disk, g.view[ino], bn)) != 0 ==>
                addr == old(AddrOf(disk, g.view[ino], bn)) && disk == old(disk) && g == old(g) && logged == old(logged)
      ensures addr != 0 && old(AddrOf(disk, g.view[ino], bn)) == 0 ==>
                && WasFree(old(g.own), addr) && disk[addr] == Zero
                && IndirectFrom(old(g.own), old(g.view[ino]), g.view[ino])
                && logged == old(logged) + NewLogs(sb, old(g.view[ino]), g.view[ino], bn, addr)
                && Only(old(disk), disk, NewLogs(sb, old(g.view[ino]), g.view[ino], bn, addr))
      ensures addr != 0 <==> BlocksFor(old(disk), old(g.view[ino]), bn) <= FreeCount(old(g.own))
      ensures addr != 0 ==>
                FreeCount(g.own) + BlocksFor(old(disk), old(g.view[ino]), bn) == FreeCount(old(g.own))
      ensures addr != 0 ==> IndirectWith(old(g.view[ino]), g.view[ino], bn)
    {
      hide Inv, Extended, FileBlock, Only, FreeCount;
      ghost var ip := g.view[ino];
      var p := IndirectOf(ino, bn);
      if p == 0 {
        return 0;
      }
      ghost var d1, l1 := disk, logged;
      IndirectBlock(sb, disk, g, ino);
      addr := AddrsOf(disk[p])[bn - NDIRECT];
      if addr == 0 {
        ghost var h := g;
        addr := BallocFor(ino, bn);
        if addr == 0 {
          return;
        }
        ExtendedTrans(old(disk), old(g), d1, h, disk, g, ino, bn);
        IndirectBlock(sb, disk, g, ino);
        ghost var g' := g.(own := g.own[addr := File(ino, bn)]);
        ghost var d2 := disk;
        disk := disk[p := Addrs(AddrsOf(disk[p])[bn - NDIRECT := addr])];
        logged := logged + {p};
        AttachLeaf(sb, d2, g, ino, bn - NDIRECT, addr, p, disk, g');
        AttachExtends(sb, d2, g, disk, g', ino, addr, bn);
        ExtendedTrans(old(disk), old(g), d2, g, disk, g', ino, bn);
        NoneTaken(g.own, addr, g'.own);
        g := g';
        LeafOnly(sb, ip, g.view[ino], old(disk), d1, d2, disk, bn, addr, p);
      }
      MappedBlock(sb, disk, g, ino, bn);
    }

    /** Copies an in-memory inode to its block. */
    method Iupdate(ino: nat)
      requires Busy(ino)
      modifies `dinodes, `logged
      ensures Valid() && logged == old(logged) + {IBLOCK(sb, ino)}
    {
      dinodes := dinodes[ino := inodes[ino]];
      logged := logged + {IBLOCK(sb, ino)};
      assert dinodes == inodes;
    }

    /** One step of itrunc: frees block n of the file as it was, if there is one. */
    method FreeNth(ino: nat, n: nat, addr: nat, ghost d0: Disk, ghost g0: Ghost, ghost l0: set<nat>)
      requires Inv(sb, disk, g) && Inv(sb, d0, g0) && ino in g0.view && n < MAXFILE
      requires |g0.view[ino].addrs| == NDIRECT + 1
      requires addr == AddrOf(d0, g0.view[ino], n) && FreedUpTo(g0.own, g.own, ino, n, false)
      requires MetaOnly(g0.own, d0, disk)
      requires logged == l0 + FreedBits(sb, g0.own, g.own, ino)
      modifies `disk, `g, `logged
      ensures Inv(sb, disk, g) && g.view == old(g.view) && MetaOnly(g0.own, d0, disk)
      ensures FreedUpTo(g0.own, g.own, ino, n + 1, false) && logged == l0 + FreedBits(sb, g0.own, g.own, ino)
    {
      hide Inv, AddrOf;
      NthBlock(sb, d0, g0, ino, n);
      if addr != 0 {
        Bfree(addr);
        BitsMore(sb, g0.own, old(g.own), ino, addr);
      }
    }

    /** Frees exactly the blocks of file ino and leaves it empty. */
    method Itrunc(ino: nat)
      requires Busy(ino)
      modifies this
      ensures Valid() && inodes == old(inodes)[ino := EMPTY] && g.own.Keys == old(g.own).Keys
      ensures forall q :: q in g.own ==> g.own[q] == if UsedBy(old(g.own)[q], ino) then Free else old(g.own)[q]
      ensures MetaOnly(old(g.own), old(disk), disk)
      ensures logged == old(logged) + UsedBits(sb, old(g.own), ino) + {IBLOCK(sb, ino)}
    {
      hide Inv, FreedUpTo, MetaOnly, UsedBy, FreedBits, UsedBits;
      HasAddrs(sb, disk, g, ino);
      g := Ghost(map q | q in g.own :: if UsedBy(g.own[q], ino) then Taken else g.own[q], g.view[ino := EMPTY]);
      Truncated(sb, disk, old(g), ino, g);
      NothingFreed(sb, disk, old(g), g.own, ino);
      BitsNone(sb, old(g.own), g.own, ino);
      FreeDirect(ino, old(disk), old(g), old(logged));
      FreeIndirect(ino, old(disk), old(g), old(logged));
      AllFreed(sb, old(disk), old(g), g.own, ino);
      BitsAll(sb, old(g.own), g.own, ino);
      assert inodes[ino].addrs == EMPTY.addrs;
      inodes := inodes[ino := inodes[ino].(size := 0)];
      assert inodes == g.view;
      Iupdate(ino);
    }

    /** The part of itrunc for the direct blocks. */
    method FreeDirect(ino: nat, ghost d0: Disk, ghost g0: Ghost, ghost l0: set<nat>)
      requires Inv(sb, disk, g) && Inv(sb, d0, g0) && ino in g0.view && |g0.view[ino].addrs| == NDIRECT + 1
      requires inodes == g0.view && FreedUpTo(g0.own, g.own, ino, 0, false) && MetaOnly(g0.own, d0, disk)
      requires logged == l0 + FreedBits(sb, g0.own, g.own, ino)
      modifies `disk, `g, `logged, `inodes
      ensures Inv(sb, disk, g) && g.view == old(g.view) && MetaOnly(g0.own, d0, disk)
      ensures FreedUpTo(g0.own, g.own, ino, NDIRECT, false) && logged == l0 + FreedBits(sb, g0.own, g.own, ino)
      ensures ino in inodes && inodes == old(inodes)[ino := inodes[ino]] && |inodes[ino].addrs| == NDIRECT + 1
      ensures forall x :: 0 <= x <= NDIRECT ==> inodes[ino].addrs[x] == if x < NDIRECT then 0 else g0.view[ino].addrs[x]
    {
      hide Inv, FreedUpTo, MetaOnly;
      var i := 0;
      while i < NDIRECT
        invariant 0 <= i <= NDIRECT && Inv(sb, disk, g) && g.view == old(g.view)
        invariant FreedUpTo(g0.own, g.own, ino, i, false) && MetaOnly(g0.own, d0, disk)
        invariant logged == l0 + FreedBits(sb, g0.own, g.own, ino)
        invariant ino in inodes && inodes == old(inodes)[ino := inodes[ino]] && |inodes[ino].addrs| == NDIRECT + 1
        invariant forall x :: 0 <= x <= NDIRECT ==> inodes[ino].addrs[x] == if x < i then 0 else g0.view[ino].addrs[x]
      {
        FreeNth(ino, i, inodes[ino].addrs[i], d0, g0, l0);
        if inodes[ino].addrs[i] != 0 {
          inodes := inodes[ino := inodes[ino].(addrs := inodes[ino].addrs[i := 0])];
        }
        i := i + 1;
      }
    }

    /** The part of itrunc for the blocks behind the indirect block. */
    method FreeIndirect(ino: nat, ghost d0: Disk, ghost g0: Ghost, ghost l0: set<nat>)
      requires Inv(sb, disk, g) && Inv(sb, d0, g0) && ino in g0.view && |g0.view[ino].addrs| == NDIRECT + 1
      requires ino in inodes && |inodes[ino].addrs| == NDIRECT + 1
      requires inodes[ino].addrs[NDIRECT] == g0.view[ino].addrs[NDIRECT]
      requires FreedUpTo(g0.own, g.own, ino, NDIRECT, false) && MetaOnly(g0.own, d0, disk)
      requires logged == l0 + FreedBits(sb, g0.own, g.own, ino)
      modifies `disk, `g, `logged, `inodes
      ensures Inv(sb, disk, g) && g.view == old(g.view) && MetaOnly(g0.own, d0, disk)
      ensures FreedUpTo(g0.own, g.own, ino, MAXFILE, true) && logged == l0 + FreedBits(sb, g0.own, g.own, ino)
      ensures inodes == old(inodes)[ino := old(inodes)[ino].(addrs := old(inodes)[ino].addrs[NDIRECT := 0])]
    {
      hide Inv, FreedUpTo, MetaOnly;
      var p := inodes[ino].addrs[NDIRECT];
      if p != 0 {
        IndirectBlock(sb, d0, g0, ino);
        MetaKeeps(g0.own, d0, disk, p);
        var a := AddrsOf(disk[p]);
        var j := 0;
        while j < NINDIRECT
          invariant 0 <= j <= NINDIRECT && Inv(sb, disk, g) && g.view == old(g.view) && inodes == old(inodes)
          invariant FreedUpTo(g0.own, g.own, ino, NDIRECT + j, false) && MetaOnly(g0.own, d0, disk)
          invariant logged == l0 + FreedBits(sb, g0.own, g.own, ino)
        {
          FreeNth(ino, NDIRECT + j, a[j], d0, g0, l0);
          j := j + 1;
        }
        IndirectTaken(g0.own, g.own, ino, MAXFILE, p);
        IndirectOnly(sb, d0, g0, ino);
        ghost var o, d := g.own, disk;
        Bfree(p);
        IndirectFreed(g0.own, o, g.own, ino, p);
        BitsMore(sb, g0.own, o, ino, p);
        MetaMore(g0.own, o, ino, MAXFILE, d0, d, disk, BBLOCK(sb, p));
        inodes := inodes[ino := inodes[ino].(addrs := inodes[ino].addrs[NDIRECT := 0])];
      } else {
        NoIndirect(sb, d0, g0, g.own, ino);
        assert inodes[ino].addrs[NDIRECT := 0] == inodes[ino].addrs;
      }
    }
  }

  // ----- Truncation -----

  /** The bitmap blocks of the blocks of inode ino that have been freed so far. */
  ghost function FreedBits(sb: Superblock, o0: map<nat, Use>, o: map<nat, Use>, ino: nat): set<nat> {
    set q | q in o0 && UsedBy(o0[q], ino) && q in o && o[q] == Free :: BBLOCK(sb, q)
  }

  /** The bitmap blocks of all blocks of inode ino. */
  ghost function UsedBits(sb: Superblock, own: map<nat, Use>, ino: nat): set<nat> {
    set q | q in own && UsedBy(own[q], ino) :: BBLOCK(sb, q)
  }

  lemma BitsMore(sb: Superblock, o0: map<nat, Use>, o: map<nat, Use>, ino: nat, b: nat)
    requires b in o0 && UsedBy(o0[b], ino) && b in o
    ensures FreedBits(sb, o0, o[b := Free], ino) == FreedBits(sb, o0, o, ino) + {BBLOCK(sb, b)}
  {
    hide UsedBy;
    var o' := o[b := Free];
    forall x | x in FreedBits(sb, o0, o, ino) ensures x in FreedBits(sb, o0, o', ino) {
      var q :| q in o0 && UsedBy(o0[q], ino) && q in o && o[q] == Free && BBLOCK(sb, q) == x;
      assert q in o' && o'[q] == Free;
    }
    assert o'[b] == Free;
  }

  lemma BitsNone(sb: Superblock, o0: map<nat, Use>, o: map<nat, Use>, ino: nat)
    requires forall q :: q in o0 && q in o && UsedBy(o0[q], ino) ==> o[q] == Taken
    ensures FreedBits(sb, o0, o, ino) == {}
  {
  }

  lemma BitsAll(sb: Superblock, o0: map<nat, Use>, o: map<nat, Use>, ino: nat)
    requires o.Keys == o0.Keys && forall q :: q in o && UsedBy(o0[q], ino) ==> o[q] == Free
    ensures FreedBits(sb, o0, o, ino) == UsedBits(sb, o0, ino)
  {
    hide UsedBy;
    forall x | x in UsedBits(sb, o0, ino) ensures x in FreedBits(sb, o0, o, ino) {
      var q :| q in o0 && UsedBy(o0[q], ino) && BBLOCK(sb, q) == x;
      assert q in o && o[q] == Free;
    }
  }

  /** The blocks of file ino below n are free, the others taken; the indirect block is free
      if `ind`. Blocks outside the file keep their use. */
  ghost predicate FreedUpTo(o0: map<nat, Use>, o: map<nat, Use>, ino: nat, n: nat, ind: bool) {
    && o.Keys == o0.Keys
    && forall q :: q in o0 ==>
         o[q] == match o0[q]
                 case File(x, m) => if x != ino then o0[q] else if m < n then Free else Taken
                 case Indirect(x) => if x != ino then o0[q] else if ind then Free else Taken
                 case _ => o0[q]
  }

  /** Only metadata blocks changed. */
  ghost predicate MetaOnly(o0: map<nat, Use>, d0: Disk, d1: Disk) {
    d1.Keys == d0.Keys && forall q :: q in d0 && !(q in o0 && o0[q] == Meta) ==> d1[q] == d0[q]
  }

  lemma MetaKeeps(o0: map<nat, Use>, d0: Disk, d1: Disk, p: nat)
    requires MetaOnly(o0, d0, d1) && p in d0 && p in o0 && o0[p] != Meta
    ensures p in d1 && d1[p] == d0[p]
  {
  }

  lemma MetaMore(o0: map<nat, Use>, o: map<nat, Use>, ino: nat, n: nat, d0: Disk, d1: Disk, d2: Disk, m: nat)
    requires MetaOnly(o0, d0, d1) && FreedUpTo(o0, o, ino, n, false) && m in o && o[m] == Meta
    requires d2.Keys == d1.Keys && forall q :: q in d2 && q != m ==> d2[q] == d1[q]
    ensures MetaOnly(o0, d0, d2)
  {
  }

  lemma AllFreed(sb: Superblock, d0: Disk, g0: Ghost, o: map<nat, Use>, ino: nat)
    requires Inv(sb, d0, g0) && ino in g0.view && FreedUpTo(g0.own, o, ino, MAXFILE, true)
    ensures forall q :: q in o ==> o[q] == if UsedBy(g0.own[q], ino) then Free else g0.own[q]
    ensures o.Keys == g0.own.Keys
  {
    hide BitmapInv, InodeInv, Backed, AddrOf;
    assert forall q :: q in g0.own ==> PlaceOk(d0, g0, q, g0.own[q]);
  }

  lemma NothingFreed(sb: Superblock, d0: Disk, g0: Ghost, o: map<nat, Use>, ino: nat)
    requires o.Keys == g0.own.Keys && forall q :: q in o ==> o[q] == if UsedBy(g0.own[q], ino) then Taken else g0.own[q]
    ensures FreedUpTo(g0.own, o, ino, 0, false) && MetaOnly(g0.own, d0, d0)
  {
  }

  /** AddrOf(n) is the one block used as block n, if any is. */
  lemma NthBlock(sb: Superblock, d0: Disk, g0: Ghost, ino: nat, n: nat)
    requires Inv(sb, d0, g0) && ino in g0.view && n < MAXFILE && |g0.view[ino].addrs| == NDIRECT + 1
    ensures var b := AddrOf(d0, g0.view[ino], n);
            && (b != 0 ==> b in g0.own && g0.own[b] == File(ino, n))
            && forall q :: q in g0.own && g0.own[q] == File(ino, n) ==> b != 0 && q == b
  {
    if AddrOf(d0, g0.view[ino], n) != 0 {
      MappedBlock(sb, d0, g0, ino, n);
    }
    hide BitmapInv, InodeInv, Backed, AddrOf;
    forall q | q in g0.own && g0.own[q] == File(ino, n)
      ensures AddrOf(d0, g0.view[ino], n) != 0 && q == AddrOf(d0, g0.view[ino], n)
    {
      assert PlaceOk(d0, g0, q, g0.own[q]);
    }
  }

  lemma IndirectTaken(o0: map<nat, Use>, o: map<nat, Use>, ino: nat, n: nat, p: nat)
    requires FreedUpTo(o0, o, ino, n, false) && p in o0 && o0[p] == Indirect(ino)
    ensures p in o && o[p] == Taken
  {
  }

  lemma IndirectOnly(sb: Superblock, d0: Disk, g0: Ghost, ino: nat)
    requires Inv(sb, d0, g0) && ino in g0.view && |g0.view[ino].addrs| == NDIRECT + 1
    ensures forall q :: q in g0.own && g0.own[q] == Indirect(ino) ==> q == g0.view[ino].addrs[NDIRECT] && q != 0
  {
    hide BitmapInv, InodeInv, Backed, AddrOf;
    forall q | q in g0.own && g0.own[q] == Indirect(ino)
      ensures q == g0.view[ino].addrs[NDIRECT] && q != 0
    {
      assert PlaceOk(d0, g0, q, g0.own[q]);
    }
  }

  lemma IndirectFreed(o0: map<nat, Use>, o: map<nat, Use>, o': map<nat, Use>, ino: nat, p: nat)
    requires FreedUpTo(o0, o, ino, MAXFILE, false) && p in o0 && o0[p] == Indirect(ino) && o' == o[p := Free]
    requires forall q :: q in o0 && o0[q] == Indirect(ino) ==> q == p
    ensures FreedUpTo(o0, o', ino, MAXFILE, true)
  {
  }

  /** A file without an indirect block has no blocks behind it. */
  lemma NoIndirect(sb: Superblock, d0: Disk, g0: Ghost, o: map<nat, Use>, ino: nat)
    requires Inv(sb, d0, g0) && ino in g0.view && |g0.view[ino].addrs| == NDIRECT + 1
    requires g0.view[ino].addrs[NDIRECT] == 0
    requires FreedUpTo(g0.own, o, ino, NDIRECT, false)
    ensures FreedUpTo(g0.own, o, ino, MAXFILE, true)
  {
    IndirectOnly(sb, d0, g0, ino);
    hide BitmapInv, InodeInv, Backed;
    forall q | q in g0.own && g0.own[q].File? && g0.own[q].ino == ino
      ensures g0.own[q].n < NDIRECT
    {
      assert PlaceOk(d0, g0, q, g0.own[q]);
    }
  }

  function NewIndirect(ip: Inode, ip': Inode): nat
    requires |ip.addrs| == |ip'.addrs| == NDIRECT + 1
  {
    if ip.addrs[NDIRECT] == 0 && ip'.addrs[NDIRECT] != 0 then 1 else 0
  }

  ghost function NewData(d: Disk, ip: Inode, n: nat): nat
    requires |ip.addrs| == NDIRECT + 1
  {
    if AddrOf(d, ip, n) == 0 then 1 else 0
  }

  /** A new indirect block was free. */
  ghost predicate IndirectFrom(own: map<nat, Use>, ip: Inode, ip': Inode)
    requires |ip.addrs| == |ip'.addrs| == NDIRECT + 1
  {
    NewIndirect(ip, ip') > 0 ==> WasFree(own, ip'.addrs[NDIRECT])
  }

  lemma LeafOnly(sb: Superblock, ip: Inode, ip': Inode, d0: Disk, d1: Disk, d2: Disk, d3: Disk, bn: nat, addr: nat,
                 p: nat)
    requires |ip.addrs| == |ip'.addrs| == NDIRECT + 1 && bn >= NDIRECT && ip'.addrs[NDIRECT] == p
    requires Only(d0, d1, IndirectLogs(sb, ip, ip')) && Only(d1, d2, {BBLOCK(sb, addr), addr})
    requires p in d2 && p in d3 && d3 == d2[p := d3[p]]
    ensures Only(d0, d3, NewLogs(sb, ip, ip', bn, addr))
  {
    var all := NewLogs(sb, ip, ip', bn, addr);
    OnlyTrans(d0, d1, d2, IndirectLogs(sb, ip, ip'), {BBLOCK(sb, addr), addr}, all);
    OnlyTrans(d0, d2, d3, all, {p}, all);
  }

  lemma HasAddrs(sb: Superblock, d: Disk, g: Ghost, ino: nat)
    requires Inv(sb, d, g) && ino in g.view
    ensures |g.view[ino].addrs| == NDIRECT + 1
  {
  }

  lemma MappedBlock(sb: Superblock, d: Disk, g: Ghost, ino: nat, n: nat)
    requires Inv(sb, d, g) && ino in g.view && n < MAXFILE && |g.view[ino].addrs| == NDIRECT + 1
    requires AddrOf(d, g.view[ino], n) != 0
    ensures FileBlock(d, g.own, ino, n, AddrOf(d, g.view[ino], n))
  {
    hide BitmapInv, PlacesInv, Backed;
    var ip := g.view[ino];
    assert InodeInv(d, g.own, ino, ip);
    if n < NDIRECT {
      assert DirectOk(d, g.own, ino, ip, n);
    } else {
      assert LeafOk(d, g.own, ino, AddrsOf(d[ip.addrs[NDIRECT]]), n - NDIRECT);
    }
  }

  lemma IndirectBlock(sb: Superblock, d: Disk, g: Ghost, ino: nat)
    requires Inv(sb, d, g) && ino in g.view && |g.view[ino].addrs| == NDIRECT + 1 && g.view[ino].addrs[NDIRECT] != 0
    ensures var p := g.view[ino].addrs[NDIRECT]; p in d && IsAddrs(d[p]) && p in g.own && g.own[p] == Indirect(ino)
  {
    hide BitmapInv, PlacesInv, Backed;
    assert InodeInv(d, g.own, ino, g.view[ino]);
  }

  /** balloc does not touch an indirect block. */
  lemma IndirectKept(sb: Superblock, d0: Disk, g0: Ghost, b: nat, d1: Disk)
    requires Inv(sb, d0, g0) && b in g0.own && g0.own[b] == Free && BitSet(sb, d0, b, true, d1)
    ensures forall q :: q in g0.own && g0.own[q].Indirect? ==> q in d1 && q in d0 && d1[q] == d0[q]
  {
    hide PlacesInv, InodeInv, Backed;
    BitmapBlockOf(sb, d0, g0.own, b);
    forall q | q in g0.own && g0.own[q].Indirect?
      ensures q in d1 && q in d0 && d1[q] == d0[q]
    {
      assert BitOk(sb, d0, g0.own, q);
    }
  }

  lemma AttachExtends(sb: Superblock, d0: Disk, g0: Ghost, d1: Disk, g1: Ghost, ino: nat, b: nat, bn: nat)
    requires Inv(sb, d0, g0) && Inv(sb, d1, g1) && ino in g0.view && ino in g1.view
    requires |g0.view[ino].addrs| == |g1.view[ino].addrs| == NDIRECT + 1
    requires g1.view == g0.view[ino := g1.view[ino]] && g1.view[ino].size == g0.view[ino].size
    requires b in g0.own && g0.own[b] == Taken && b in g1.own && g1.own == g0.own[b := g1.own[b]]
    requires MoreAddrs(d0, g0.view[ino], d1, g1.view[ino], bn)
    requires g0.view[ino].addrs[NDIRECT] != 0 ==> g1.view[ino].addrs[NDIRECT] == g0.view[ino].addrs[NDIRECT]
    requires d1 == d0 || (g0.view[ino].addrs[NDIRECT] != 0 && g0.view[ino].addrs[NDIRECT] in d1
               && d1 == d0[g0.view[ino].addrs[NDIRECT] := d1[g0.view[ino].addrs[NDIRECT]]])
    ensures Extended(d0, g0, d1, g1, ino, bn)
  {
    hide Inv, AddrOf;
    ExtendedRefl(sb, d0, g0, ino, bn);
    if d1 != d0 {
      IndirectBlock(sb, d0, g0, ino);
    }
    var p := g0.view[ino].addrs[NDIRECT];
    OthersFrame(sb, d0, g0, d1, g1.own, if d1 == d0 then {b} else {b, p}, ino);
  }

  lemma NotZeroFree(sb: Superblock, disk: Disk, g: Ghost, b: nat)
    requires Inv(sb, disk, g) && b in g.own && g.own[b] == Free
    ensures b != 0
  {
  }
}
