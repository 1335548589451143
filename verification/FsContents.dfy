/** readi and writei (kernel/fs.c) and filewrite's loop (kernel/file.c): files as sequences of
    bytes, and how many blocks one chunk of a write logs. */
module FsContents {
  import opened Params
  import opened Sequences
  import opened FsBlocks
  import opened FsCode
  import opened FsSpace

  const U32: nat := 0x1_0000_0000

  /** Byte k of a file; 0 where there is no block. */
  ghost function FileByte(d: Disk, ip: Inode, k: nat): nat
    requires |ip.addrs| == NDIRECT + 1
  {
    var a := AddrOf(d, ip, k / BSIZE);
    if a != 0 && a in d && IsBytes(d[a]) then BytesOf(d[a])[k % BSIZE] else 0
  }

  ghost predicate OthersBytes(d0: Disk, d1: Disk, view: map<nat, Inode>, ino: nat) {
    forall x :: x in view && x != ino ==> |view[x].addrs| == NDIRECT + 1 && SameBytes(d0, d1, view[x])
  }

  ghost predicate SameBytes(d0: Disk, d1: Disk, ip: Inode)
    requires |ip.addrs| == NDIRECT + 1
  {
    forall k: nat :: k < MAXFILE * BSIZE ==> FileByte(d1, ip, k) == FileByte(d0, ip, k)
  }

  ghost predicate BytesStored(d0: Disk, ip0: Inode, d1: Disk, ip1: Inode, off: nat, bytes: seq<nat>)
    requires |ip0.addrs| == |ip1.addrs| == NDIRECT + 1
  {
    forall k: nat :: k < MAXFILE * BSIZE ==>
      FileByte(d1, ip1, k) == if off <= k < off + |bytes| then bytes[k - off] else FileByte(d0, ip0, k)
  }

  ghost predicate BlocksKept(d0: Disk, ip0: Inode, d1: Disk, ip1: Inode)
    requires |ip0.addrs| == |ip1.addrs| == NDIRECT + 1
  {
    forall n: nat :: n < MAXFILE && AddrOf(d0, ip0, n) != 0 ==> AddrOf(d1, ip1, n) == AddrOf(d0, ip0, n)
  }

  ghost predicate Covered(d: Disk, ip: Inode, off: nat, len: nat)
    requires |ip.addrs| == NDIRECT + 1
  {
    forall k: nat :: off <= k < off + len ==> k / BSIZE < MAXFILE && AddrOf(d, ip, k / BSIZE) != 0
  }

  /** File ino holds `bytes` from off on; no other byte of any file changed, no file lost a
      block, and the sizes are as they were. */
  ghost predicate Spliced(d0: Disk, g0: Ghost, d1: Disk, g1: Ghost, ino: nat, off: nat, bytes: seq<nat>) {
    && ino in g0.view && ino in g1.view && |g0.view[ino].addrs| == |g1.view[ino].addrs| == NDIRECT + 1
    && g1.view == g0.view[ino := g1.view[ino]] && g1.view[ino].size == g0.view[ino].size
    && BytesStored(d0, g0.view[ino], d1, g1.view[ino], off, bytes) && BlocksKept(d0, g0.view[ino], d1, g1.view[ino])
    && Covered(d1, g1.view[ino], off, |bytes|) && OthersBytes(d0, d1, g0.view, ino)
  }

  lemma SplicedNone(sb: Superblock, d: Disk, g: Ghost, ino: nat, off: nat)
    requires Inv(sb, d, g) && ino in g.view
    ensures Spliced(d, g, d, g, ino, off, [])
  {
    hide BitmapInv, PlacesInv, Backed, AddrOf, FileByte;
  }

  /** Blocks kept in place with their contents give the same byte. */
  lemma ByteKept(sb: Superblock, d0: Disk, g0: Ghost, d1: Disk, o1: map<nat, Use>, x: nat, ip1: Inode, k: nat)
    requires Inv(sb, d0, g0) && x in g0.view && |g0.view[x].addrs| == |ip1.addrs| == NDIRECT + 1 && k / BSIZE < MAXFILE
    requires FilesKept(d0, g0.own, d1, o1) && AddrOf(d1, ip1, k / BSIZE) == AddrOf(d0, g0.view[x], k / BSIZE)
    ensures FileByte(d1, ip1, k) == FileByte(d0, g0.view[x], k)
  {
    hide Inv, AddrOf;
    if AddrOf(d0, g0.view[x], k / BSIZE) != 0 {
      MappedBlock(sb, d0, g0, x, k / BSIZE);
    }
  }

  /** bmap changes no byte: a block it adds holds zeros. */
  lemma BmapBytes(sb: Superblock, d0: Disk, g0: Ghost, d1: Disk, g1: Ghost, ino: nat, bn: nat, off: nat)
    requires Inv(sb, d0, g0) && Extended(d0, g0, d1, g1, ino, bn) && bn < MAXFILE
    requires AddrOf(d0, g0.view[ino], bn) == 0 ==> AddrOf(d1, g1.view[ino], bn) in d1
    requires AddrOf(d0, g0.view[ino], bn) == 0 ==> d1[AddrOf(d1, g1.view[ino], bn)] == Zero
    ensures Spliced(d0, g0, d1, g1, ino, off, [])
  {
    hide Inv, AddrOf;
    forall k: nat | k < MAXFILE * BSIZE
      ensures FileByte(d1, g1.view[ino], k) == FileByte(d0, g0.view[ino], k)
    {
      BlockIndex(k);
      if k / BSIZE != bn || AddrOf(d0, g0.view[ino], k / BSIZE) != 0 {
        ByteKept(sb, d0, g0, d1, g1.own, ino, g1.view[ino], k);
      }
    }
    hide FileByte;
    forall x | x in g0.view && x != ino
      ensures |g0.view[x].addrs| == NDIRECT + 1 && SameBytes(d0, d1, g0.view[x])
    {
      forall k: nat | k < MAXFILE * BSIZE
        ensures FileByte(d1, g0.view[x], k) == FileByte(d0, g0.view[x], k)
      {
        BlockIndex(k);
        ByteKept(sb, d0, g0, d1, g1.own, x, g0.view[x], k);
      }
    }
  }

  lemma BlockIndex(k: nat)
    requires k < MAXFILE * BSIZE
    ensures k / BSIZE < MAXFILE
  {
  }

  lemma SameBlock(off: nat, k: nat)
    ensures k / BSIZE == off / BSIZE ==> k - off == k % BSIZE - off % BSIZE
    ensures off <= k < off + BSIZE - off % BSIZE ==> k / BSIZE == off / BSIZE
  {
  }

  /** Storing a chunk in the block of file ino that holds offset off. */
  lemma StoreBytes(sb: Superblock, d0: Disk, g: Ghost, ino: nat, off: nat, chunk: seq<nat>, addr: nat, d1: Disk)
    requires Inv(sb, d0, g) && ino in g.view && |g.view[ino].addrs| == NDIRECT + 1 && off / BSIZE < MAXFILE
    requires addr == AddrOf(d0, g.view[ino], off / BSIZE) && addr != 0 && addr in d0 && IsBytes(d0[addr])
    requires |BytesOf(d0[addr])| == BSIZE
    requires off % BSIZE + |chunk| <= BSIZE && d1 == d0[addr := Bytes(Splice(BytesOf(d0[addr]), off % BSIZE, chunk))]
    requires forall x :: x in g.view ==> |g.view[x].addrs| == NDIRECT + 1 && SameAddrs(d0, d1, g.view[x])
    ensures BytesStored(d0, g.view[ino], d1, g.view[ino], off, chunk) && OthersBytes(d0, d1, g.view, ino)
  {
    hide Inv, AddrOf;
    forall x, k: nat | x in g.view && k < MAXFILE * BSIZE
      ensures FileByte(d1, g.view[x], k) ==
              if x == ino && off <= k < off + |chunk| then chunk[k - off] else FileByte(d0, g.view[x], k)
    {
      BlockIndex(k);
      SameBlock(off, k);
      StoredByte(sb, d0, g, ino, off, chunk, addr, d1, x, k);
    }
    hide FileByte;
  }

  lemma StoredByte(sb: Superblock, d0: Disk, g: Ghost, ino: nat, off: nat, chunk: seq<nat>, addr: nat, d1: Disk,
                   x: nat, k: nat)
    requires Inv(sb, d0, g) && ino in g.view && x in g.view && |g.view[ino].addrs| == |g.view[x].addrs| == NDIRECT + 1
    requires off / BSIZE < MAXFILE && k / BSIZE < MAXFILE
    requires addr == AddrOf(d0, g.view[ino], off / BSIZE) && addr != 0 && addr in d0 && IsBytes(d0[addr])
    requires |BytesOf(d0[addr])| == BSIZE
    requires off % BSIZE + |chunk| <= BSIZE && d1 == d0[addr := Bytes(Splice(BytesOf(d0[addr]), off % BSIZE, chunk))]
    requires AddrOf(d1, g.view[x], k / BSIZE) == AddrOf(d0, g.view[x], k / BSIZE)
    requires k / BSIZE == off / BSIZE ==> k - off == k % BSIZE - off % BSIZE
    requires off <= k < off + BSIZE - off % BSIZE ==> k / BSIZE == off / BSIZE
    ensures FileByte(d1, g.view[x], k) ==
            if x == ino && off <= k < off + |chunk| then chunk[k - off] else FileByte(d0, g.view[x], k)
  {
    hide Inv, AddrOf;
    MappedBlock(sb, d0, g, ino, off / BSIZE);
    if AddrOf(d0, g.view[x], k / BSIZE) != 0 {
      MappedBlock(sb, d0, g, x, k / BSIZE);
    }
  }

  lemma CoveredMore(d1: Disk, ip1: Inode, d3: Disk, ip3: Inode, off: nat, m: nat, n: nat)
    requires |ip1.addrs| == |ip3.addrs| == NDIRECT + 1 && Covered(d1, ip1, off, m) && Covered(d3, ip3, off + m, n)
    requires forall x: nat :: x < MAXFILE && AddrOf(d1, ip1, x) != 0 ==> AddrOf(d3, ip3, x) != 0
    ensures Covered(d3, ip3, off, m + n)
  {
    hide AddrOf;
  }

  lemma SplicedTrans(d0: Disk, g0: Ghost, d1: Disk, g1: Ghost, d2: Disk, g2: Ghost, ino: nat, off: nat, done: seq<nat>,
                     chunk: seq<nat>)
    requires Spliced(d0, g0, d1, g1, ino, off, done) && Spliced(d1, g1, d2, g2, ino, off + |done|, chunk)
    ensures Spliced(d0, g0, d2, g2, ino, off, done + chunk)
  {
    hide AddrOf, FileByte;
    assert g2.view == g0.view[ino := g2.view[ino]];
    assert OthersBytes(d0, d2, g0.view, ino) by {
      forall x | x in g0.view && x != ino
        ensures |g0.view[x].addrs| == NDIRECT + 1 && SameBytes(d0, d2, g0.view[x])
      {
        assert g1.view[x] == g0.view[x];
      }
    }
    hide OthersBytes;
    assert BytesStored(d0, g0.view[ino], d2, g2.view[ino], off, done + chunk);
    hide BytesStored;
    CoveredMore(d1, g1.view[ino], d2, g2.view[ino], off, |done|, |chunk|);
  }

  // ----- writei -----

  /** What a round of writei's loop does, with a chunk that is whole or not: it, or nothing if the buffer
      is lost, is stored at off; the block is at addr, where it was if it was; what is logged; no other
      block of the file moves; and the free blocks have paid. */
  ghost predicate BlockPut(d0: Disk, g0: Ghost, l0: set<nat>, d: Disk, g: Ghost, l: set<nat>, ino: nat, off: nat,
                           whole: bool, chunk: seq<nat>, lost: bool, addr: nat, bits: seq<nat>) {
    && ino in g0.view && ino in g.view && |g0.view[ino].addrs| == |g.view[ino].addrs| == NDIRECT + 1
    && Spliced(d0, g0, d, g, ino, off, if lost && addr !in l then [] else chunk)
    && var ip0, ip, bn := g0.view[ino], g.view[ino], off / BSIZE;
       && AddrOf(d, ip, bn) == addr && l0 <= l && AddrOf(d0, ip0, bn) in {0, addr}
       && LoggedBy(l0, l, addr, bits, ip.addrs[NDIRECT])
       && |bits| <= NewData(d0, ip0, bn) + NewIndirect(ip0, ip) && StillIndirect(ip0, ip)
       && (addr in l <==> whole || AddrOf(d0, ip0, bn) == 0 || addr in l0)
       && Apart(d0, ip0, l0, d, ip, l, bn) && Only(d0, d, l + if chunk == [] then {} else {addr})
       && Grew(d0, g0, d, g, ino, bn, bn + 1)
  }

  /** The first half of the body of writei's loop: the block at offset off, found or allocated, and
      logged if a whole chunk was copied. Returns 0 where the kernel panics for lack of blocks. */
  method MapBlock(fs: FileSystem, ino: nat, off: nat, whole: bool) returns (addr: nat, ghost bits: seq<nat>)
    requires fs.Busy(ino) && off / BSIZE < MAXFILE && |fs.g.view[ino].addrs| == NDIRECT + 1
    modifies fs`disk, fs`inodes, fs`g, fs`logged
    ensures addr == 0 ==> NoFree(fs.g.own)
    ensures addr != 0 <==>
              NewBlocks(old(fs.disk), old(fs.g.view[ino]), off / BSIZE, off / BSIZE + 1) <= FreeCount(old(fs.g.own))
    ensures addr != 0 ==> fs.Busy(ino) && ino in fs.g.view && FileBlock(fs.disk, fs.g.own, ino, off / BSIZE, addr)
    ensures addr != 0 ==>
              BlockPut(old(fs.disk), old(fs.g), old(fs.logged), fs.disk, fs.g, fs.logged, ino, off, whole, [], false,
                       addr, bits)
  {
    hide Inv, Extended, Spliced, AddrOf, Only, FileBlock, Apart, LoggedBy, NewLogs, BmapBits, SameAddrs;
    hide FreeCount, NewBlocks, BlocksFor, Grew, IndirectWith, BlockPut, StillIndirect;
    BlockCost(fs.disk, fs.g.view[ino], off / BSIZE);
    addr := fs.Bmap(ino, off / BSIZE);
    if addr == 0 {
      bits := [];
      return;
    }
    ghost var d0, g0, ip := old(fs.disk), old(fs.g), fs.g.view[ino];
    ExtendedFacts(d0, g0, fs.disk, fs.g, ino, off / BSIZE);
    Mapped(fs.disk, fs.g.own, ino, off / BSIZE, addr);
    BmapBytes(fs.sb, d0, g0, fs.disk, fs.g, ino, off / BSIZE, off);
    bits := BmapBits(fs.sb, d0, g0.view[ino], ip, off / BSIZE, addr);
    AddrLogged(fs.sb, g0.view[ino], ip, off / BSIZE, addr);
    if whole {
      fs.logged := fs.logged + {addr};
    }
    HasIndirect(fs.disk, ip, off / BSIZE);
    BmapApart(fs.sb, d0, g0, old(fs.logged), fs.disk, fs.g, fs.logged, ino, off / BSIZE, addr);
    BmapLoggedBy(fs.sb, d0, g0.view[ino], old(fs.logged), ip, fs.logged, off / BSIZE, addr);
    BmapOnly(fs.sb, d0, g0.view[ino], fs.disk, ip, off / BSIZE, addr, old(fs.logged), fs.logged);
    BlockGrew(d0, g0, old(fs.logged), fs.disk, fs.g, fs.logged, ino, off / BSIZE);
    assert fs.logged + {} == fs.logged;
    IsBlockPut(d0, g0, old(fs.logged), fs.disk, fs.g, fs.logged, ino, off, whole, [], false, addr, bits);
  }

  /** The body of writei's loop: the block at offset off, found or allocated, receives what
      could be copied of an m-byte chunk, and is logged if that was all of it. If it was not, the
      buffer is released changed. `lost` says whether a buffer that is not logged either is
      recycled before something logs it. Returns 0 where the kernel panics for lack of blocks. */
  method PutBlock(fs: FileSystem, ino: nat, off: nat, m: nat, chunk: seq<nat>, lost: bool)
      returns (addr: nat, ghost bits: seq<nat>)
    requires fs.Busy(ino) && off / BSIZE < MAXFILE && off % BSIZE + m <= BSIZE && |chunk| <= m
    requires |fs.g.view[ino].addrs| == NDIRECT + 1
    modifies fs`disk, fs`inodes, fs`g, fs`logged
    ensures addr == 0 ==> NoFree(fs.g.own)
    ensures addr != 0 <==>
              NewBlocks(old(fs.disk), old(fs.g.view[ino]), off / BSIZE, off / BSIZE + 1) <= FreeCount(old(fs.g.own))
    ensures addr != 0 ==> fs.Busy(ino)
    ensures addr != 0 ==>
              BlockPut(old(fs.disk), old(fs.g), old(fs.logged), fs.disk, fs.g, fs.logged, ino, off, |chunk| == m, chunk,
                       lost, addr, bits)
  {
    hide Inv, FileBlock, FreeCount, NewBlocks, BlockPut, NoFree;
    addr, bits := MapBlock(fs, ino, off, |chunk| == m);
    if addr == 0 {
      return;
    }
    ghost var d := fs.disk;
    Mapped(d, fs.g.own, ino, off / BSIZE, addr);
    var kept := if lost && addr !in fs.logged then [] else chunk;
    if kept != [] {
      fs.disk := fs.disk[addr := Bytes(Splice(BytesOf(fs.disk[addr]), off % BSIZE, kept))];
    }
    ChunkStored(fs.sb, old(fs.disk), old(fs.g), old(fs.logged), d, fs.g, fs.logged, ino, off, |chunk| == m, chunk, lost,
                addr, bits, kept, fs.disk);
  }

  /** Storing the chunk in the block that bmap found. */
  lemma ChunkStored(sb: Superblock, d0: Disk, g0: Ghost, l0: set<nat>, d1: Disk, g: Ghost, l: set<nat>, ino: nat,
                    off: nat, whole: bool, chunk: seq<nat>, lost: bool, addr: nat, bits: seq<nat>, kept: seq<nat>,
                    d2: Disk)
    requires Inv(sb, d1, g) && off / BSIZE < MAXFILE && off % BSIZE + |chunk| <= BSIZE && addr != 0
    requires BlockPut(d0, g0, l0, d1, g, l, ino, off, whole, [], false, addr, bits)
    requires addr in d1 && IsBytes(d1[addr]) && |BytesOf(d1[addr])| == BSIZE && addr in g.own && g.own[addr].File?
    requires kept == if lost && addr !in l then [] else chunk
    requires d2 == if kept == [] then d1 else d1[addr := Bytes(Splice(BytesOf(d1[addr]), off % BSIZE, kept))]
    ensures Inv(sb, d2, g) && BlockPut(d0, g0, l0, d2, g, l, ino, off, whole, chunk, lost, addr, bits)
  {
    hide Inv, Spliced, AddrOf, LoggedBy, StillIndirect, NewData, NewIndirect, Apart, Only, Grew, SameAddrs, Gained;
    assert l + {} == l;
    if kept != [] {
      StoreKept(sb, d1, g, ino, off, kept, addr, d2);
      SplicedTrans(d0, g0, d1, g, d2, g, ino, off, [], kept);
      assert [] + kept == kept;
      StoreApart(d0, g0.view[ino], l0, d1, g.view[ino], d2, l, off / BSIZE);
      GrewStore(d0, g0, d1, d2, g, ino, off / BSIZE, off / BSIZE + 1);
    }
    StoreOnly(d0, d1, d2, l, addr, chunk != []);
  }

  lemma GrewStore(d0: Disk, g0: Ghost, d1: Disk, d2: Disk, g: Ghost, ino: nat, lo: nat, hi: nat)
    requires Grew(d0, g0, d1, g, ino, lo, hi) && SameAddrs(d1, d2, g.view[ino])
    ensures Grew(d0, g0, d2, g, ino, lo, hi)
  {
    hide AddrOf, FreeCount, NewBlocks;
  }

  lemma IsBlockPut(d0: Disk, g0: Ghost, l0: set<nat>, d: Disk, g: Ghost, l: set<nat>, ino: nat, off: nat, whole: bool,
                   chunk: seq<nat>, lost: bool, addr: nat, bits: seq<nat>)
    requires ino in g0.view && ino in g.view && |g0.view[ino].addrs| == |g.view[ino].addrs| == NDIRECT + 1
    requires Spliced(d0, g0, d, g, ino, off, if lost && addr !in l then [] else chunk)
    requires AddrOf(d, g.view[ino], off / BSIZE) == addr && l0 <= l
    requires var a := AddrOf(d0, g0.view[ino], off / BSIZE);
             a in {0, addr} && (addr in l <==> whole || a == 0 || addr in l0)
    requires LoggedBy(l0, l, addr, bits, g.view[ino].addrs[NDIRECT]) && StillIndirect(g0.view[ino], g.view[ino])
    requires |bits| <= NewData(d0, g0.view[ino], off / BSIZE) + NewIndirect(g0.view[ino], g.view[ino])
    requires Apart(d0, g0.view[ino], l0, d, g.view[ino], l, off / BSIZE)
    requires Only(d0, d, l + if chunk == [] then {} else {addr})
    requires Grew(d0, g0, d, g, ino, off / BSIZE, off / BSIZE + 1)
    ensures BlockPut(d0, g0, l0, d, g, l, ino, off, whole, chunk, lost, addr, bits)
  {
    hide Spliced, AddrOf, LoggedBy, StillIndirect, NewData, NewIndirect, Apart, Only, Grew;
  }

  lemma BlockCost(d: Disk, ip: Inode, bn: nat)
    requires |ip.addrs| == NDIRECT + 1
    ensures NewBlocks(d, ip, bn, bn + 1) == BlocksFor(d, ip, bn)
  {
    hide AddrOf;
    if bn >= NDIRECT && ip.addrs[NDIRECT] == 0 {
      NoIndirectNoBlock(d, ip, bn);
    }
    OneBlock(d, ip, bn);
  }

  lemma BlockGrew(d0: Disk, g0: Ghost, l0: set<nat>, d1: Disk, g1: Ghost, l1: set<nat>, ino: nat, bn: nat)
    requires ino in g0.view && ino in g1.view && |g0.view[ino].addrs| == |g1.view[ino].addrs| == NDIRECT + 1
    requires Apart(d0, g0.view[ino], l0, d1, g1.view[ino], l1, bn) && AddrOf(d1, g1.view[ino], bn) != 0
    requires IndirectWith(g0.view[ino], g1.view[ino], bn)
    requires FreeCount(g1.own) + BlocksFor(d0, g0.view[ino], bn) == FreeCount(g0.own)
    ensures Grew(d0, g0, d1, g1, ino, bn, bn + 1)
  {
    hide AddrOf, FreeCount;
    BlockCost(d0, g0.view[ino], bn);
    forall k: nat {:trigger AddrOf(d1, g1.view[ino], k)} | k < MAXFILE
      ensures AddrOf(d1, g1.view[ino], k) != 0 <==> AddrOf(d0, g0.view[ino], k) != 0 || bn <= k < bn + 1
    {
      if k != bn {
        assert SameJournal(d0, g0.view[ino], l0, d1, g1.view[ino], l1, k);
      }
    }
  }

  lemma AddrLogged(sb: Superblock, ip0: Inode, ip: Inode, bn: nat, addr: nat)
    requires |ip0.addrs| == |ip.addrs| == NDIRECT + 1
    ensures addr in NewLogs(sb, ip0, ip, bn, addr)
  {
  }

  lemma HasIndirect(d: Disk, ip: Inode, n: nat)
    requires |ip.addrs| == NDIRECT + 1 && AddrOf(d, ip, n) != 0
    ensures n >= NDIRECT ==> ip.addrs[NDIRECT] != 0
  {
  }

  lemma Mapped(d: Disk, own: map<nat, Use>, ino: nat, n: nat, addr: nat)
    requires FileBlock(d, own, ino, n, addr)
    ensures addr in d && IsBytes(d[addr]) && |BytesOf(d[addr])| == BSIZE && addr in own && own[addr] == File(ino, n)
  {
    BytesLength(d[addr]);
  }

  lemma StoreKept(sb: Superblock, d: Disk, g: Ghost, ino: nat, off: nat, kept: seq<nat>, addr: nat, d': Disk)
    requires Inv(sb, d, g) && ino in g.view && |g.view[ino].addrs| == NDIRECT + 1 && off / BSIZE < MAXFILE
    requires addr == AddrOf(d, g.view[ino], off / BSIZE) && addr != 0 && addr in d && IsBytes(d[addr])
    requires |BytesOf(d[addr])| == BSIZE && addr in g.own && g.own[addr].File?
    requires off % BSIZE + |kept| <= BSIZE && d' == d[addr := Bytes(Splice(BytesOf(d[addr]), off % BSIZE, kept))]
    ensures Inv(sb, d', g) && Spliced(d, g, d', g, ino, off, kept) && SameAddrs(d, d', g.view[ino])
    ensures AddrOf(d', g.view[ino], off / BSIZE) == addr
  {
    hide Inv, BytesStored, OthersBytes, Covered, AddrOf;
    WriteFileBlock(sb, d, g, addr, d'[addr], d');
    StoreBytes(sb, d, g, ino, off, kept, addr, d');
    ChunkCovered(d, d', g.view[ino], off, |kept|);
  }

  /** The blocks of the file other than block bn are where they were, and logged if they were. */
  ghost predicate Apart(d0: Disk, ip0: Inode, l0: set<nat>, d: Disk, ip: Inode, l: set<nat>, bn: nat)
    requires |ip0.addrs| == |ip.addrs| == NDIRECT + 1
  {
    forall k: nat :: k < MAXFILE && k != bn ==> SameJournal(d0, ip0, l0, d, ip, l, k)
  }

  ghost predicate SameJournal(d0: Disk, ip0: Inode, l0: set<nat>, d: Disk, ip: Inode, l: set<nat>, k: nat)
    requires |ip0.addrs| == |ip.addrs| == NDIRECT + 1
  {
    var a := AddrOf(d0, ip0, k);
    AddrOf(d, ip, k) == a && (a != 0 ==> (a in l <==> a in l0))
  }

  /** l1 is l0 and what bmap logged for block bn, and perhaps the block itself. */
  ghost predicate BmapLogged(sb: Superblock, d0: Disk, ip0: Inode, l0: set<nat>, ip: Inode, l: set<nat>, bn: nat,
                             addr: nat)
    requires |ip0.addrs| == |ip.addrs| == NDIRECT + 1
  {
    var more := if AddrOf(d0, ip0, bn) == 0 then NewLogs(sb, ip0, ip, bn, addr) else {};
    l0 + more <= l <= l0 + more + {addr}
  }

  /** What bmap logs besides block bn is in no file. */
  lemma NewLogsUse(sb: Superblock, d0: Disk, g0: Ghost, ip: Inode, ino: nat, bn: nat, addr: nat)
    requires Inv(sb, d0, g0) && ino in g0.view && StillIndirect(g0.view[ino], ip) && WasFree(g0.own, addr)
    requires IndirectFrom(g0.own, g0.view[ino], ip) && (bn >= NDIRECT ==> ip.addrs[NDIRECT] != 0)
    ensures forall q :: q in NewLogs(sb, g0.view[ino], ip, bn, addr) ==> q in g0.own && !g0.own[q].File?
  {
    BitmapBlockOf(sb, d0, g0.own, addr);
    var p := ip.addrs[NDIRECT];
    if NewIndirect(g0.view[ino], ip) > 0 {
      BitmapBlockOf(sb, d0, g0.own, p);
    } else if p != 0 {
      IndirectBlock(sb, d0, g0, ino);
    }
  }

  lemma BmapApart(sb: Superblock, d0: Disk, g0: Ghost, l0: set<nat>, d1: Disk, g1: Ghost, l: set<nat>, ino: nat,
                  bn: nat, addr: nat)
    requires Inv(sb, d0, g0) && Extended(d0, g0, d1, g1, ino, bn) && bn < MAXFILE
    requires addr == AddrOf(d1, g1.view[ino], bn) != 0
    requires BmapLogged(sb, d0, g0.view[ino], l0, g1.view[ino], l, bn, addr)
    requires AddrOf(d0, g0.view[ino], bn) == 0 ==>
               WasFree(g0.own, addr) && IndirectFrom(g0.own, g0.view[ino], g1.view[ino])
    ensures Apart(d0, g0.view[ino], l0, d1, g1.view[ino], l, bn)
  {
    hide Inv;
    var ip0, ip := g0.view[ino], g1.view[ino];
    if AddrOf(d0, ip0, bn) == 0 {
      NewLogsUse(sb, d0, g0, ip, ino, bn, addr);
    } else {
      MappedBlock(sb, d0, g0, ino, bn);
    }
    hide AddrOf, NewLogs;
    forall k: nat | k < MAXFILE && k != bn ensures SameJournal(d0, ip0, l0, d1, ip, l, k) {
      if AddrOf(d0, ip0, k) != 0 {
        MappedBlock(sb, d0, g0, ino, k);
      }
    }
  }

  /** The bitmap blocks that bmap logs. */
  ghost function BmapBits(sb: Superblock, d0: Disk, ip0: Inode, ip: Inode, bn: nat, addr: nat): (bits: seq<nat>)
    requires |ip0.addrs| == |ip.addrs| == NDIRECT + 1
    ensures |bits| <= NewData(d0, ip0, bn) + NewIndirect(ip0, ip)
  {
    if AddrOf(d0, ip0, bn) != 0 then []
    else [BBLOCK(sb, addr)] + if NewIndirect(ip0, ip) > 0 then [BBLOCK(sb, ip.addrs[NDIRECT])] else []
  }

  lemma BmapLoggedBy(sb: Superblock, d0: Disk, ip0: Inode, l0: set<nat>, ip: Inode, l: set<nat>, bn: nat, addr: nat)
    requires |ip0.addrs| == |ip.addrs| == NDIRECT + 1 && (bn >= NDIRECT ==> ip.addrs[NDIRECT] != 0)
    requires BmapLogged(sb, d0, ip0, l0, ip, l, bn, addr)
    ensures LoggedBy(l0, l, addr, BmapBits(sb, d0, ip0, ip, bn, addr), ip.addrs[NDIRECT])
  {
    hide AddrOf;
  }

  lemma BmapOnly(sb: Superblock, d0: Disk, ip0: Inode, d1: Disk, ip: Inode, bn: nat, addr: nat, l0: set<nat>,
                 l: set<nat>)
    requires |ip0.addrs| == |ip.addrs| == NDIRECT + 1
    requires BmapLogged(sb, d0, ip0, l0, ip, l, bn, addr)
    requires if AddrOf(d0, ip0, bn) == 0 then Only(d0, d1, NewLogs(sb, ip0, ip, bn, addr)) else d1 == d0
    ensures Only(d0, d1, l)
  {
    hide AddrOf, NewLogs;
  }

  lemma StoreApart(d0: Disk, ip0: Inode, l0: set<nat>, d1: Disk, ip: Inode, d2: Disk, l: set<nat>, bn: nat)
    requires |ip0.addrs| == |ip.addrs| == NDIRECT + 1 && Apart(d0, ip0, l0, d1, ip, l, bn) && SameAddrs(d1, d2, ip)
    ensures Apart(d0, ip0, l0, d2, ip, l, bn)
  {
    hide AddrOf;
    forall k: nat | k < MAXFILE && k != bn ensures SameJournal(d0, ip0, l0, d2, ip, l, k) {
      assert SameJournal(d0, ip0, l0, d1, ip, l, k);
    }
  }

  lemma StoreOnly(d0: Disk, d1: Disk, d2: Disk, l: set<nat>, addr: nat, stored: bool)
    requires Only(d0, d1, l) && (d2 == d1 || (stored && addr in d1 && addr in d2 && d2 == d1[addr := d2[addr]]))
    ensures Only(d0, d2, l + if stored then {addr} else {})
  {
  }

  /** A chunk of a write logs the block it is stored in, bitmap blocks and the indirect block. */
  ghost predicate LoggedBy(l0: set<nat>, l1: set<nat>, addr: nat, bits: seq<nat>, p: nat) {
    forall b :: b in l1 ==> b in l0 || b == addr || b in bits || (p != 0 && b == p)
  }

  predicate StillIndirect(ip: Inode, ip': Inode) {
    |ip.addrs| == |ip'.addrs| == NDIRECT + 1 && (ip.addrs[NDIRECT] != 0 ==> ip'.addrs[NDIRECT] == ip.addrs[NDIRECT])
  }

  lemma ExtendedFacts(d0: Disk, g0: Ghost, d1: Disk, g1: Ghost, ino: nat, bn: nat)
    requires Extended(d0, g0, d1, g1, ino, bn)
    ensures ino in g0.view && ino in g1.view && StillIndirect(g0.view[ino], g1.view[ino])
    ensures g1.view == g0.view[ino := g1.view[ino]] && g1.view[ino].size == g0.view[ino].size
  {
  }

  lemma BytesLength(blk: Block)
    requires IsBytes(blk)
    ensures |BytesOf(blk)| == BSIZE
  {
  }

  lemma ChunkCovered(d: Disk, d': Disk, ip: Inode, off: nat, len: nat)
    requires |ip.addrs| == NDIRECT + 1 && off / BSIZE < MAXFILE && off % BSIZE + len <= BSIZE
    requires AddrOf(d, ip, off / BSIZE) != 0
    requires SameAddrs(d, d', ip)
    ensures Covered(d', ip, off, len)
  {
    hide AddrOf;
    forall k: nat | off <= k < off + len
      ensures k / BSIZE < MAXFILE && AddrOf(d', ip, k / BSIZE) != 0
    {
      SameBlock(off, k);
    }
  }

  // ----- How much one write logs -----

  /** What has been logged since l0: blocks of data, bitmap blocks, the indirect block. */
  ghost predicate LogIs(l0: set<nat>, l: set<nat>, touched: seq<nat>, bits: seq<nat>, ip: Inode)
    requires |ip.addrs| == NDIRECT + 1
  {
    forall b :: b in l ==> b in l0 || b in touched || b in bits || (ip.addrs[NDIRECT] != 0 && b == ip.addrs[NDIRECT])
  }

  lemma LogMore(l0: set<nat>, l1: set<nat>, l2: set<nat>, touched: seq<nat>, bits: seq<nat>, ip1: Inode, ip2: Inode,
                addr: nat, more: seq<nat>)
    requires StillIndirect(ip1, ip2) && LogIs(l0, l1, touched, bits, ip1)
    requires LoggedBy(l1, l2, addr, more, ip2.addrs[NDIRECT])
    ensures LogIs(l0, l2, touched + [addr], bits + more, ip2)
  {
  }

  /** touched blocks so far, of which at most `added` were new, when tot of n bytes from off
      are done. A block that holds a byte before off is not new. */
  ghost predicate Counted(off: nat, n: nat, tot: nat, touched: nat, added: nat) {
    && tot <= n && added <= touched && (off % BSIZE != 0 && touched > 0 ==> added <= touched - 1)
    && (touched == 0 <==> tot == 0)
    && (tot > 0 ==> touched == (off + tot - 1) / BSIZE - off / BSIZE + 1 && (tot < n ==> (off + tot) % BSIZE == 0))
  }

  lemma CountMore(off: nat, n: nat, tot: nat, touched: nat, added: nat, m: nat, isNew: nat)
    requires Counted(off, n, tot, touched, added) && tot < n && isNew <= 1
    requires m == if n - tot < BSIZE - (off + tot) % BSIZE then n - tot else BSIZE - (off + tot) % BSIZE
    requires tot == 0 && off % BSIZE != 0 ==> isNew == 0
    ensures 0 < m && tot + m <= n && Counted(off, n, tot + m, touched + 1, added + isNew)
  {
    var k := off + tot;
    assert k / BSIZE * BSIZE + k % BSIZE == k;
    assert (k + m - 1) / BSIZE == k / BSIZE;
    if tot > 0 {
      assert (k - 1) / BSIZE + 1 == k / BSIZE;
    }
    if tot + m < n {
      assert (k + m) % BSIZE == 0;
    }
  }

  /** Three blocks' worth of bytes touches at most four blocks, three if aligned. */
  lemma SpanBound(off: nat, n: nat, tot: nat, touched: nat, added: nat)
    requires Counted(off, n, tot, touched, added) && n <= 3 * BSIZE
    ensures touched <= 4 && added <= 3
  {
    if tot > 0 {
      var q := off / BSIZE;
      assert off == q * BSIZE + off % BSIZE;
    }
  }

  lemma IndirectOnce(ip0: Inode, ip1: Inode, ip2: Inode)
    requires StillIndirect(ip0, ip1) && StillIndirect(ip1, ip2)
    ensures StillIndirect(ip0, ip2) && NewIndirect(ip0, ip1) + NewIndirect(ip1, ip2) <= NewIndirect(ip0, ip2) <= 1
  {
  }

  /** writei refuses the range. */
  predicate Refused(size: nat, off: nat, n: nat) {
    off > size || (off + n) % U32 < off || off + n > MAXFILE * BSIZE
  }

  /** The block that holds a byte before the end of the file exists. */
  lemma FirstBlock(sb: Superblock, d: Disk, g: Ghost, ino: nat, off: nat)
    requires Inv(sb, d, g) && ino in g.view && |g.view[ino].addrs| == NDIRECT + 1 && off <= g.view[ino].size
    ensures off % BSIZE != 0 ==> NewData(d, g.view[ino], off / BSIZE) == 0
  {
    hide BitmapInv, PlacesInv, InodeInv, AddrOf;
    if off % BSIZE != 0 {
      assert off / BSIZE * BSIZE < off;
      assert Backed(d, g.view[ino]);
      assert off / BSIZE < MAXFILE;
    }
  }

  /** The bookkeeping of writei's loop: what has been stored, counted and logged. */
  ghost predicate Progress(d0: Disk, g0: Ghost, l0: set<nat>, d: Disk, g: Ghost, l: set<nat>, ino: nat, off: nat,
                           n: nat, bytes: seq<nat>, counted: nat, touched: seq<nat>, bits: seq<nat>, added: nat) {
    && Spliced(d0, g0, d, g, ino, off, bytes) && Counted(off, n, counted, |touched|, added)
    && StillIndirect(g0.view[ino], g.view[ino]) && LogIs(l0, l, touched, bits, g.view[ino])
    && |bits| <= added + NewIndirect(g0.view[ino], g.view[ino])
  }

  lemma ProgressMore(d0: Disk, g0: Ghost, l0: set<nat>, d1: Disk, g1: Ghost, l1: set<nat>, d2: Disk, g2: Ghost,
                     l2: set<nat>, ino: nat, off: nat, n: nat, done: seq<nat>, touched: seq<nat>, bits: seq<nat>,
                     added: nat, m: nat, chunk: seq<nat>, addr: nat, more: seq<nat>)
    requires Progress(d0, g0, l0, d1, g1, l1, ino, off, n, done, |done|, touched, bits, added) && |done| < n
    requires Spliced(d1, g1, d2, g2, ino, off + |done|, chunk) && StillIndirect(g1.view[ino], g2.view[ino])
    requires LoggedBy(l1, l2, addr, more, g2.view[ino].addrs[NDIRECT])
    requires |more| <= NewData(d1, g1.view[ino], (off + |done|) / BSIZE) + NewIndirect(g1.view[ino], g2.view[ino])
    requires m == if n - |done| < BSIZE - (off + |done|) % BSIZE then n - |done| else BSIZE - (off + |done|) % BSIZE
    requires |done| == 0 && off % BSIZE != 0 ==> NewData(d1, g1.view[ino], off / BSIZE) == 0
    ensures |done| + m <= n
    ensures Progress(d0, g0, l0, d2, g2, l2, ino, off, n, done + chunk, |done| + m, touched + [addr], bits + more,
                     added + NewData(d1, g1.view[ino], (off + |done|) / BSIZE))
  {
    hide BytesStored, BlocksKept, Covered, OthersBytes, AddrOf, Counted, LogIs;
    SplicedTrans(d0, g0, d1, g1, d2, g2, ino, off, done, chunk);
    IndirectOnce(g0.view[ino], g1.view[ino], g2.view[ino]);
    LogMore(l0, l1, l2, touched, bits, g1.view[ino], g2.view[ino], addr, more);
    CountMore(off, n, |done|, |touched|, added, m, NewData(d1, g1.view[ino], (off + |done|) / BSIZE));
  }

  /** How many bytes of an n-byte write at off are in complete chunks when len can be copied:
      all of them, or those up to the last block boundary. */
  function Complete(off: nat, n: nat, len: nat): nat {
    if len >= n then n else if (off + len) / BSIZE * BSIZE <= off then 0 else (off + len) / BSIZE * BSIZE - off
  }

  /** The end of the block that holds offset o. */
  function BlockEnd(o: nat): nat { (o / BSIZE + 1) * BSIZE }

  function Min(a: nat, b: nat): nat { if a < b then a else b }

  /** Chunks end at block boundaries, and the first one that cannot be copied whole is not
      counted, nor is any after it. */
  lemma CompleteChunks(off: nat, n: nat, len: nat, t: nat)
    requires t == Complete(off, n, len)
    ensures len >= n ==> t == n
    ensures len < n ==> t <= len < Min(n, BlockEnd(off + t) - off) && (t == 0 || (off + t) % BSIZE == 0)
  {
    var q := (off + len) / BSIZE;
    assert off + len == q * BSIZE + (off + len) % BSIZE;
    if len < n {
      if q * BSIZE <= off {
        SameBlock(off, off + len);
        assert off / BSIZE == q;
      } else {
        assert (off + t) / BSIZE == q;
      }
    }
  }

  /** The copy fails inside a chunk, after its first byte. */
  predicate Torn(off: nat, n: nat, len: nat) { 0 < len < n && (off + len) % BSIZE != 0 }

  /** When the chunk at tot is incomplete, tot is where complete chunks end. */
  lemma StopsAt(off: nat, n: nat, tot: nat, len: nat, m: nat)
    requires tot <= len < n && len < tot + m && tot < n && (tot == 0 || (off + tot) % BSIZE == 0)
    requires m == if n - tot < BSIZE - (off + tot) % BSIZE then n - tot else BSIZE - (off + tot) % BSIZE
    ensures tot == Complete(off, n, len) && (Torn(off, n, len) <==> tot < len)
    ensures (off + len) / BSIZE == (off + tot) / BSIZE
  {
    var k := off + tot;
    assert k / BSIZE * BSIZE + k % BSIZE == k;
    SameBlock(k, off + len);
    assert (off + len) / BSIZE == k / BSIZE;
    assert (off + len) % BSIZE == k % BSIZE + (len - tot);
  }

  /** Chunks before the last end at block boundaries. */
  lemma AtBoundary(off: nat, n: nat, tot: nat, touched: nat, added: nat)
    requires Counted(off, n, tot, touched, added) && tot < n
    ensures (tot == 0 || (off + tot) % BSIZE == 0) && off / BSIZE + touched == (off + tot) / BSIZE
  {
    if tot > 0 {
      assert (off + tot - 1) / BSIZE + 1 == (off + tot) / BSIZE;
    }
  }

  /** Blocks lo to hi of the file are logged, those from hi on are where they were and logged if
      they were, and only logged blocks have changed. */
  ghost predicate Journal(d0: Disk, ip0: Inode, l0: set<nat>, d: Disk, ip: Inode, l: set<nat>, lo: nat, hi: nat)
    requires |ip0.addrs| == |ip.addrs| == NDIRECT + 1
  {
    && (forall k: nat :: hi <= k < MAXFILE ==> SameJournal(d0, ip0, l0, d, ip, l, k))
    && Behind(d, ip, l, lo, hi) && Only(d0, d, l)
  }

  ghost predicate Behind(d: Disk, ip: Inode, l: set<nat>, lo: nat, hi: nat)
    requires |ip.addrs| == NDIRECT + 1
  {
    forall k: nat :: lo <= k < hi ==> k < MAXFILE && AddrOf(d, ip, k) != 0 && AddrOf(d, ip, k) in l
  }

  lemma JournalStart(d: Disk, ip: Inode, l: set<nat>, lo: nat)
    requires |ip.addrs| == NDIRECT + 1
    ensures Journal(d, ip, l, d, ip, l, lo, lo)
  {
    hide AddrOf;
  }

  /** One chunk more, in block hi. */
  lemma JournalMore(d0: Disk, ip0: Inode, l0: set<nat>, d1: Disk, ip1: Inode, l1: set<nat>, d2: Disk, ip2: Inode,
                    l2: set<nat>, lo: nat, hi: nat, addr: nat, stored: bool)
    requires |ip0.addrs| == |ip1.addrs| == |ip2.addrs| == NDIRECT + 1 && hi < MAXFILE
    requires Journal(d0, ip0, l0, d1, ip1, l1, lo, hi) && Apart(d1, ip1, l1, d2, ip2, l2, hi) && l1 <= l2
    requires AddrOf(d2, ip2, hi) == addr && addr != 0 && Only(d1, d2, l2 + if stored then {addr} else {})
    ensures forall k: nat :: hi < k < MAXFILE ==> SameJournal(d0, ip0, l0, d2, ip2, l2, k)
    ensures Behind(d2, ip2, l2, lo, hi) && Only(d0, d2, l2 + if stored then {addr} else {})
    ensures addr in l2 ==> Journal(d0, ip0, l0, d2, ip2, l2, lo, hi + 1)
  {
    hide AddrOf;
    forall k: nat | hi < k < MAXFILE ensures SameJournal(d0, ip0, l0, d2, ip2, l2, k) {
      assert SameJournal(d0, ip0, l0, d1, ip1, l1, k) && SameJournal(d1, ip1, l1, d2, ip2, l2, k);
    }
    forall k: nat | lo <= k < hi ensures k < MAXFILE && AddrOf(d2, ip2, k) != 0 && AddrOf(d2, ip2, k) in l2 {
      assert SameJournal(d1, ip1, l1, d2, ip2, l2, k);
    }
    OnlyTrans(d0, d1, d2, l1, l2 + if stored then {addr} else {}, l2 + if stored then {addr} else {});
    if addr in l2 {
      assert l2 + {addr} == l2;
    }
  }

  /** A block that was written in part and is in no transaction: the copy fails inside a chunk,
      whose block was there before the call and not logged. */
  ghost predicate Unlogged(d0: Disk, ip0: Inode, l0: set<nat>, off: nat, n: nat, len: nat)
    requires |ip0.addrs| == NDIRECT + 1
  {
    var a := AddrOf(d0, ip0, (off + len) / BSIZE);
    Torn(off, n, len) && a != 0 && a !in l0
  }

  /** Of the blocks of the file that received bytes, exactly that one is not logged, and no
      block but it changed without being logged. */
  ghost predicate Journaled(d0: Disk, ip0: Inode, l0: set<nat>, d: Disk, ip: Inode, l: set<nat>, off: nat, n: nat,
                            len: nat)
    requires |ip0.addrs| == |ip.addrs| == NDIRECT + 1
  {
    && Only(d0, d, l + if Unlogged(d0, ip0, l0, off, n, len) then {AddrOf(d0, ip0, (off + len) / BSIZE)} else {})
    && (len > 0 ==> AllLogged(d, ip, l, off / BSIZE, (off + len - 1) / BSIZE, Unlogged(d0, ip0, l0, off, n, len),
                              (off + len) / BSIZE))
  }

  ghost predicate AllLogged(d: Disk, ip: Inode, l: set<nat>, lo: nat, hi: nat, left: bool, last: nat)
    requires |ip.addrs| == NDIRECT + 1
  {
    forall k: nat :: lo <= k <= hi ==> BlockLogged(d, ip, l, k, left, last)
  }

  /** Block k of the file exists, and is logged unless it is block `last` and that is left out. */
  ghost predicate BlockLogged(d: Disk, ip: Inode, l: set<nat>, k: nat, left: bool, last: nat)
    requires |ip.addrs| == NDIRECT + 1
  {
    k < MAXFILE && AddrOf(d, ip, k) != 0 && (AddrOf(d, ip, k) !in l <==> left && k == last)
  }

  lemma JournaledAll(d0: Disk, ip0: Inode, l0: set<nat>, d: Disk, ip: Inode, l: set<nat>, off: nat, n: nat,
                     touched: nat, added: nat)
    requires |ip0.addrs| == |ip.addrs| == NDIRECT + 1 && Counted(off, n, n, touched, added)
    requires Journal(d0, ip0, l0, d, ip, l, off / BSIZE, off / BSIZE + touched)
    ensures Journaled(d0, ip0, l0, d, ip, l, off, n, n)
  {
    hide AddrOf;
    assert l + {} == l;
    assert !Unlogged(d0, ip0, l0, off, n, n);
    if n > 0 {
      var lo, hi, last := off / BSIZE, (off + n - 1) / BSIZE, (off + n) / BSIZE;
      forall k: nat | lo <= k <= hi ensures BlockLogged(d, ip, l, k, false, last) {
        assert AddrOf(d, ip, k) in l;
      }
    }
  }

  /** The copy failed in block hi. */
  lemma JournaledTorn(d0: Disk, ip0: Inode, l0: set<nat>, d1: Disk, ip1: Inode, l1: set<nat>, d2: Disk, ip2: Inode,
                      l2: set<nat>, off: nat, n: nat, tot: nat, len: nat, hi: nat, addr: nat)
    requires |ip0.addrs| == |ip1.addrs| == |ip2.addrs| == NDIRECT + 1 && hi < MAXFILE
    requires Journal(d0, ip0, l0, d1, ip1, l1, off / BSIZE, hi) && Apart(d1, ip1, l1, d2, ip2, l2, hi) && l1 <= l2
    requires AddrOf(d2, ip2, hi) == addr && addr != 0 && Only(d1, d2, l2 + if tot < len then {addr} else {})
    requires addr !in l2 <==> AddrOf(d1, ip1, hi) != 0 && addr !in l1
    requires AddrOf(d1, ip1, hi) != 0 ==> addr == AddrOf(d1, ip1, hi)
    requires tot <= len < n && hi == (off + tot) / BSIZE == (off + len) / BSIZE && (Torn(off, n, len) <==> tot < len)
    requires tot == 0 || (off + tot) % BSIZE == 0
    ensures Journaled(d0, ip0, l0, d2, ip2, l2, off, n, len)
    ensures tot < len ==> (addr !in l2 <==> Unlogged(d0, ip0, l0, off, n, len))
  {
    hide AddrOf, Torn;
    JournalMore(d0, ip0, l0, d1, ip1, l1, d2, ip2, l2, off / BSIZE, hi, addr, tot < len);
    assert SameJournal(d0, ip0, l0, d1, ip1, l1, hi);
    var left := Unlogged(d0, ip0, l0, off, n, len);
    if tot < len && !left {
      assert l2 + {addr} == l2;
    }
    if len > 0 {
      var lo, top := off / BSIZE, (off + len - 1) / BSIZE;
      assert if tot == len then top < hi else top == hi;
      forall k: nat | lo <= k <= top ensures BlockLogged(d2, ip2, l2, k, left, hi) {
        if k < hi {
          assert AddrOf(d2, ip2, k) in l2;
        }
      }
    }
  }

  /** A write of n bytes at off, of which len can be copied, asks bmap for the blocks before this. */
  function TouchEnd(off: nat, n: nat, len: nat): nat {
    if n == 0 then off / BSIZE else (off + Min(len, n - 1)) / BSIZE + 1
  }

  lemma TouchPast(off: nat, n: nat, len: nat, tot: nat)
    requires tot <= len && tot < n && off + n <= MAXFILE * BSIZE
    ensures (off + tot) / BSIZE + 1 <= TouchEnd(off, n, len) <= MAXFILE
  {
  }

  lemma TouchAll(off: nat, n: nat, len: nat, touched: nat, added: nat)
    requires Counted(off, n, n, touched, added) && len >= n
    ensures off / BSIZE + touched == TouchEnd(off, n, len)
  {
  }

  lemma TouchTorn(off: nat, n: nat, len: nat, tot: nat)
    requires len < n && (off + len) / BSIZE == (off + tot) / BSIZE
    ensures TouchEnd(off, n, len) == (off + tot) / BSIZE + 1
  {
  }

  lemma GrewWithin(d0: Disk, g0: Ghost, d1: Disk, g1: Ghost, ino: nat, lo: nat, hi: nat)
    requires Grew(d0, g0, d1, g1, ino, lo, hi)
    ensures NewBlocks(d0, g0.view[ino], lo, hi) <= FreeCount(g0.own)
  {
  }

  /** The bytes of writei's next chunk. */
  function ChunkLen(off: nat, n: nat, tot: nat): nat
    requires tot <= n
  {
    if n - tot < BSIZE - (off + tot) % BSIZE then n - tot else BSIZE - (off + tot) % BSIZE
  }

  /** The state of writei's loop when `done` is stored. */
  ghost predicate Going(d0: Disk, g0: Ghost, l0: set<nat>, d: Disk, g: Ghost, l: set<nat>, ino: nat, off: nat, n: nat,
                        done: seq<nat>, touched: seq<nat>, bits: seq<nat>, added: nat) {
    && ino in g0.view && ino in g.view && |g0.view[ino].addrs| == |g.view[ino].addrs| == NDIRECT + 1
    && Progress(d0, g0, l0, d, g, l, ino, off, n, done, |done|, touched, bits, added)
    && Journal(d0, g0.view[ino], l0, d, g.view[ino], l, off / BSIZE, off / BSIZE + |touched|)
    && Grew(d0, g0, d, g, ino, off / BSIZE, off / BSIZE + |touched|)
    && (done == [] ==> d == d0 && g == g0) && (off % BSIZE != 0 ==> NewData(d0, g0.view[ino], off / BSIZE) == 0)
  }

  lemma GoingStart(sb: Superblock, d: Disk, g: Ghost, l: set<nat>, ino: nat, off: nat, n: nat)
    requires Inv(sb, d, g) && ino in g.view && |g.view[ino].addrs| == NDIRECT + 1 && off <= g.view[ino].size
    ensures Going(d, g, l, d, g, l, ino, off, n, [], [], [], 0)
  {
    hide Inv, AddrOf, Progress, Journal, Grew;
    FirstBlock(sb, d, g, ino, off);
    StartProgress(sb, d, g, l, ino, off, n);
    JournalStart(d, g.view[ino], l, off / BSIZE);
    GrewNone(d, g, ino, off / BSIZE);
  }

  lemma GoingAt(d0: Disk, g0: Ghost, l0: set<nat>, d: Disk, g: Ghost, l: set<nat>, ino: nat, off: nat, n: nat,
                done: seq<nat>, touched: seq<nat>, bits: seq<nat>, added: nat)
    requires Going(d0, g0, l0, d, g, l, ino, off, n, done, touched, bits, added)
    ensures Counted(off, n, |done|, |touched|, added)
    ensures |done| < n ==> off / BSIZE + |touched| == (off + |done|) / BSIZE
    ensures |done| < n ==> |done| == 0 || (off + |done|) % BSIZE == 0
  {
    hide Spliced, Journal, Grew, LogIs, StillIndirect;
    if |done| < n {
      AtBoundary(off, n, |done|, |touched|, added);
    }
  }

  lemma PutProgress(d0: Disk, g0: Ghost, l0: set<nat>, d1: Disk, g1: Ghost, l1: set<nat>, d2: Disk, g2: Ghost,
                    l2: set<nat>, ino: nat, off: nat, n: nat, done: seq<nat>, touched: seq<nat>, bits: seq<nat>,
                    added: nat, m: nat, chunk: seq<nat>, lost: bool, addr: nat, more: seq<nat>, kept: seq<nat>)
    requires Going(d0, g0, l0, d1, g1, l1, ino, off, n, done, touched, bits, added) && |done| < n
    requires BlockPut(d1, g1, l1, d2, g2, l2, ino, off + |done|, |chunk| == m, chunk, lost, addr, more)
    requires m == ChunkLen(off, n, |done|) && kept == if lost && addr !in l2 then [] else chunk
    ensures Progress(d0, g0, l0, d2, g2, l2, ino, off, n, done + kept, |done| + m, touched + [addr], bits + more,
                     added + NewData(d1, g1.view[ino], (off + |done|) / BSIZE))
  {
    hide Spliced, AddrOf, Journal, Apart, Only, LoggedBy, Grew, Progress, NewData, StillIndirect, NewIndirect;
    ProgressMore(d0, g0, l0, d1, g1, l1, d2, g2, l2, ino, off, n, done, touched, bits, added, m, kept, addr, more);
  }

  lemma PutJournal(d0: Disk, g0: Ghost, l0: set<nat>, d1: Disk, g1: Ghost, l1: set<nat>, d2: Disk, g2: Ghost,
                   l2: set<nat>, ino: nat, lo: nat, at: nat, chunk: seq<nat>, lost: bool, addr: nat, more: seq<nat>)
    requires ino in g0.view && ino in g1.view && |g0.view[ino].addrs| == |g1.view[ino].addrs| == NDIRECT + 1
    requires Journal(d0, g0.view[ino], l0, d1, g1.view[ino], l1, lo, at / BSIZE) && at / BSIZE < MAXFILE && addr != 0
    requires BlockPut(d1, g1, l1, d2, g2, l2, ino, at, true, chunk, lost, addr, more) && chunk != []
    ensures Journal(d0, g0.view[ino], l0, d2, g2.view[ino], l2, lo, at / BSIZE + 1)
  {
    hide Spliced, AddrOf, Journal, Apart, Only, LoggedBy, Grew, NewData, StillIndirect, NewIndirect;
    JournalMore(d0, g0.view[ino], l0, d1, g1.view[ino], l1, d2, g2.view[ino], l2, lo, at / BSIZE, addr, true);
  }

  lemma PutGrew(d0: Disk, g0: Ghost, d1: Disk, g1: Ghost, l1: set<nat>, d2: Disk, g2: Ghost, l2: set<nat>, ino: nat,
                lo: nat, at: nat, whole: bool, chunk: seq<nat>, lost: bool, addr: nat, more: seq<nat>)
    requires lo <= at / BSIZE < MAXFILE && Grew(d0, g0, d1, g1, ino, lo, at / BSIZE)
    requires BlockPut(d1, g1, l1, d2, g2, l2, ino, at, whole, chunk, lost, addr, more)
    ensures Grew(d0, g0, d2, g2, ino, lo, at / BSIZE + 1)
  {
    hide Spliced, AddrOf, Apart, Only, LoggedBy, Grew, NewData, StillIndirect, NewIndirect;
    GrewMore(d0, g0, d1, g1, d2, g2, ino, lo, at / BSIZE, at / BSIZE, at / BSIZE + 1);
  }

  lemma ChunkFits(off: nat, n: nat, tot: nat)
    requires tot < n && off + n <= MAXFILE * BSIZE
    ensures 0 < ChunkLen(off, n, tot) <= n - tot && off / BSIZE <= (off + tot) / BSIZE < MAXFILE
  {
  }

  lemma PutViews(d0: Disk, g0: Ghost, l0: set<nat>, d: Disk, g: Ghost, l: set<nat>, ino: nat, off: nat, whole: bool,
                 chunk: seq<nat>, lost: bool, addr: nat, bits: seq<nat>)
    requires BlockPut(d0, g0, l0, d, g, l, ino, off, whole, chunk, lost, addr, bits)
    ensures ino in g0.view && ino in g.view && |g0.view[ino].addrs| == |g.view[ino].addrs| == NDIRECT + 1
  {
  }

  /** A chunk was copied whole. */
  lemma GoOn(d0: Disk, g0: Ghost, l0: set<nat>, d1: Disk, g1: Ghost, l1: set<nat>, d2: Disk, g2: Ghost, l2: set<nat>,
             ino: nat, off: nat, n: nat, done: seq<nat>, touched: seq<nat>, bits: seq<nat>, added: nat,
             chunk: seq<nat>, lost: bool, addr: nat, more: seq<nat>)
    requires Going(d0, g0, l0, d1, g1, l1, ino, off, n, done, touched, bits, added) && |done| < n
    requires off + n <= MAXFILE * BSIZE && addr != 0 && |chunk| == ChunkLen(off, n, |done|)
    requires BlockPut(d1, g1, l1, d2, g2, l2, ino, off + |done|, true, chunk, lost, addr, more) && addr in l2
    ensures Going(d0, g0, l0, d2, g2, l2, ino, off, n, done + chunk, touched + [addr], bits + more,
                  added + NewData(d1, g1.view[ino], (off + |done|) / BSIZE))
  {
    hide BlockPut, Journal, Grew, Progress, NewData, ChunkLen;
    GoingAt(d0, g0, l0, d1, g1, l1, ino, off, n, done, touched, bits, added);
    hide Counted;
    var at := off + |done|;
    ChunkFits(off, n, |done|);
    PutViews(d1, g1, l1, d2, g2, l2, ino, at, true, chunk, lost, addr, more);
    PutProgress(d0, g0, l0, d1, g1, l1, d2, g2, l2, ino, off, n, done, touched, bits, added, |chunk|, chunk, lost, addr,
                more, chunk);
    PutJournal(d0, g0, l0, d1, g1, l1, d2, g2, l2, ino, off / BSIZE, at, chunk, lost, addr, more);
    PutGrew(d0, g0, d1, g1, l1, d2, g2, l2, ino, off / BSIZE, at, true, chunk, lost, addr, more);
  }

  lemma PutTorn(d0: Disk, g0: Ghost, l0: set<nat>, d1: Disk, g1: Ghost, l1: set<nat>, d2: Disk, g2: Ghost, l2: set<nat>,
                ino: nat, off: nat, n: nat, tot: nat, chunk: seq<nat>, lost: bool, addr: nat, more: seq<nat>)
    requires ino in g0.view && ino in g1.view && |g0.view[ino].addrs| == |g1.view[ino].addrs| == NDIRECT + 1
    requires Journal(d0, g0.view[ino], l0, d1, g1.view[ino], l1, off / BSIZE, (off + tot) / BSIZE)
    requires (off + tot) / BSIZE < MAXFILE && addr != 0
    requires BlockPut(d1, g1, l1, d2, g2, l2, ino, off + tot, false, chunk, lost, addr, more)
    requires tot + |chunk| < n && (off + tot) / BSIZE == (off + tot + |chunk|) / BSIZE
    requires Torn(off, n, tot + |chunk|) <==> chunk != []
    requires tot == 0 || (off + tot) % BSIZE == 0
    ensures Journaled(d0, g0.view[ino], l0, d2, g2.view[ino], l2, off, n, tot + |chunk|)
    ensures chunk != [] ==> (addr !in l2 <==> Unlogged(d0, g0.view[ino], l0, off, n, tot + |chunk|))
  {
    hide Spliced, AddrOf, Journal, Journaled, Apart, Only, LoggedBy, Grew, NewData, StillIndirect, NewIndirect, Torn;
    hide Unlogged;
    JournaledTorn(d0, g0.view[ino], l0, d1, g1.view[ino], l1, d2, g2.view[ino], l2, off, n, tot, tot + |chunk|,
                  (off + tot) / BSIZE, addr);
  }

  /** The copy failed in a chunk; len bytes had been copied. */
  lemma GoStop(d0: Disk, g0: Ghost, l0: set<nat>, d1: Disk, g1: Ghost, l1: set<nat>, d2: Disk, g2: Ghost, l2: set<nat>,
               ino: nat, off: nat, n: nat, done: seq<nat>, touched: seq<nat>, bits: seq<nat>, added: nat, m: nat,
               chunk: seq<nat>, lost: bool, addr: nat, more: seq<nat>, len: nat)
    requires Going(d0, g0, l0, d1, g1, l1, ino, off, n, done, touched, bits, added) && |done| + |chunk| == len < n
    requires off + n <= MAXFILE * BSIZE && addr != 0 && |chunk| < m == ChunkLen(off, n, |done|)
    requires BlockPut(d1, g1, l1, d2, g2, l2, ino, off + |done|, false, chunk, lost, addr, more)
    ensures |done| == Complete(off, n, len)
    ensures Progress(d0, g0, l0, d2, g2, l2, ino, off, n,
                     if lost && Unlogged(d0, g0.view[ino], l0, off, n, len) then done else done + chunk, |done| + m,
                     touched + [addr], bits + more, added + NewData(d1, g1.view[ino], (off + |done|) / BSIZE))
    ensures Journaled(d0, g0.view[ino], l0, d2, g2.view[ino], l2, off, n, len)
    ensures Grew(d0, g0, d2, g2, ino, off / BSIZE, TouchEnd(off, n, len))
  {
    hide BlockPut, Journal, Grew, Progress, NewData, Journaled, Unlogged, Torn, Complete;
    GoingAt(d0, g0, l0, d1, g1, l1, ino, off, n, done, touched, bits, added);
    hide Counted;
    var at := off + |done|;
    ChunkFits(off, n, |done|);
    StopsAt(off, n, |done|, len, m);
    TouchTorn(off, n, len, |done|);
    hide ChunkLen, TouchEnd;
    PutViews(d1, g1, l1, d2, g2, l2, ino, at, false, chunk, lost, addr, more);
    var kept := if lost && addr !in l2 then [] else chunk;
    PutProgress(d0, g0, l0, d1, g1, l1, d2, g2, l2, ino, off, n, done, touched, bits, added, m, chunk, lost, addr, more,
                kept);
    PutTorn(d0, g0, l0, d1, g1, l1, d2, g2, l2, ino, off, n, |done|, chunk, lost, addr, more);
    PutGrew(d0, g0, d1, g1, l1, d2, g2, l2, ino, off / BSIZE, at, false, chunk, lost, addr, more);
    assert done + [] == done;
  }

  /** All n bytes are stored. */
  lemma GoneThrough(d0: Disk, g0: Ghost, l0: set<nat>, d: Disk, g: Ghost, l: set<nat>, ino: nat, off: nat,
                    done: seq<nat>, touched: seq<nat>, bits: seq<nat>, added: nat, n: nat)
    requires Going(d0, g0, l0, d, g, l, ino, off, n, done, touched, bits, added) && |done| == n
    ensures Progress(d0, g0, l0, d, g, l, ino, off, n, done, n, touched, bits, added) && Complete(off, n, n) == n
    ensures Journaled(d0, g0.view[ino], l0, d, g.view[ino], l, off, n, n) && !Unlogged(d0, g0.view[ino], l0, off, n, n)
    ensures Grew(d0, g0, d, g, ino, off / BSIZE, TouchEnd(off, n, n))
  {
    GoingAt(d0, g0, l0, d, g, l, ino, off, n, done, touched, bits, added);
    hide AddrOf, Journal, Grew, Progress, Journaled;
    AllComplete(off, n, n);
    TouchAll(off, n, n, |touched|, added);
    JournaledAll(d0, g0.view[ino], l0, d, g.view[ino], l, off, n, |touched|, added);
  }

  /** The loop of writei. `tot` counts the bytes of complete chunks. */
  method PutBytes(fs: FileSystem, ino: nat, off: nat, n: nat, src: seq<nat>, lost: bool)
      returns (tot: nat, halted: bool, ghost counted: nat, ghost touched: seq<nat>, ghost bits: seq<nat>,
               ghost added: nat)
    requires fs.Valid() && ino in fs.inodes && |src| <= n && off + n <= MAXFILE * BSIZE && off <= fs.inodes[ino].size
    requires |fs.g.view[ino].addrs| == NDIRECT + 1
    modifies fs`disk, fs`inodes, fs`g, fs`logged
    ensures halted ==> NoFree(fs.g.own)
    ensures !halted ==> fs.Busy(ino) && tot == Complete(off, n, |src|) && tot <= |src|
    ensures !halted ==> |fs.g.view[ino].addrs| == NDIRECT + 1
    ensures n == 0 ==> !halted && fs.disk == old(fs.disk) && fs.g == old(fs.g)
    ensures !halted ==> Progress(old(fs.disk), old(fs.g), old(fs.logged), fs.disk, fs.g, fs.logged, ino, off, n,
                                 if lost && Unlogged(old(fs.disk), old(fs.g.view[ino]), old(fs.logged), off, n, |src|)
                                 then src[..tot] else src, counted, touched, bits, added)
    ensures !halted ==> Journaled(old(fs.disk), old(fs.g.view[ino]), old(fs.logged), fs.disk, fs.g.view[ino], fs.logged,
                                  off, n, |src|)
    ensures halted <==>
              FreeCount(old(fs.g.own)) < NewBlocks(old(fs.disk), old(fs.g.view[ino]), off / BSIZE,
                                                   TouchEnd(off, n, |src|))
    ensures !halted ==> Grew(old(fs.disk), old(fs.g), fs.disk, fs.g, ino, off / BSIZE, TouchEnd(off, n, |src|))
  {
    hide FreeCount, NewBlocks, Grew, TouchEnd, Progress, Going, BlockPut, ChunkLen, Counted;
    hide Inv, Complete, Journaled, Unlogged, NoFree, NewData;
    tot, halted, counted, touched, bits, added := 0, false, 0, [], [], 0;
    GoingStart(fs.sb, fs.disk, fs.g, fs.logged, ino, off, n);
    while tot < n
      invariant tot <= n && tot <= |src| && fs.Busy(ino) && counted == tot
      invariant |fs.g.view[ino].addrs| == NDIRECT + 1
      invariant Going(old(fs.disk), old(fs.g), old(fs.logged), fs.disk, fs.g, fs.logged, ino, off, n, src[..tot],
                      touched, bits, added)
      invariant tot == 0 ==> fs.disk == old(fs.disk) && fs.g == old(fs.g)
      decreases n - tot
    {
      var o := off + tot;
      BlockIndex(o);
      var m := if n - tot < BSIZE - o % BSIZE then n - tot else BSIZE - o % BSIZE;
      ChunkIs(off, n, tot, m);
      var chunk := src[tot..if tot + m <= |src| then tot + m else |src|];
      ghost var d1, g1, l1 := fs.disk, fs.g, fs.logged;
      var addr;
      ghost var more;
      addr, more := PutBlock(fs, ino, o, m, chunk, lost);
      if addr == 0 {
        GoingHalts(old(fs.disk), old(fs.g), old(fs.logged), d1, g1, l1, ino, off, n, src[..tot], touched, bits, added,
                   |src|);
        return tot, true, counted, touched, bits, added;
      }
      if |chunk| < m {
        GoStop(old(fs.disk), old(fs.g), old(fs.logged), d1, g1, l1, fs.disk, fs.g, fs.logged, ino, off, n, src[..tot],
               touched, bits, added, m, chunk, lost, addr, more, |src|);
        assert src[..tot] + chunk == src;
      } else {
        PutLogged(d1, g1, l1, fs.disk, fs.g, fs.logged, ino, o, chunk, lost, addr, more);
        GoOn(old(fs.disk), old(fs.g), old(fs.logged), d1, g1, l1, fs.disk, fs.g, fs.logged, ino, off, n, src[..tot],
             touched, bits, added, chunk, lost, addr, more);
        assert src[..tot] + chunk == src[..tot + m];
      }
      HasAddrs(fs.sb, fs.disk, fs.g, ino);
      touched, bits, added := touched + [addr], bits + more, added + NewData(d1, g1.view[ino], o / BSIZE);
      counted := tot + m;
      if |chunk| < m {
        GrewWithin(old(fs.disk), old(fs.g), fs.disk, fs.g, ino, off / BSIZE, TouchEnd(off, n, |src|));
        return;
      }
      tot := tot + m;
    }
    assert src[..tot] == src;
    GoneThrough(old(fs.disk), old(fs.g), old(fs.logged), fs.disk, fs.g, fs.logged, ino, off, src, touched, bits, added,
                n);
    GrewWithin(old(fs.disk), old(fs.g), fs.disk, fs.g, ino, off / BSIZE, TouchEnd(off, n, n));
  }

  lemma PutLogged(d0: Disk, g0: Ghost, l0: set<nat>, d: Disk, g: Ghost, l: set<nat>, ino: nat, off: nat,
                  chunk: seq<nat>, lost: bool, addr: nat, bits: seq<nat>)
    requires BlockPut(d0, g0, l0, d, g, l, ino, off, true, chunk, lost, addr, bits)
    ensures addr in l
  {
  }

  lemma ChunkIs(off: nat, n: nat, tot: nat, m: nat)
    requires tot < n && m == if n - tot < BSIZE - (off + tot) % BSIZE then n - tot else BSIZE - (off + tot) % BSIZE
    ensures m == ChunkLen(off, n, tot)
  {
  }

  /** There is no block for the next chunk. */
  lemma GoingHalts(d0: Disk, g0: Ghost, l0: set<nat>, d: Disk, g: Ghost, l: set<nat>, ino: nat, off: nat, n: nat,
                   done: seq<nat>, touched: seq<nat>, bits: seq<nat>, added: nat, len: nat)
    requires Going(d0, g0, l0, d, g, l, ino, off, n, done, touched, bits, added)
    requires |done| < n && |done| <= len && off + n <= MAXFILE * BSIZE
    requires FreeCount(g.own) < NewBlocks(d, g.view[ino], (off + |done|) / BSIZE, (off + |done|) / BSIZE + 1)
    ensures FreeCount(g0.own) < NewBlocks(d0, g0.view[ino], off / BSIZE, TouchEnd(off, n, len))
  {
    GoingAt(d0, g0, l0, d, g, l, ino, off, n, done, touched, bits, added);
    TouchPast(off, n, len, |done|);
    hide AddrOf, Journal, Grew, Progress, NewBlocks, FreeCount, TouchEnd;
    var bn := (off + |done|) / BSIZE;
    CannotGrow(d0, g0, d, g, ino, off / BSIZE, bn, bn, bn + 1, TouchEnd(off, n, len));
  }

  lemma AllComplete(off: nat, n: nat, len: nat)
    requires len >= n
    ensures Complete(off, n, len) == n && !Torn(off, n, len)
  {
  }

  lemma StartProgress(sb: Superblock, d: Disk, g: Ghost, l: set<nat>, ino: nat, off: nat, n: nat)
    requires Inv(sb, d, g) && ino in g.view && |g.view[ino].addrs| == NDIRECT + 1
    ensures Progress(d, g, l, d, g, l, ino, off, n, [], 0, [], [], 0)
  {
    hide Inv, Spliced, AddrOf;
    SplicedNone(sb, d, g, ino, off);
  }

  function Max(a: nat, b: nat): nat { if a > b then a else b }

  /** Blocks below the new size exist. */
  lemma BackedAfter(d0: Disk, g0: Ghost, d1: Disk, g1: Ghost, ino: nat, off: nat, bytes: seq<nat>, t: nat)
    requires Spliced(d0, g0, d1, g1, ino, off, bytes) && Backed(d0, g0.view[ino]) && off <= g0.view[ino].size
    requires t <= |bytes|
    requires off + t <= MAXFILE * BSIZE
    ensures Backed(d1, g1.view[ino].(size := Max(g0.view[ino].size, off + t)))
  {
    hide AddrOf, BytesStored, OthersBytes;
    var ip, ip1 := g0.view[ino], g1.view[ino];
    forall n: nat | n < MAXFILE && n * BSIZE < Max(ip.size, off + t)
      ensures AddrOf(d1, ip1, n) != 0
    {
      if n * BSIZE >= ip.size {
        MulBlock(n);
        assert off <= n * BSIZE < off + |bytes|;
      }
    }
    AddrIgnoresSize(d1, ip1, Max(ip.size, off + t));
  }

  lemma MulBlock(n: nat)
    ensures n * BSIZE / BSIZE == n
  {
  }

  lemma AddrIgnoresSize(d: Disk, ip: Inode, size: nat)
    requires |ip.addrs| == NDIRECT + 1
    ensures forall n: nat :: n < MAXFILE ==> AddrOf(d, ip.(size := size), n) == AddrOf(d, ip, n)
  {
  }

  /** What writei leaves behind: file ino holds src from off on, reaches to off + t if that
      is further than before, and every other file is as it was. */
  ghost predicate Written(d0: Disk, v0: map<nat, Inode>, d1: Disk, v1: map<nat, Inode>, ino: nat, off: nat,
                          src: seq<nat>, t: nat) {
    && ino in v0 && ino in v1 && |v0[ino].addrs| == |v1[ino].addrs| == NDIRECT + 1
    && v1 == v0[ino := v1[ino]] && v1[ino].size == Max(v0[ino].size, off + t)
    && BytesStored(d0, v0[ino], d1, v1[ino], off, src) && OthersBytes(d0, d1, v0, ino)
  }

  /** Writes n bytes, of which src could be copied in. Lists in `log` the blocks it logs.
      `halted` stands for the panic when the disk is full. The code returns n even when the
      copy fails. Then t bytes are in complete chunks and stay. Those of src after them are in a
      buffer that was released without log_write; they stay unless that block is not logged for
      another reason and `lost` says that the buffer is recycled. */
  method Writei(fs: FileSystem, ino: nat, off: nat, n: nat, src: seq<nat>, lost: bool)
      returns (r: int, halted: bool, ghost t: nat, ghost log: seq<nat>)
    requires fs.Valid() && ino in fs.inodes && off < U32 && n < U32 && |src| <= n
    modifies fs
    ensures halted ==> NoFree(fs.g.own)
    ensures !halted ==> fs.Valid() && (r == -1 || r == n) && (r == -1 <==> Refused(old(fs.inodes)[ino].size, off, n))
    ensures !halted && r == -1 ==> fs.disk == old(fs.disk) && fs.g == old(fs.g) && fs.logged == old(fs.logged)
    ensures !halted && r != -1 ==> t == Complete(off, n, |src|) && t <= |src|
    ensures !halted && r != -1 ==>
              ino in fs.inodes && |old(fs.inodes)[ino].addrs| == |fs.inodes[ino].addrs| == NDIRECT + 1
    ensures !halted && r != -1 ==>
              Written(old(fs.disk), old(fs.inodes), fs.disk, fs.inodes, ino, off,
                      if lost && Unlogged(old(fs.disk), old(fs.inodes)[ino], old(fs.logged), off, n, |src|)
                      then src[..t] else src, t)
    ensures !halted && r != -1 ==>
              Journaled(old(fs.disk), old(fs.inodes)[ino], old(fs.logged), fs.disk, fs.inodes[ino], fs.logged, off, n,
                        |src|)
    ensures !halted ==> forall b :: b in fs.logged ==> b in old(fs.logged) || b in log
    ensures !halted && n <= 3 * BSIZE ==> |log| <= MAXOPBLOCKS
    ensures |old(fs.g.view[ino].addrs)| == NDIRECT + 1
    ensures halted <==>
              && !Refused(old(fs.inodes)[ino].size, off, n)
              && FreeCount(old(fs.g.own)) < NewBlocks(old(fs.disk), old(fs.g.view[ino]), off / BSIZE,
                                                      TouchEnd(off, n, |src|))
    ensures !halted && r != -1 ==>
              Grew(old(fs.disk), old(fs.g), fs.disk, fs.g, ino, off / BSIZE, TouchEnd(off, n, |src|))
  {
    hide Inv, Spliced, LogIs, Counted, AddrOf, BytesStored, OthersBytes, Journaled, Unlogged;
    hide FreeCount, NewBlocks, Grew, TouchEnd;
    HasBacked(fs.sb, fs.disk, fs.g, ino);
    t, log, halted := 0, [], false;
    if off > fs.inodes[ino].size || (off + n) % U32 < off {
      return -1, false, t, log;
    }
    if off + n > MAXFILE * BSIZE {
      return -1, false, t, log;
    }
    var tot;
    ghost var counted, touched, bits, added;
    tot, halted, counted, touched, bits, added := PutBytes(fs, ino, off, n, src, lost);
    if halted {
      return 0, true, t, log;
    }
    ghost var ip, l := fs.g.view[ino], fs.logged;
    ghost var bytes := if lost && Unlogged(old(fs.disk), old(fs.inodes)[ino], old(fs.logged), off, n, |src|)
                       then src[..tot] else src;
    BackedAfter(old(fs.disk), old(fs.g), fs.disk, fs.g, ino, off, bytes, tot);
    SplicedIsWritten(old(fs.disk), old(fs.g), fs.disk, fs.g, ino, off, bytes, tot);
    JournaledInode(fs.sb, old(fs.disk), old(fs.inodes)[ino], old(fs.logged), fs.disk, fs.g, l, ino, off, n, |src|,
                   Max(ip.size, off + tot));
    GrewSize(old(fs.disk), old(fs.g), fs.disk, fs.g, ino, off / BSIZE, TouchEnd(off, n, |src|), off + tot);
    if n > 0 {
      if off + tot > fs.inodes[ino].size {
        SetSize(fs.sb, fs.disk, fs.g, ino, off + tot, fs.g.(view := fs.g.view[ino := ip.(size := off + tot)]));
        fs.g := fs.g.(view := fs.g.view[ino := ip.(size := off + tot)]);
        fs.inodes := fs.inodes[ino := fs.inodes[ino].(size := off + tot)];
      }
      assert fs.inodes[ino] == ip.(size := Max(ip.size, off + tot));
      fs.Iupdate(ino);
    }
    if n <= 3 * BSIZE {
      SpanBound(off, n, counted, |touched|, added);
    }
    log := touched + bits + [ip.addrs[NDIRECT]] + [IBLOCK(fs.sb, ino)];
    LogKnown(old(fs.logged), l, touched, bits, ip);
    LogCovers(old(fs.logged), fs.logged, touched, bits, ip, IBLOCK(fs.sb, ino), log);
    return n, false, tot, log;
  }

  lemma GrewSize(d0: Disk, g0: Ghost, d1: Disk, g1: Ghost, ino: nat, lo: nat, hi: nat, size: nat)
    requires Grew(d0, g0, d1, g1, ino, lo, hi)
    ensures Grew(d0, g0, d1, g1.(view := g1.view[ino := g1.view[ino].(size := size)]), ino, lo, hi)
  {
    AddrIgnoresSize(d1, g1.view[ino], size);
    hide AddrOf, FreeCount, NewBlocks;
  }

  /** iupdate logs no block of the file. */
  lemma JournaledInode(sb: Superblock, d0: Disk, ip0: Inode, l0: set<nat>, d: Disk, g: Ghost, l: set<nat>, ino: nat,
                       off: nat, n: nat, len: nat, size: nat)
    requires Inv(sb, d, g) && ino in g.view && |ip0.addrs| == |g.view[ino].addrs| == NDIRECT + 1
    requires Journaled(d0, ip0, l0, d, g.view[ino], l, off, n, len)
    ensures Journaled(d0, ip0, l0, d, g.view[ino].(size := size), l + {IBLOCK(sb, ino)}, off, n, len)
  {
    assert InodeBlock(sb, g.own, ino);
    hide Inv, Unlogged, IBLOCK;
    var ip, ip', l' := g.view[ino], g.view[ino].(size := size), l + {IBLOCK(sb, ino)};
    AddrIgnoresSize(d, ip, size);
    hide AddrOf;
    var left := if Unlogged(d0, ip0, l0, off, n, len) then {AddrOf(d0, ip0, (off + len) / BSIZE)} else {};
    OnlyTrans(d0, d, d, l + left, {}, l' + left);
    if len > 0 {
      var lo, hi, last := off / BSIZE, (off + len - 1) / BSIZE, (off + len) / BSIZE;
      forall k: nat | lo <= k <= hi
        ensures BlockLogged(d, ip', l', k, Unlogged(d0, ip0, l0, off, n, len), last)
      {
        assert BlockLogged(d, ip, l, k, Unlogged(d0, ip0, l0, off, n, len), last);
        MappedBlock(sb, d, g, ino, k);
      }
    }
  }

  lemma HasBacked(sb: Superblock, d: Disk, g: Ghost, ino: nat)
    requires Inv(sb, d, g) && ino in g.view
    ensures |g.view[ino].addrs| == NDIRECT + 1 && Backed(d, g.view[ino])
  {
    hide BitmapInv, PlacesInv;
  }

  lemma ByteIgnoresSize(d: Disk, ip: Inode, size: nat)
    requires |ip.addrs| == NDIRECT + 1
    ensures forall k: nat :: k < MAXFILE * BSIZE ==> FileByte(d, ip.(size := size), k) == FileByte(d, ip, k)
  {
    AddrIgnoresSize(d, ip, size);
    hide AddrOf;
    forall k: nat | k < MAXFILE * BSIZE
      ensures FileByte(d, ip.(size := size), k) == FileByte(d, ip, k)
    {
      BlockIndex(k);
    }
  }

  lemma SplicedIsWritten(d0: Disk, g0: Ghost, d1: Disk, g1: Ghost, ino: nat, off: nat, src: seq<nat>, t: nat)
    requires Spliced(d0, g0, d1, g1, ino, off, src)
    ensures g1.view[ino].size == g0.view[ino].size
    ensures var ip := g1.view[ino];
            Written(d0, g0.view, d1, g1.view[ino := ip.(size := Max(ip.size, off + t))], ino, off, src, t)
  {
    ByteIgnoresSize(d1, g1.view[ino], Max(g1.view[ino].size, off + t));
    hide AddrOf, FileByte;
  }

  lemma LogCovers(l0: set<nat>, l: set<nat>, touched: seq<nat>, bits: seq<nat>, ip: Inode, iblock: nat, log: seq<nat>)
    requires |ip.addrs| == NDIRECT + 1 && log == touched + bits + [ip.addrs[NDIRECT]] + [iblock]
    requires forall b :: b in l ==> b in l0 || b in touched || b in bits || b == ip.addrs[NDIRECT] || b == iblock
    ensures forall b :: b in l ==> b in l0 || b in log
  {
    forall b | b in l
      ensures b in l0 || b in log
    {
      if b == ip.addrs[NDIRECT] {
        assert log[|touched| + |bits|] == b;
      } else if b == iblock {
        assert log[|touched| + |bits| + 1] == b;
      }
    }
  }

  lemma LogKnown(l0: set<nat>, l: set<nat>, touched: seq<nat>, bits: seq<nat>, ip: Inode)
    requires |ip.addrs| == NDIRECT + 1 && LogIs(l0, l, touched, bits, ip)
    ensures forall b :: b in l ==> b in l0 || b in touched || b in bits || b == ip.addrs[NDIRECT]
  {
  }

  // ----- Files as sequences of bytes -----

  ghost function Content(d: Disk, ip: Inode): (c: seq<nat>)
    requires |ip.addrs| == NDIRECT + 1
    ensures |c| == ip.size
  {
    seq(ip.size, k requires 0 <= k => FileByte(d, ip, k))
  }

  /** A write all of whose bytes were copied replaces the bytes from off on and extends the
      file if it must; the other files are unchanged. */
  lemma WriteIsSplice(d0: Disk, v0: map<nat, Inode>, d1: Disk, v1: map<nat, Inode>, ino: nat, off: nat, src: seq<nat>)
    requires Written(d0, v0, d1, v1, ino, off, src, |src|) && off <= v0[ino].size <= MAXFILE * BSIZE
    requires off + |src| <= MAXFILE * BSIZE
    ensures var c := Content(d0, v0[ino]);
            Content(d1, v1[ino]) == c[..off] + src + if off + |src| < |c| then c[off + |src|..] else []
    ensures forall x :: x in v0 && x != ino && |v0[x].addrs| == NDIRECT + 1 && v0[x].size <= MAXFILE * BSIZE ==>
              x in v1 && v1[x] == v0[x] && Content(d1, v1[x]) == Content(d0, v0[x])
  {
    hide FileByte;
    var c, c' := Content(d0, v0[ino]), Content(d1, v1[ino]);
    var e := c[..off] + src + if off + |src| < |c| then c[off + |src|..] else [];
    forall k | 0 <= k < |c'|
      ensures c'[k] == e[k]
    {
    }
    forall x | x in v0 && x != ino && |v0[x].addrs| == NDIRECT + 1 && v0[x].size <= MAXFILE * BSIZE
      ensures x in v1 && v1[x] == v0[x] && Content(d1, v1[x]) == Content(d0, v0[x])
    {
      assert SameBytes(d0, d1, v0[x]);
    }
  }

  lemma WrittenTrans(d0: Disk, v0: map<nat, Inode>, d1: Disk, v1: map<nat, Inode>, d2: Disk, v2: map<nat, Inode>,
                     ino: nat, off: nat, a: seq<nat>, b: seq<nat>)
    requires Written(d0, v0, d1, v1, ino, off, a, |a|) && Written(d1, v1, d2, v2, ino, off + |a|, b, |b|)
    ensures Written(d0, v0, d2, v2, ino, off, a + b, |a + b|)
  {
    hide FileByte;
    assert v2 == v0[ino := v2[ino]];
    assert OthersBytes(d0, d2, v0, ino) by {
      forall x | x in v0 && x != ino
        ensures |v0[x].addrs| == NDIRECT + 1 && SameBytes(d0, d2, v0[x])
      {
        assert v1[x] == v0[x];
      }
    }
  }

  // ----- readi -----

  lemma SizeBacked(d: Disk, ip: Inode, o: nat)
    requires |ip.addrs| == NDIRECT + 1 && Backed(d, ip) && o < ip.size
    ensures o / BSIZE < MAXFILE && AddrOf(d, ip, o / BSIZE) != 0
  {
    hide AddrOf;
    assert o / BSIZE * BSIZE <= o;
  }

  /** The file holds these bytes from off on. */
  ghost predicate ReadsFrom(d: Disk, ip: Inode, off: nat, bytes: seq<nat>)
    requires |ip.addrs| == NDIRECT + 1
  {
    forall k :: off <= k < off + |bytes| ==> bytes[k - off] == FileByte(d, ip, k)
  }

  lemma ReadsNone(d: Disk, ip: Inode, off: nat)
    requires |ip.addrs| == NDIRECT + 1
    ensures ReadsFrom(d, ip, off, [])
  {
  }

  lemma ReadsMore(d: Disk, ip: Inode, off: nat, a: seq<nat>, b: seq<nat>)
    requires |ip.addrs| == NDIRECT + 1 && ReadsFrom(d, ip, off, a) && ReadsFrom(d, ip, off + |a|, b)
    ensures ReadsFrom(d, ip, off, a + b)
  {
    hide FileByte;
    forall k | off <= k < off + |a + b| ensures (a + b)[k - off] == FileByte(d, ip, k) {
      if k >= off + |a| {
        assert b[k - (off + |a|)] == FileByte(d, ip, k);
      }
    }
  }

  lemma ReadChunk(d: Disk, ip: Inode, o: nat, m: nat, addr: nat)
    requires |ip.addrs| == NDIRECT + 1 && addr == AddrOf(d, ip, o / BSIZE) && addr != 0 && addr in d && IsBytes(d[addr])
    requires o % BSIZE + m <= BSIZE && |BytesOf(d[addr])| == BSIZE
    ensures ReadsFrom(d, ip, o, BytesOf(d[addr])[o % BSIZE..o % BSIZE + m])
  {
    hide AddrOf;
    forall k | o <= k < o + m
      ensures BytesOf(d[addr])[o % BSIZE..o % BSIZE + m][k - o] == FileByte(d, ip, k)
    {
      SameBlock(o, k);
    }
  }

  /** What a read of n bytes at off may return of a file with contents c: nothing if off is behind
      the end or off + n does not fit 32 bits, else the bytes from off on, n of them or up to the
      end. With less room than that it stops, at a block boundary, before the first chunk for
      which there is none. */
  predicate IsRead(c: seq<nat>, off: nat, n: nat, room: nat, dst: seq<nat>) {
    if off > |c| || off + n >= U32 then dst == []
    else
      var all := c[off..Min(off + n, |c|)];
      && dst <= all && (room >= |all| ==> dst == all)
      && (dst != all ==> |dst| <= room < Min(|all|, BlockEnd(off + |dst|) - off))
      && (dst != all ==> dst == [] || (off + |dst|) % BSIZE == 0)
  }

  lemma ReadDone(c: seq<nat>, off: nat, n: nat, room: nat, tot: nat)
    requires off <= |c| && off + n < U32 && off + tot <= Min(off + n, |c|)
    requires tot == Min(off + n, |c|) - off || tot == 0 || AtEdge(off + tot)
    requires off + tot < Min(off + n, |c|) ==> tot <= room < Min(Min(off + n, |c|), BlockEnd(off + tot)) - off
    ensures IsRead(c, off, n, room, c[off..off + tot])
  {
    var end := Min(off + n, |c|);
    ReadPrefix(c, off, tot, end);
    hide BlockEnd;
  }

  lemma ReadPrefix(c: seq<nat>, off: nat, tot: nat, end: nat)
    requires off + tot <= end <= |c|
    ensures c[off..off + tot] <= c[off..end] && (c[off..off + tot] == c[off..end] <==> off + tot == end)
  {
  }

  /** Reads from off, as far as there is room to copy out to. Nothing is allocated. */
  method Readi(fs: FileSystem, ino: nat, off: nat, n: nat, room: nat) returns (tot: nat, dst: seq<nat>)
    requires fs.Valid() && ino in fs.inodes && off < U32 && n < U32
    modifies fs`disk, fs`inodes, fs`g, fs`logged
    ensures fs.Valid() && fs.disk == old(fs.disk) && fs.g == old(fs.g) && fs.logged == old(fs.logged)
    ensures |fs.inodes[ino].addrs| == NDIRECT + 1 && tot == |dst|
    ensures IsRead(Content(fs.disk, fs.inodes[ino]), off, n, room, dst)
  {
    hide Inv, AddrOf, Extended, Backed, FileByte, Content, FileBlock, IsRead, BlockEnd, AtEdge;
    hide NewLogs, FreeCount, BlocksFor, IndirectWith, IndirectFrom, Only, NoFree, ReadsFrom;
    HasBacked(fs.sb, fs.disk, fs.g, ino);
    ghost var c := Content(fs.disk, fs.inodes[ino]);
    tot, dst := 0, [];
    if off > fs.inodes[ino].size || (off + n) % U32 < off {
      NoRead(c, off, n, room);
      return;
    }
    var want := if off + n > fs.inodes[ino].size then fs.inodes[ino].size - off else n;
    assert ReadsFrom(fs.disk, fs.inodes[ino], off, dst) by { ReadsNone(fs.disk, fs.inodes[ino], off); }
    while tot < want
      invariant tot <= want && tot == |dst| && fs.Valid() && fs.disk == old(fs.disk) && fs.g == old(fs.g)
      invariant fs.logged == old(fs.logged)
      invariant tot <= room && (tot == want || tot == 0 || AtEdge(off + tot))
      invariant ReadsFrom(fs.disk, fs.inodes[ino], off, dst)
    {
      var o := off + tot;
      SizeBacked(fs.disk, fs.inodes[ino], o);
      var addr := fs.Bmap(ino, o / BSIZE);
      var m := if want - tot < BSIZE - o % BSIZE then want - tot else BSIZE - o % BSIZE;
      if tot + m > room {
        EndOfBlock(o);
        break;
      }
      Mapped(fs.disk, fs.g.own, ino, o / BSIZE, addr);
      ReadChunk(fs.disk, fs.inodes[ino], o, m, addr);
      NextEdge(o);
      ReadsMore(fs.disk, fs.inodes[ino], off, dst, BytesOf(fs.disk[addr])[o % BSIZE..o % BSIZE + m]);
      dst := dst + BytesOf(fs.disk[addr])[o % BSIZE..o % BSIZE + m];
      tot := tot + m;
    }
    ReadSlice(fs.disk, fs.inodes[ino], off, dst);
    ReadDone(c, off, n, room, tot);
  }

  predicate AtEdge(o: nat) { o % BSIZE == 0 }

  lemma NextEdge(o: nat)
    ensures AtEdge(o + (BSIZE - o % BSIZE))
  {
  }

  lemma EndOfBlock(o: nat)
    ensures BlockEnd(o) == o + BSIZE - o % BSIZE
  {
  }

  lemma NoRead(c: seq<nat>, off: nat, n: nat, room: nat)
    requires off > |c| || off + n >= U32
    ensures IsRead(c, off, n, room, [])
  {
  }

  lemma ReadSlice(d: Disk, ip: Inode, off: nat, dst: seq<nat>)
    requires |ip.addrs| == NDIRECT + 1 && off + |dst| <= ip.size && ReadsFrom(d, ip, off, dst)
    ensures dst == Content(d, ip)[off..off + |dst|]
  {
    hide FileByte;
    var c := Content(d, ip)[off..off + |dst|];
    forall i | 0 <= i < |dst| ensures dst[i] == c[i] {
      assert dst[(off + i) - off] == FileByte(d, ip, off + i);
    }
  }

  // ----- filewrite -----

  class OpenFile {
    const ino: nat
    var off: nat

    constructor (i: nat)
      ensures ino == i && off == 0
    {
      ino, off := i, 0;
    }
  }

  /** fileread on an inode: the offset moves by what was read. */
  method FileRead(fs: FileSystem, f: OpenFile, n: nat, room: nat) returns (r: nat, dst: seq<nat>)
    requires fs.Valid() && f.ino in fs.inodes && f.off < U32 && n < U32
    modifies fs`disk, fs`inodes, fs`g, fs`logged, f
    ensures fs.Valid() && fs.disk == old(fs.disk) && fs.g == old(fs.g) && fs.logged == old(fs.logged)
    ensures |fs.inodes[f.ino].addrs| == NDIRECT + 1 && r == |dst| && f.off == old(f.off) + r
    ensures IsRead(Content(fs.disk, fs.inodes[f.ino]), old(f.off), n, room, dst)
  {
    hide Inv, AddrOf, Content, IsRead;
    r, dst := Readi(fs, f.ino, f.off, n, room);
    if r > 0 {
      f.off := f.off + r;
    }
  }

  lemma SmallFile(sb: Superblock, d: Disk, g: Ghost, ino: nat)
    requires Inv(sb, d, g) && ino in g.view
    ensures |g.view[ino].addrs| == NDIRECT + 1 && g.view[ino].size <= MAXFILE * BSIZE
  {
    HasBacked(sb, d, g, ino);
  }

  /** Reads of n bytes, one after the other until one returns nothing, yield the whole file. */
  method ReadAll(fs: FileSystem, f: OpenFile, n: nat) returns (all: seq<nat>)
    requires fs.Valid() && f.ino in fs.inodes && f.off == 0 && 0 < n < 0x8000_0000
    modifies fs`disk, fs`inodes, fs`g, fs`logged, f
    ensures fs.Valid() && fs.disk == old(fs.disk) && fs.g == old(fs.g) && fs.logged == old(fs.logged)
    ensures |fs.inodes[f.ino].addrs| == NDIRECT + 1 && all == Content(fs.disk, fs.inodes[f.ino])
    ensures f.off == |all|
  {
    hide Inv, AddrOf, Content;
    SmallFile(fs.sb, fs.disk, fs.g, f.ino);
    ghost var c := Content(fs.disk, fs.inodes[f.ino]);
    all := [];
    while true
      invariant fs.Valid() && fs.disk == old(fs.disk) && fs.g == old(fs.g) && fs.logged == old(fs.logged)
      invariant f.off <= |c| && all == c[..f.off]
      decreases |c| - f.off
    {
      var r, dst := FileRead(fs, f, n, n);
      if r == 0 {
        break;
      }
      all := all + dst;
    }
    assert c[..|c|] == c;
  }

  lemma {:induction false} LogBound(l: set<nat>, log: seq<nat>)
    requires forall b :: b in l ==> b in log
    ensures |l| <= |log|
    decreases |log|
  {
    if log == [] {
      assert l == {};
    } else {
      var last := log[|log| - 1];
      LogBound(l - {last}, log[..|log| - 1]);
      assert |l| <= |l - {last}| + 1;
    }
  }

  /** One transaction of filewrite: a chunk of at most three blocks' worth of bytes logs no
      more blocks than begin_op reserved, whatever the offset and the bitmap. */
  method WriteChunk(fs: FileSystem, f: OpenFile, n: nat, src: seq<nat>, lost: bool)
      returns (r: int, halted: bool, ghost t: nat)
    requires fs.Valid() && f.ino in fs.inodes && f.off < U32 && n <= 3 * BSIZE && |src| <= n
    modifies fs, f
    ensures halted ==> NoFree(fs.g.own)
    ensures !halted ==> fs.Valid() && f.ino in fs.inodes && |fs.logged| <= MAXOPBLOCKS
    ensures !halted ==> (r == -1 || r == n) && (r == -1 <==> Refused(old(fs.inodes)[f.ino].size, old(f.off), n))
    ensures !halted && r == -1 ==> fs.disk == old(fs.disk) && fs.inodes == old(fs.inodes) && f.off == old(f.off)
    ensures !halted && r != -1 ==> f.off == old(f.off) + n && f.off <= MAXFILE * BSIZE
    ensures !halted && r != -1 ==> t == Complete(old(f.off), n, |src|) && t <= |src|
    ensures !halted && r != -1 ==>
              && |old(fs.inodes)[f.ino].addrs| == NDIRECT + 1
              && Written(old(fs.disk), old(fs.inodes), fs.disk, fs.inodes, f.ino, old(f.off),
                         if lost && Unlogged(old(fs.disk), old(fs.inodes)[f.ino], {}, old(f.off), n, |src|)
                         then src[..t] else src, t)
    ensures |old(fs.g.view[f.ino].addrs)| == NDIRECT + 1
    ensures halted <==>
              && !Refused(old(fs.inodes)[f.ino].size, old(f.off), n)
              && FreeCount(old(fs.g.own)) < NewBlocks(old(fs.disk), old(fs.g.view[f.ino]), old(f.off) / BSIZE,
                                                      TouchEnd(old(f.off), n, |src|))
    ensures !halted && r != -1 ==>
              Grew(old(fs.disk), old(fs.g), fs.disk, fs.g, f.ino, old(f.off) / BSIZE, TouchEnd(old(f.off), n, |src|))
  {
    hide Inv, AddrOf, BytesStored, OthersBytes, FreeCount, NewBlocks, Grew, TouchEnd;
    fs.logged := {};                                       // begin_op
    ghost var log;
    r, halted, t, log := Writei(fs, f.ino, f.off, n, src, lost);
    if !halted {
      if r > 0 {
        f.off := f.off + r;
      }
      LogBound(fs.logged, log);
    }
  }

  /** A chunk may begin in the block in which the one before it ended. */
  lemma ChunkSpan(off: nat, i: nat, n1: nat, n: nat)
    requires 0 < n1 && i + n1 <= n && off + n <= MAXFILE * BSIZE
    ensures off / BSIZE <= (off + i) / BSIZE <= TouchEnd(off, i, i) <= TouchEnd(off + i, n1, n1)
    ensures (off + i) / BSIZE < TouchEnd(off + i, n1, n1) == TouchEnd(off, i + n1, i + n1) <= TouchEnd(off, n, n)
    ensures TouchEnd(off, n, n) <= MAXFILE
    ensures off / BSIZE == TouchEnd(off, i, i) ==> (off + i) / BSIZE == off / BSIZE
  {
  }

  /** The chunks of a write up to now: their bytes are in the file, and the free blocks have paid. */
  ghost predicate Chunks(d0: Disk, g0: Ghost, d: Disk, g: Ghost, ino: nat, off: nat, bytes: seq<nat>) {
    && Written(d0, g0.view, d, g.view, ino, off, bytes, |bytes|)
    && Grew(d0, g0, d, g, ino, off / BSIZE, TouchEnd(off, |bytes|, |bytes|))
  }

  /** No later chunk is refused. */
  lemma ChunksGoOn(d0: Disk, g0: Ghost, d: Disk, g: Ghost, ino: nat, off: nat, bytes: seq<nat>, n1: nat, n: nat)
    requires Chunks(d0, g0, d, g, ino, off, bytes) && |bytes| + n1 <= n && !Refused(g0.view[ino].size, off, n)
    ensures ino in g.view && |g.view[ino].addrs| == NDIRECT + 1 && !Refused(g.view[ino].size, off + |bytes|, n1)
  {
    hide BytesStored, OthersBytes, Grew, TouchEnd;
  }

  lemma ChunksMore(d0: Disk, g0: Ghost, d1: Disk, g1: Ghost, d2: Disk, g2: Ghost, ino: nat, off: nat, a: seq<nat>,
                   b: seq<nat>)
    requires Chunks(d0, g0, d1, g1, ino, off, a) && b != [] && off + |a| + |b| <= MAXFILE * BSIZE
    requires Written(d1, g1.view, d2, g2.view, ino, off + |a|, b, |b|)
    requires Grew(d1, g1, d2, g2, ino, (off + |a|) / BSIZE, TouchEnd(off + |a|, |b|, |b|))
    ensures Chunks(d0, g0, d2, g2, ino, off, a + b)
  {
    hide Written, Grew;
    WrittenTrans(d0, g0.view, d1, g1.view, d2, g2.view, ino, off, a, b);
    ChunkSpan(off, |a|, |b|, |a| + |b|);
    hide TouchEnd;
    GrewMore(d0, g0, d1, g1, d2, g2, ino, off / BSIZE, (off + |a|) / BSIZE, TouchEnd(off, |a|, |a|),
             TouchEnd(off + |a|, |b|, |b|));
  }

  lemma ChunksHalt(d0: Disk, g0: Ghost, d: Disk, g: Ghost, ino: nat, off: nat, bytes: seq<nat>, n1: nat, n: nat)
    requires Chunks(d0, g0, d, g, ino, off, bytes) && 0 < n1 && |bytes| + n1 <= n && off + n <= MAXFILE * BSIZE
    requires ino in g.view && |g.view[ino].addrs| == NDIRECT + 1
    requires FreeCount(g.own) <
               NewBlocks(d, g.view[ino], (off + |bytes|) / BSIZE, TouchEnd(off + |bytes|, n1, n1))
    ensures ino in g0.view && |g0.view[ino].addrs| == NDIRECT + 1
    ensures FreeCount(g0.own) < NewBlocks(d0, g0.view[ino], off / BSIZE, TouchEnd(off, n, n))
  {
    ChunkSpan(off, |bytes|, n1, n);
    hide Grew, TouchEnd, FreeCount, NewBlocks, BytesStored, OthersBytes;
    CannotGrow(d0, g0, d, g, ino, off / BSIZE, (off + |bytes|) / BSIZE, TouchEnd(off, |bytes|, |bytes|),
               TouchEnd(off + |bytes|, n1, n1), TouchEnd(off, n, n));
  }

  lemma ChunksStart(fs: FileSystem, ino: nat, off: nat)
    requires fs.Valid() && ino in fs.inodes && off <= fs.inodes[ino].size
    ensures Chunks(fs.disk, fs.g, fs.disk, fs.g, ino, off, [])
  {
    hide Inv, Grew, Written;
    HasBacked(fs.sb, fs.disk, fs.g, ino);
    WrittenNone(fs, ino, off);
    GrewNone(fs.disk, fs.g, ino, off / BSIZE);
  }

  lemma ChunksDone(d0: Disk, g0: Ghost, d: Disk, g: Ghost, ino: nat, off: nat, bytes: seq<nat>)
    requires Chunks(d0, g0, d, g, ino, off, bytes)
    ensures Written(d0, g0.view, d, g.view, ino, off, bytes, |bytes|)
    ensures NewBlocks(d0, g0.view[ino], off / BSIZE, TouchEnd(off, |bytes|, |bytes|)) <= FreeCount(g0.own)
  {
    hide Grew;
    GrewWithin(d0, g0, d, g, ino, off / BSIZE, TouchEnd(off, |bytes|, |bytes|));
  }

  /** Writes n bytes of which src can be copied, chunk by chunk. */
  method FileWrite(fs: FileSystem, f: OpenFile, n: int, src: seq<nat>, lost: bool) returns (ret: int, halted: bool)
    requires fs.Valid() && f.ino in fs.inodes && f.off < U32 && |src| <= (if n > 0 then n else 0) && n < 0x8000_0000
    modifies fs, f
    ensures halted ==> NoFree(fs.g.own)
    ensures !halted ==> fs.Valid() && (ret == n || ret == -1) && (n < 0 ==> ret == -1)
    ensures !halted && n >= 0 && |src| == n && !Refused(old(fs.inodes)[f.ino].size, old(f.off), n) ==>
              && ret == n && f.off == old(f.off) + n
              && Written(old(fs.disk), old(fs.inodes), fs.disk, fs.inodes, f.ino, old(f.off), src, n)
    ensures |old(fs.g.view[f.ino].addrs)| == NDIRECT + 1
    ensures n >= 0 && |src| == n && !Refused(old(fs.inodes)[f.ino].size, old(f.off), n) ==>
              (halted <==> FreeCount(old(fs.g.own)) < NewBlocks(old(fs.disk), old(fs.g.view[f.ino]), old(f.off) / BSIZE,
                                                                TouchEnd(old(f.off), n, n)))
  {
    hide Inv, AddrOf, FreeCount, NewBlocks, Grew, TouchEnd, Chunks, Written, Unlogged, NoFree;
    HasBacked(fs.sb, fs.disk, fs.g, f.ino);
    var max := ((MAXOPBLOCKS - 1 - 1 - 2) / 2) * BSIZE;
    ghost var good := n >= 0 && |src| == n && !Refused(fs.inodes[f.ino].size, f.off, n);
    if good {
      ChunksStart(fs, f.ino, f.off);
    }
    var i := 0;
    while i < n
      invariant fs.Valid() && f.ino in fs.inodes && f.off < U32 && 0 <= i && (i <= n || i == 0)
      invariant good ==> f.off == old(f.off) + i
      invariant good ==> Chunks(old(fs.disk), old(fs.g), fs.disk, fs.g, f.ino, old(f.off), src[..i])
      decreases n - i
    {
      var n1 := n - i;
      if n1 > max {
        n1 := max;
      }
      var lo, hi := if i < |src| then i else |src|, if i + n1 < |src| then i + n1 else |src|;
      ghost var d, g := fs.disk, fs.g;
      if good {
        ChunksGoOn(old(fs.disk), old(fs.g), d, g, f.ino, old(f.off), src[..i], n1, n);
      }
      var r, stop, t := WriteChunk(fs, f, n1, src[lo..hi], lost);
      if stop {
        if good {
          ChunksHalt(old(fs.disk), old(fs.g), d, g, f.ino, old(f.off), src[..i], n1, n);
        }
        return -1, true;
      }
      if r < 0 {
        break;
      }
      assert r == n1;                                      // no panic
      if good {
        WholeChunk(old(f.off) + i, n1, src[lo..hi], t);
        ChunksMore(old(fs.disk), old(fs.g), d, g, fs.disk, fs.g, f.ino, old(f.off), src[..i], src[lo..hi]);
        assert src[..i] + src[lo..hi] == src[..i + n1];
      }
      i := i + r;
    }
    if good {
      assert src[..n] == src;
      ChunksDone(old(fs.disk), old(fs.g), fs.disk, fs.g, f.ino, old(f.off), src);
    }
    ret, halted := if i == n then n else -1, false;
  }

  lemma WholeChunk(off: nat, n: nat, src: seq<nat>, t: nat)
    requires |src| == n && t == Complete(off, n, |src|)
    ensures t == n && src[..t] == src
  {
  }

  lemma WrittenNone(fs: FileSystem, ino: nat, off: nat)
    requires fs.Valid() && ino in fs.inodes
    ensures off <= fs.inodes[ino].size ==> Written(fs.disk, fs.inodes, fs.disk, fs.inodes, ino, off, [], 0)
  {
    hide BitmapInv, PlacesInv, Backed, AddrOf, FileByte;
  }
}
