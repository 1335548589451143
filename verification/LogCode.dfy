/** The code of kernel/log.c as it runs in one process: loops that move blocks between the
    buffer cache and the disk, one bwrite at a time. Every block write is recorded in
    `writes`; the methods are proved to issue exactly the sequences of RedoLog, whose
    crashes CrashAtomicity covers prefix by prefix. */
module LogCode {
  import opened Params
  import opened RedoLog

  /** BSIZE / sizeof(int) */
  const BWORDS: nat := 256

  /** Word 0 of a header block is n, words 1 .. n are block[0..n). */
  ghost predicate Announces(b: Contents, lh: seq<nat>) {
    && |b.words| == BWORDS && |lh| <= LOGSIZE && b.words[0] == |lh|
    && forall i :: 0 <= i < |lh| ==> b.words[i + 1] == lh[i]
  }

  lemma {:induction false} ApplyConcat(d: Disk, us: seq<Write>, ws: seq<Write>, k: nat)
    requires k <= |ws|
    ensures ApplyPrefix(d, us + ws, |us| + k) == ApplyPrefix(ApplyPrefix(d, us, |us|), ws, k)
  {
    if k == 0 {
      ApplyTake(d, us, ws, |us|);
    } else {
      ApplyConcat(d, us, ws, k - 1);
    }
  }

  lemma {:induction false} ApplyTake(d: Disk, us: seq<Write>, ws: seq<Write>, k: nat)
    requires k <= |us|
    ensures ApplyPrefix(d, us + ws, k) == ApplyPrefix(d, us, k)
  {
    if k > 0 {
      ApplyTake(d, us, ws, k - 1);
    }
  }

  lemma Regroup(w: seq<Write>, a: seq<Write>, b: seq<Write>, c: seq<Write>, e: seq<Write>)
    ensures w + a + b + c + e == w + (a + b + c + e)
  {
  }

  lemma RecoverDone(l: Layout, first: Disk, us: seq<Write>, d: Disk)
    requires LogOk(l, d) && d == ApplyPrefix(first, us, |us|)
    ensures var ws := us + InstallWrites(d.head, LogBlocks(l, d, |d.head|)) + [Header([])];
            ws == us + RecoverWrites(l, d) && ApplyPrefix(first, ws, |ws|) == Recover(l, d)
  {
    Regroup(us, InstallWrites(d.head, LogBlocks(l, d, |d.head|)), [], [], [Header([])]);
    ApplyConcat(first, us, RecoverWrites(l, d), |RecoverWrites(l, d)|);
  }

  class Log {
    const l: Layout
    var blocks: seq<Contents>        // the disk
    var cache: map<nat, Contents>    // the valid buffers
    var n: nat                       // lh.n
    var block: array<nat>            // lh.block
    var outstanding: int
    var committing: bool
    ghost var head: seq<nat>         // what the header block announces
    ghost var writes: seq<Write>     // every block write so far
    ghost const first: Disk          // the disk before them

    ghost predicate Valid()
      reads this, block
    {
      && 0 < l.nlog && l.start + l.nlog <= |blocks|
      && block.Length == LOGSIZE && n <= LOGSIZE
      && (forall b :: b in cache ==> b < |blocks|)
      && (forall b :: b in cache && l.start <= b < l.start + l.nlog ==> cache[b] == blocks[b])
      && Announces(blocks[l.start], head)
      && Image() == ApplyPrefix(first, writes, |writes|)
    }

    /** What bread returns. */
    function View(b: nat): Contents
      reads this
      requires b < |blocks|
    {
      if b in cache then cache[b] else blocks[b]
    }

    /** The disk with its header block decoded. */
    ghost function Image(): Disk
      reads this
      requires l.start < |blocks|
    {
      Disk(head, blocks[l.start := Contents([])])
    }

    /** The blocks behind the header that lh needs, on the disk whether or not the log area
        reaches so far. */
    ghost predicate Slot(b: nat)
      reads this
    {
      l.start < b <= l.start + n
    }

    /** The slots exist, and no announced block is one of them. */
    ghost predicate Placed()
      reads this, block
      requires Valid()
    {
      l.start + n < |blocks| && forall i :: 0 <= i < n ==> block[i] < |blocks| && block[i] != l.start && !Slot(block[i])
    }

    constructor (l: Layout, blocks: seq<Contents>, ghost head: seq<nat>)
      requires 0 < l.nlog && l.start + l.nlog <= |blocks| && Announces(blocks[l.start], head)
      ensures Valid() && fresh(block) && this.l == l && this.blocks == blocks && this.head == head
      ensures cache == map[] && n == 0 && outstanding == 0 && !committing && writes == []
    {
      this.l := l;
      this.blocks := blocks;
      this.head := head;
      cache, n, outstanding, committing, writes := map[], 0, 0, false, [];
      block := new nat[LOGSIZE];
      first := Disk(head, blocks[l.start := Contents([])]);
    }

    method Bread(b: nat) returns (data: Contents)
      requires Valid() && b < |blocks|
      modifies this`cache
      ensures Valid() && data == old(View(b)) && cache == old(cache)[b := data]
    {
      if b !in cache {
        cache := cache[b := blocks[b]];
      }
      data := cache[b];
    }

    /** bwrite, after the buffer's data was replaced; a header block announces lh. */
    method Bwrite(b: nat, data: Contents, ghost lh: seq<nat>)
      requires Valid() && b < |blocks| && b in cache && (b == l.start ==> Announces(data, lh))
      modifies this`cache, this`blocks, this`head, this`writes
      ensures Valid() && cache == old(cache)[b := data] && blocks == old(blocks)[b := data]
      ensures head == if b == l.start then lh else old(head)
      ensures writes == old(writes) + [if b == l.start then Header(lh) else Block(b, data)]
    {
      ghost var w := if b == l.start then Header(lh) else Block(b, data);
      cache := cache[b := data];
      blocks := blocks[b := data];
      head := if b == l.start then lh else head;
      ApplyTake(first, writes, [w], |writes|);
      writes := writes + [w];
      assert Image() == Apply(old(Image()), w);
    }

    /** write_head: one block write, of a header that announces lh. */
    method WriteHead()
      requires Valid()
      modifies this`cache, this`blocks, this`head, this`writes
      ensures Valid() && writes == old(writes) + [Header(block[..n])] && head == block[..n]
      ensures |blocks| == old(|blocks|)
      ensures forall b: nat :: b < |blocks| && b != l.start ==> View(b) == old(View(b))
    {
      var hb := Bread(l.start);
      var words := hb.words[0 := n];
      var i := 0;
      while i < n
        invariant 0 <= i <= n && |words| == BWORDS && words[0] == n
        invariant forall j :: 0 <= j < i ==> words[j + 1] == block[j]
      {
        words := words[i + 1 := block[i]];
        i := i + 1;
      }
      Bwrite(l.start, Contents(words), block[..n]);
    }

    /** read_head: lh becomes what the header block announces. */
    method ReadHead()
      requires Valid()
      modifies this`cache, this`n, block
      ensures Valid() && block[..n] == head && cache == old(cache)[l.start := blocks[l.start]]
    {
      var hb := Bread(l.start);
      n := 0;
      var i := 0;
      while i < hb.words[0]
        invariant 0 <= i <= |head| && hb == blocks[l.start] && n == 0 && Valid()
        invariant block[..i] == head[..i]
        invariant cache == old(cache)[l.start := blocks[l.start]]
      {
        assert hb.words[i + 1] == head[i];
        block[i] := hb.words[i + 1];
        i := i + 1;
      }
      n := i;
    }

    /** The body of both copying loops: read two buffers, copy one to the other, write it. */
    method CopyBlock(from: nat, to: nat)
      requires Valid() && from < |blocks| && to < |blocks| && to != l.start
      modifies this`cache, this`blocks, this`head, this`writes
      ensures Valid() && |blocks| == old(|blocks|) && head == old(head)
      ensures writes == old(writes) + [Block(to, old(View(from)))]
      ensures View(to) == old(View(from))
      ensures forall b: nat :: b < |blocks| && b != to ==> View(b) == old(View(b))
    {
      var data := Bread(from);
      var overwritten := Bread(to);
      Bwrite(to, data, []);
    }

    /** write_log: copies the cached contents of every logged block into the log. */
    method WriteLog(ghost vals: seq<Contents>)
      requires Valid() && Placed() && |vals| == n && forall i :: 0 <= i < n ==> View(block[i]) == vals[i]
      modifies this`cache, this`blocks, this`head, this`writes
      ensures Valid() && Placed() && |blocks| == old(|blocks|) && head == old(head)
      ensures writes == old(writes) + LogWrites(l, vals)
      ensures forall b: nat :: b < |blocks| && !Slot(b) ==> View(b) == old(View(b))
      ensures forall i :: 0 <= i < n ==> View(l.start + i + 1) == vals[i]
    {
      var tail := 0;
      while tail < n
        invariant 0 <= tail <= n && Valid() && Placed() && |blocks| == old(|blocks|) && head == old(head)
        invariant writes == old(writes) + LogWrites(l, vals)[..tail]
        invariant forall b: nat :: b < |blocks| && !Slot(b) ==> View(b) == old(View(b))
        invariant forall i :: 0 <= i < tail ==> View(l.start + i + 1) == vals[i]
      {
        assert !Slot(block[tail]);
        CopyBlock(block[tail], l.start + tail + 1);
        tail := tail + 1;
      }
      assert LogWrites(l, vals)[..n] == LogWrites(l, vals);
    }

    /** install_trans: copies every log block home. */
    method InstallTrans(ghost vals: seq<Contents>)
      requires Valid() && Placed() && |vals| == n && forall i :: 0 <= i < n ==> View(l.start + i + 1) == vals[i]
      modifies this`cache, this`blocks, this`head, this`writes
      ensures Valid() && |blocks| == old(|blocks|) && head == old(head)
      ensures writes == old(writes) + InstallWrites(block[..n], vals)
    {
      ghost var ws := InstallWrites(block[..n], vals);
      var tail := 0;
      while tail < n
        invariant 0 <= tail <= n && Valid() && Placed() && |blocks| == old(|blocks|) && head == old(head)
        invariant writes == old(writes) + ws[..tail]
        invariant forall i :: 0 <= i < n ==> View(l.start + i + 1) == vals[i]
      {
        assert !Slot(block[tail]);
        CopyBlock(l.start + tail + 1, block[tail]);
        tail := tail + 1;
      }
      assert ws[..n] == ws;
    }

    /** commit */
    method Commit(ghost vals: seq<Contents>)
      requires Valid() && Placed() && |vals| == n && forall i :: 0 <= i < n ==> View(block[i]) == vals[i]
      modifies this`cache, this`blocks, this`head, this`writes, this`n
      ensures Valid() && |blocks| == old(|blocks|) && n == 0
      ensures writes == old(writes) + CommitWrites(l, old(block[..n]), vals)
    {
      ghost var lh := block[..n];
      if n > 0 {
        WriteLog(vals);
        WriteHead();
        InstallTrans(vals);
        n := 0;
        WriteHead();
        Regroup(old(writes), LogWrites(l, vals), [Header(lh)], InstallWrites(lh, vals), [Header([])]);
      }
    }

    /** After read_head, bread sees in the log the blocks that the header announces. */
    lemma AnnouncedBlocks(vals: seq<Contents>)
      requires Valid() && LogOk(l, Image()) && block[..n] == head && vals == LogBlocks(l, Image(), n)
      ensures Placed() && forall i :: 0 <= i < n ==> View(l.start + i + 1) == vals[i]
    {
      forall i | 0 <= i < n
        ensures block[i] < |blocks| && block[i] != l.start && !Slot(block[i]) && View(l.start + i + 1) == vals[i]
      {
        assert block[..n][i] == head[i];
        assert IsHome(l, Image(), head[i]);
      }
    }

    /** recover_from_log */
    method RecoverFromLog()
      requires Valid() && LogOk(l, Image())
      modifies this`cache, this`blocks, this`head, this`writes, this`n, block
      ensures Valid() && n == 0 && head == []
      ensures writes == old(writes) + RecoverWrites(l, old(Image()))
      ensures Image() == Recover(l, old(Image()))
    {
      ghost var vals := LogBlocks(l, Image(), |head|);
      ReadHead();
      AnnouncedBlocks(vals);
      InstallTrans(vals);
      n := 0;
      WriteHead();
      RecoverDone(l, first, old(writes), old(Image()));
    }

    /** log_write: absorb the block or append it; `ok` is false where the code panics. */
    method LogWrite(b: nat) returns (ok: bool)
      requires Valid()
      modifies this`n, block
      ensures Valid()
      ensures ok == (old(n) < LOGSIZE && old(n) < l.nlog - 1 && outstanding >= 1)
      ensures block[..n] == if !ok || b in old(block[..n]) then old(block[..n]) else old(block[..n]) + [b]
    {
      ok := !(n >= LOGSIZE || n >= l.nlog - 1) && !(outstanding < 1);
      if ok {
        var i := 0;
        while i < n && block[i] != b
          invariant 0 <= i <= n && b !in block[..i]
        {
          i := i + 1;
        }
        block[i] := b;
        if i == n {
          n := n + 1;
        }
      }
    }

    /** One turn of begin_op's loop, made while holding log.lock; false where it sleeps. */
    method TryBeginOp() returns (begun: bool)
      requires Valid()
      modifies this`outstanding
      ensures Valid()
      ensures begun == (!committing && n + (old(outstanding) + 1) * MAXOPBLOCKS <= LOGSIZE)
      ensures outstanding == if begun then old(outstanding) + 1 else old(outstanding)
    {
      begun := false;
      if committing {
      } else if n + (outstanding + 1) * MAXOPBLOCKS > LOGSIZE {
      } else {
        outstanding := outstanding + 1;
        begun := true;
      }
    }

    /** end_op: the last operation to end commits what the group logged. */
    method EndOp(ghost vals: seq<Contents>)
      requires Valid() && !committing
      requires outstanding == 1 ==> Placed() && |vals| == n && forall i :: 0 <= i < n ==> View(block[i]) == vals[i]
      modifies this`outstanding, this`committing, this`cache, this`blocks, this`head, this`writes, this`n
      ensures Valid() && !committing && outstanding == old(outstanding) - 1
      ensures outstanding != 0 ==> writes == old(writes) && n == old(n)
      ensures outstanding == 0 ==> writes == old(writes) + CommitWrites(l, old(block[..n]), vals) && n == 0
    {
      outstanding := outstanding - 1;
      var doCommit := outstanding == 0;
      if doCommit {
        committing := true;
        Commit(vals);
        committing := false;
      }
    }
  }
}
