/** The buffer cache of kernel/bio.c: NBUF buffers on a doubly linked ring around a list
    head, most recently released first. Buffers are named by their index; the index NBUF
    stands for the list head. */
module BufferRing {
  import opened Sequences

  const NBUF: nat := 30
  const HEAD: nat := NBUF
  const UINT: nat := 0x1_0000_0000

  /** The part of struct buf that bcache.lock protects. */
  datatype Tag = Tag(dev: nat, blockno: nat, refcnt: nat, valid: bool)

  /** No buffer occurs twice. */
  ghost predicate Buffers(s: seq<nat>) {
    forall i :: 0 <= i < |s| ==> s[i] < NBUF && IndexOf(s, s[i]) == i
  }

  function First(order: seq<nat>): nat { if order == [] then HEAD else order[0] }

  function Last(order: seq<nat>): nat { if order == [] then HEAD else order[|order| - 1] }

  /** next and prev link the head and the buffers of `order` into one ring, in that order. */
  ghost predicate IsRing(next: seq<nat>, prev: seq<nat>, order: seq<nat>) {
    && |next| == NBUF + 1 && |prev| == NBUF + 1
    && Buffers(order)
    && next[HEAD] == First(order) && prev[HEAD] == Last(order)
    && (forall i {:trigger next[order[i]]} :: 0 <= i < |order| ==>
          next[order[i]] == if i + 1 < |order| then order[i + 1] else HEAD)
    && (forall i {:trigger prev[order[i]]} :: 0 <= i < |order| ==>
          prev[order[i]] == if i > 0 then order[i - 1] else HEAD)
  }

  function Without(s: seq<nat>, i: nat): seq<nat>
    requires i < |s|
  {
    s[..i] + s[i + 1..]
  }

  /** Linking b in behind the head. */
  lemma LinkFirst(next: seq<nat>, prev: seq<nat>, order: seq<nat>, b: nat, next': seq<nat>, prev': seq<nat>)
    requires IsRing(next, prev, order) && b < NBUF && b !in order
    requires next' == next[b := next[HEAD]][HEAD := b]
    requires next[HEAD] <= NBUF && prev' == prev[b := HEAD][next[HEAD] := b]
    ensures IsRing(next', prev', [b] + order)
  {
    var order' := [b] + order;
    assert forall i :: 0 < i < |order'| ==> order'[i] == order[i - 1];
    assert forall i :: 0 <= i < |order| ==> order[i] < NBUF;
    forall i | 0 <= i < |order'|
      ensures next'[order'[i]] == if i + 1 < |order'| then order'[i + 1] else HEAD
      ensures prev'[order'[i]] == if i > 0 then order'[i - 1] else HEAD
    {
      if i > 0 {
        assert next'[order[i - 1]] == next[order[i - 1]];
        if i > 1 {
          assert order[i - 1] != order[0];
          assert prev'[order[i - 1]] == prev[order[i - 1]];
        }
      }
    }
  }

  lemma DistinctWithout(order: seq<nat>, k: nat)
    requires Buffers(order) && k < |order|
    ensures Buffers(Without(order, k))
    ensures forall i :: 0 <= i < |order| - 1 ==> Without(order, k)[i] == order[if i < k then i else i + 1]
  {
    var order' := Without(order, k);
    forall i | 0 <= i < |order'|
      ensures order'[i] < NBUF && IndexOf(order', order'[i]) == i
    {
      var j := IndexOf(order', order'[i]);
      assert order[if j < k then j else j + 1] == order[if i < k then i else i + 1];
    }
  }

  ghost predicate Unlinked(next: seq<nat>, prev: seq<nat>, order: seq<nat>, k: nat, next': seq<nat>, prev': seq<nat>) {
    && IsRing(next, prev, order) && k < |order|
    && next[order[k]] <= NBUF && prev[order[k]] <= NBUF
    && prev' == prev[next[order[k]] := prev[order[k]]]
    && next' == next[prev[order[k]] := next[order[k]]]
  }

  /** The surviving links: i is a position in the old order. */
  lemma UnlinkAt(next: seq<nat>, prev: seq<nat>, order: seq<nat>, k: nat, next': seq<nat>, prev': seq<nat>, i: nat)
    requires Unlinked(next, prev, order, k, next', prev') && i < |order| && i != k
    ensures next'[order[i]] == if i + 1 == k then (if k + 1 < |order| then order[k + 1] else HEAD)
                               else if i + 1 < |order| then order[i + 1] else HEAD
    ensures prev'[order[i]] == if i == k + 1 then (if k > 0 then order[k - 1] else HEAD)
                               else if i > 0 then order[i - 1] else HEAD
  {
    assert order[k] < NBUF && order[i] < NBUF && order[i] != order[k];
    assert k > 0 && i != k - 1 ==> order[i] != order[k - 1];
    assert k + 1 < |order| && i != k + 1 ==> order[i] != order[k + 1];
  }

  /** Unlinking the k-th buffer. */
  lemma Unlink(next: seq<nat>, prev: seq<nat>, order: seq<nat>, k: nat, next': seq<nat>, prev': seq<nat>)
    requires Unlinked(next, prev, order, k, next', prev')
    ensures IsRing(next', prev', Without(order, k))
  {
    var order' := Without(order, k);
    DistinctWithout(order, k);
    forall i | 0 <= i < |order'|
      ensures next'[order'[i]] == if i + 1 < |order'| then order'[i + 1] else HEAD
      ensures prev'[order'[i]] == if i > 0 then order'[i - 1] else HEAD
    {
      UnlinkAt(next, prev, order, k, next', prev', if i < k then i else i + 1);
    }
    assert order[k] < NBUF;
  }

  // ----- What the operations do to the tags and the order -----

  predicate Hit(t: Tag, dev: nat, blockno: nat) { t.dev == dev && t.blockno == blockno }

  function Inc(t: Tag): Tag { t.(refcnt := (t.refcnt + 1) % UINT) }

  function Dec(t: Tag): Tag { t.(refcnt := (t.refcnt - 1) % UINT) }

  /** r is unreferenced and every buffer released less recently is referenced. */
  ghost predicate LeastRecent(order: seq<nat>, tags: seq<Tag>, r: nat) {
    && r in order && |tags| == NBUF && r < NBUF && tags[r].refcnt == 0
    && forall i :: IndexOf(order, r) < i < |order| && order[i] < NBUF ==> tags[order[i]].refcnt != 0
  }

  /** bget: a cached block gets one more reference; else the least recently released
      unreferenced buffer is given to the block; else nothing changes and r < 0 (panic). */
  ghost predicate GetSpec(order: seq<nat>, tags: seq<Tag>, dev: nat, blockno: nat, r: int, tags': seq<Tag>)
    requires |tags| == NBUF
  {
    if exists b :: 0 <= b < NBUF && Hit(tags[b], dev, blockno) then
      0 <= r < NBUF && Hit(tags[r], dev, blockno) && tags' == tags[r := Inc(tags[r])]
    else if exists b :: 0 <= b < NBUF && tags[b].refcnt == 0 then
      0 <= r < NBUF && LeastRecent(order, tags, r) && tags' == tags[r := Tag(dev, blockno, 1, false)]
    else r < 0 && tags' == tags
  }

  /** brelse's locked half: a buffer that loses its last reference moves to the front. */
  ghost function Released(order: seq<nat>, b: nat, t: Tag): seq<nat>
    requires b in order
  {
    if t.refcnt == 0 then [b] + Without(order, IndexOf(order, b)) else order
  }

  /** bcache, with the fields of all buffers side by side: next[b], prev[b], tags[b]. */
  class Bcache {
    var next: seq<nat>
    var prev: seq<nat>
    var tags: seq<Tag>
    ghost var order: seq<nat>

    ghost predicate Valid()
      reads this
    {
      && |tags| == NBUF && |order| == NBUF && IsRing(next, prev, order)
      && forall b :: 0 <= b < NBUF ==> b in order
    }

    /** binit */
    constructor ()
      ensures Valid()
      ensures forall b :: 0 <= b < NBUF ==> tags[b] == Tag(0, 0, 0, false) && order[b] == NBUF - 1 - b
    {
      var nx: seq<nat>, pv: seq<nat> := seq(NBUF + 1, _ => HEAD), seq(NBUF + 1, _ => HEAD);
      ghost var ord: seq<nat> := [];
      var b := 0;
      while b < NBUF
        invariant 0 <= b <= NBUF && IsRing(nx, pv, ord) && |ord| == b
        invariant forall c :: 0 <= c < b ==> ord[c] == b - 1 - c
        invariant forall c :: 0 <= c < b ==> c in ord
      {
        ghost var nx0, pv0 := nx, pv;
        assert nx[HEAD] <= NBUF;
        nx := nx[b := nx[HEAD]];
        pv := pv[b := HEAD];
        pv := pv[nx[HEAD] := b];
        nx := nx[HEAD := b];
        LinkFirst(nx0, pv0, ord, b, nx, pv);
        ord := [b] + ord;
        b := b + 1;
      }
      next, prev, tags, order := nx, pv, seq(NBUF, _ => Tag(0, 0, 0, false)), ord;
    }

    /** bget up to the release of bcache.lock; r < 0 where the code panics. */
    method Bget(dev: nat, blockno: nat) returns (r: int)
      requires Valid()
      modifies this`tags
      ensures Valid() && GetSpec(order, old(tags), dev, blockno, r, tags)
    {
      ghost var i := 0;
      r := next[HEAD];
      while r != HEAD
        invariant 0 <= i <= NBUF && r == (if i < NBUF then order[i] else HEAD) && tags == old(tags)
        invariant forall j :: 0 <= j < i ==> order[j] < NBUF && !Hit(tags[order[j]], dev, blockno)
        decreases NBUF - i
      {
        assert order[i] < NBUF;
        if Hit(tags[r], dev, blockno) {
          tags := tags[r := Inc(tags[r])];
          return;
        }
        r := next[r];
        i := i + 1;
      }
      forall b | 0 <= b < NBUF
        ensures !Hit(tags[b], dev, blockno)
      {
        assert order[IndexOf(order, b)] == b;
      }

      r := prev[HEAD];
      while r != HEAD
        invariant 0 <= i <= NBUF && r == (if i > 0 then order[i - 1] else HEAD) && tags == old(tags)
        invariant forall j :: i <= j < NBUF ==> order[j] < NBUF && tags[order[j]].refcnt != 0
        decreases i
      {
        assert order[i - 1] < NBUF && IndexOf(order, order[i - 1]) == i - 1;
        if tags[r].refcnt == 0 {
          assert LeastRecent(order, tags, r);
          tags := tags[r := Tag(dev, blockno, 1, false)];
          return;
        }
        r := prev[r];
        i := i - 1;
      }
      forall b | 0 <= b < NBUF
        ensures tags[b].refcnt != 0
      {
        assert order[IndexOf(order, b)] == b;
      }
      r := -1;
    }

    /** brelse from the acquisition of bcache.lock on. */
    method Brelse(b: nat)
      requires Valid() && b < NBUF
      modifies this
      ensures Valid() && tags == old(tags)[b := Dec(old(tags)[b])]
      ensures order == Released(old(order), b, tags[b])
    {
      tags := tags[b := Dec(tags[b])];
      if tags[b].refcnt == 0 {
        ghost var k := IndexOf(order, b);
        ghost var nx0, pv0 := next, prev;
        RingIndices(next, prev, order, k);
        prev := prev[next[b] := prev[b]];
        next := next[prev[b] := next[b]];
        Unlink(nx0, pv0, order, k, next, prev);
        ghost var nx1, pv1 := next, prev;
        ghost var rest := Without(order, k);
        next := next[b := next[HEAD]];
        prev := prev[b := HEAD];
        prev := prev[next[HEAD] := b];
        next := next[HEAD := b];
        LinkFirst(nx1, pv1, rest, b, next, prev);
        AllIn(order, k);
        order := [b] + rest;
      }
    }

    method Bpin(b: nat)
      requires Valid() && b < NBUF
      modifies this`tags
      ensures Valid() && tags == old(tags)[b := Inc(old(tags)[b])]
    {
      tags := tags[b := Inc(tags[b])];
    }

    method Bunpin(b: nat)
      requires Valid() && b < NBUF
      modifies this`tags
      ensures Valid() && tags == old(tags)[b := Dec(old(tags)[b])]
    {
      tags := tags[b := Dec(tags[b])];
    }
  }

  lemma RingIndices(next: seq<nat>, prev: seq<nat>, order: seq<nat>, k: nat)
    requires IsRing(next, prev, order) && k < |order|
    ensures order[k] < NBUF && next[order[k]] <= NBUF && prev[order[k]] <= NBUF && next[HEAD] <= NBUF
    ensures next[order[k]] != order[k] && prev[order[k]] != order[k]
  {
    assert next[order[k]] == if k + 1 < |order| then order[k + 1] else HEAD;
    assert prev[order[k]] == if k > 0 then order[k - 1] else HEAD;
  }

  /** Moving a buffer to the front loses no buffer. */
  lemma AllIn(order: seq<nat>, k: nat)
    requires k < |order| && Buffers(order) && |order| == NBUF && forall b :: 0 <= b < NBUF ==> b in order
    ensures order[k] !in Without(order, k)
    ensures forall b :: 0 <= b < NBUF ==> b in [order[k]] + Without(order, k)
  {
    var rest := Without(order, k);
    DistinctWithout(order, k);
    forall b | 0 <= b < NBUF
      ensures b in [order[k]] + rest
    {
      var i := IndexOf(order, b);
      if i < k {
        assert rest[i] == b;
      } else if i > k {
        assert rest[i - 1] == b;
      }
    }
    forall i | 0 <= i < |rest|
      ensures rest[i] != order[k]
    {
      assert rest[i] == order[if i < k then i else i + 1];
    }
  }
}
