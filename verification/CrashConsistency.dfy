/** The log and the inode layer together: if the operations of a run, taken one after the other in
    an order that agrees with the order of their stores to each block, keep the file system
    consistent, then so does every crash. */
module CrashConsistency {
  import opened Params
  import opened Sequences
  import opened Counting
  import opened RedoLog
  import opened LogProtocol
  import opened LogTheorems
  import FsBlocks

  // ----- Serial order -----

  /** The stores of the operations ops, one operation after the other. */
  function Serially(es: seq<Entry>, ops: seq<nat>): seq<Entry> {
    if ops == [] then [] else Serially(es, ops[..|ops| - 1]) + Of(es, ops[|ops| - 1])
  }

  /** ops lists the operations of es in an order that agrees with es on every block: of two
      stores to a block by different operations, the earlier is by the earlier operation. */
  ghost predicate InOrder(es: seq<Entry>, ops: seq<nat>) {
    Distinct(ops) && (forall e :: e in es ==> e.op in ops) && Agrees(es, ops)
  }

  ghost predicate Agrees(es: seq<Entry>, ops: seq<nat>)
    requires forall e :: e in es ==> e.op in ops
  {
    forall i, j :: 0 <= i < j < |es| && es[i].b == es[j].b && es[i].op != es[j].op ==>
      IndexOf(ops, es[i].op) < IndexOf(ops, es[j].op)
  }

  /** The stores to block b. */
  function To(es: seq<Entry>, b: nat): seq<Entry> {
    if es == [] then [] else To(es[..|es| - 1], b) + if es[|es| - 1].b == b then [es[|es| - 1]] else []
  }

  /** The stores of the operations other than o. */
  function Others(es: seq<Entry>, o: nat): seq<Entry> {
    if es == [] then [] else Others(es[..|es| - 1], o) + if es[|es| - 1].op != o then [es[|es| - 1]] else []
  }

  /** One store more. */
  lemma Step(es: seq<Entry>, o: nat, b: nat)
    requires es != []
    ensures var n := |es| - 1;
            && Of(es, o) == (if es[n].op == o then Of(es[..n], o) + [es[n]] else Of(es[..n], o))
            && Others(es, o) == (if es[n].op != o then Others(es[..n], o) + [es[n]] else Others(es[..n], o))
            && To(es, b) == (if es[n].b == b then To(es[..n], b) + [es[n]] else To(es[..n], b))
  {
    var n := |es| - 1;
    assert Of(es[..n], o) + [] == Of(es[..n], o);
    assert Others(es[..n], o) + [] == Others(es[..n], o);
    assert To(es[..n], b) + [] == To(es[..n], b);
  }

  /** A block is what the last store to it says. */
  lemma {:induction false} ReplayLast(base: seq<Contents>, es: seq<Entry>, b: nat)
    requires b < |base|
    ensures Replay(base, es)[b] == if To(es, b) == [] then base[b] else To(es, b)[|To(es, b)| - 1].data
  {
    if es != [] {
      ReplayLast(base, es[..|es| - 1], b);
    }
  }

  lemma {:induction false} ToConcat(es: seq<Entry>, fs: seq<Entry>, b: nat)
    ensures To(es + fs, b) == To(es, b) + To(fs, b)
    decreases |fs|
  {
    if fs == [] {
      assert es + fs == es;
    } else {
      var n := |fs| - 1;
      assert (es + fs)[..|es| + n] == es + fs[..n];
      ToConcat(es, fs[..n], b);
    }
  }

  lemma {:induction false} OthersIn(es: seq<Entry>, o: nat, e: Entry)
    ensures e in Others(es, o) <==> e in es && e.op != o
  {
    if es != [] {
      var n := |es| - 1;
      OthersIn(es[..n], o, e);
      assert es == es[..n] + [es[n]];
    }
  }

  /** No store to b by another operation follows one by o. */
  ghost predicate LastOn(es: seq<Entry>, o: nat, b: nat) {
    forall i, j :: 0 <= i < j < |es| && es[i].b == b && es[j].b == b && es[i].op == o ==> es[j].op == o
  }

  lemma {:induction false} Split(es: seq<Entry>, o: nat, b: nat)
    requires LastOn(es, o, b)
    ensures To(es, b) == To(Others(es, o), b) + To(Of(es, o), b)
  {
    if es == [] {
      assert To(es, b) == [];
    } else {
      hide To, Of, Others, LastOn;
      var n := |es| - 1;
      LastOnBefore(es, o, b);
      Split(es[..n], o, b);
      if es[n].b == b && es[n].op != o {
        NoneTo(es[..n], o, b);
      }
      SplitMore(es[..n], es[n], o, b);
      assert es == es[..n] + [es[n]];
    }
  }

  lemma SplitMore(es: seq<Entry>, e: Entry, o: nat, b: nat)
    requires To(es, b) == To(Others(es, o), b) + To(Of(es, o), b)
    requires e.b == b && e.op != o ==> To(Of(es, o), b) == []
    ensures To(es + [e], b) == To(Others(es + [e], o), b) + To(Of(es + [e], o), b)
  {
    hide To, Of, Others;
    var t, x, y := To(es, b), To(Others(es, o), b), To(Of(es, o), b);
    ToMore(es, e, b);
    OfMore(es, e, o);
    ToMore(Of(es, o), e, b);
    ToMore(Others(es, o), e, b);
    if e.b == b && e.op == o {
      assert t + [e] == x + (y + [e]);
    } else if e.b == b {
      assert t + [e] == (x + [e]) + y;
    }
  }

  lemma OfMore(es: seq<Entry>, e: Entry, o: nat)
    ensures Of(es + [e], o) == if e.op == o then Of(es, o) + [e] else Of(es, o)
    ensures Others(es + [e], o) == if e.op != o then Others(es, o) + [e] else Others(es, o)
  {
    assert (es + [e])[..|es|] == es;
    Step(es + [e], o, 0);
  }

  lemma LastOnBefore(es: seq<Entry>, o: nat, b: nat)
    requires es != [] && LastOn(es, o, b)
    ensures var n := |es| - 1;
            && LastOn(es[..n], o, b)
            && (es[n].b == b && es[n].op != o ==> forall e :: e in es[..n] ==> !(e.b == b && e.op == o))
  {
  }

  lemma ToMore(es: seq<Entry>, e: Entry, b: nat)
    ensures To(es + [e], b) == if e.b == b then To(es, b) + [e] else To(es, b)
  {
    assert (es + [e])[..|es|] == es;
    Step(es + [e], 0, b);
  }

  lemma {:induction false} NoneTo(es: seq<Entry>, o: nat, b: nat)
    requires forall e :: e in es ==> !(e.b == b && e.op == o)
    ensures To(Of(es, o), b) == []
  {
    if es != [] {
      var n := |es| - 1;
      assert es[n] in es && forall e :: e in es[..n] ==> e in es;
      NoneTo(es[..n], o, b);
      Step(es, o, b);
      ToMore(Of(es[..n], o), es[n], b);
    }
  }

  /** Of the operations but the last one, nothing is lost with it. */
  lemma {:induction false} OfOthers(es: seq<Entry>, o: nat, p: nat)
    requires p != o
    ensures Of(Others(es, o), p) == Of(es, p)
  {
    if es != [] {
      var n := |es| - 1;
      OfOthers(es[..n], o, p);
      Step(es, o, 0);
      if es[n].op != o {
        OfConcat(Others(es[..n], o), [es[n]], p);
        OfOne(es[n], p);
      }
    }
  }

  lemma OfOne(e: Entry, p: nat)
    ensures Of([e], p) == if e.op == p then [e] else []
  {
    assert Of([e], p) == Of([e][..0], p) + if e.op == p then [e] else [];
  }

  lemma {:induction false} SeriallyOthers(es: seq<Entry>, o: nat, ops: seq<nat>)
    requires o !in ops
    ensures Serially(Others(es, o), ops) == Serially(es, ops)
  {
    if ops != [] {
      SeriallyOthers(es, o, ops[..|ops| - 1]);
      OfOthers(es, o, ops[|ops| - 1]);
    }
  }

  /** Positions in a prefix are positions in the whole. */
  lemma IndexBefore(ops: seq<nat>, n: nat, x: nat)
    requires Distinct(ops) && n <= |ops| && x in ops[..n]
    ensures IndexOf(ops[..n], x) == IndexOf(ops, x)
  {
    var i := IndexOf(ops[..n], x);
    assert ops[i] == x && IndexOf(ops, ops[i]) == i;
  }

  lemma {:induction false} SubAgrees(es: seq<Entry>, ops: seq<nat>, o: nat, ops': seq<nat>)
    requires Distinct(ops) && (forall e :: e in es ==> e.op in ops) && Agrees(es, ops)
    requires ops' <= ops && Distinct(ops') && forall e :: e in Others(es, o) ==> e.op in ops'
    ensures Agrees(Others(es, o), ops')
  {
    if es != [] {
      hide Others, Distinct;
      var n := |es| - 1;
      Step(es, o, 0);
      assert forall e :: e in es[..n] ==> e in es;
      assert forall e :: e in Others(es[..n], o) ==> e in Others(es, o);
      SubAgrees(es[..n], ops, o, ops');
      if es[n].op != o {
        assert es[n] in Others(es, o);
        LastAgrees(es, ops, o, ops', n);
        hide Agrees;
        AgreesMore(Others(es[..n], o), es[n], ops');
      }
    }
  }

  lemma AgreesMore(es: seq<Entry>, e: Entry, ops: seq<nat>)
    requires (forall x :: x in es + [e] ==> x.op in ops) && (forall x :: x in es ==> x.op in ops) && e.op in ops
    requires Agrees(es, ops)
    requires forall x :: x in es && x.b == e.b && x.op != e.op ==> IndexOf(ops, x.op) < IndexOf(ops, e.op)
    ensures Agrees(es + [e], ops)
  {
  }

  lemma LastAgrees(es: seq<Entry>, ops: seq<nat>, o: nat, ops': seq<nat>, n: nat)
    requires Distinct(ops) && (forall e :: e in es ==> e.op in ops) && Agrees(es, ops) && ops' <= ops && Distinct(ops')
    requires n < |es| && es[n].op in ops' && forall e :: e in Others(es[..n], o) ==> e.op in ops'
    ensures forall e :: e in Others(es[..n], o) && e.b == es[n].b && e.op != es[n].op ==>
              IndexOf(ops', e.op) < IndexOf(ops', es[n].op)
  {
    forall e | e in Others(es[..n], o) && e.b == es[n].b && e.op != es[n].op
      ensures IndexOf(ops', e.op) < IndexOf(ops', es[n].op)
    {
      OthersIn(es[..n], o, e);
      var j :| 0 <= j < n && es[..n][j] == e;
      assert es[j] == e;
      IndexBefore(ops, |ops'|, e.op);
      IndexBefore(ops, |ops'|, es[n].op);
    }
  }

  /** Without the operation that is last, the others are still in order. */
  lemma OthersInOrder(es: seq<Entry>, ops: seq<nat>, o: nat, ops': seq<nat>)
    requires InOrder(es, ops) && ops == ops' + [o]
    ensures InOrder(Others(es, o), ops') && o !in ops' && forall b :: LastOn(es, o, b)
  {
    var n := |ops'|;
    NotBefore(ops, n);
    assert ops[..n] == ops' && IndexOf(ops, ops[n]) == n;
    forall e | e in Others(es, o) ensures e in es && e.op in ops' {
      OthersIn(es, o, e);
    }
    SubAgrees(es, ops, o, ops');
  }

  lemma {:induction false} ToNone(es: seq<Entry>, b: nat)
    requires forall e :: e in es ==> e.b != b
    ensures To(es, b) == []
  {
    if es != [] {
      var n := |es| - 1;
      assert es[n] in es && forall e :: e in es[..n] ==> e in es;
      ToNone(es[..n], b);
    }
  }

  /** Stores in such an order have the effect of the operations one after the other. */
  lemma {:induction false} SameStores(es: seq<Entry>, ops: seq<nat>, b: nat)
    requires InOrder(es, ops)
    ensures To(es, b) == To(Serially(es, ops), b)
    decreases |ops|
  {
    if ops == [] {
      ToNone(es, b);
    } else {
      var n := |ops| - 1;
      OthersInOrder(es, ops, ops[n], ops[..n]);
      SameStores(Others(es, ops[n]), ops[..n], b);
      SeriallyOthers(es, ops[n], ops[..n]);
      Split(es, ops[n], b);
      ToConcat(Serially(es, ops[..n]), Of(es, ops[n]), b);
    }
  }

  lemma SerialReplay(base: seq<Contents>, es: seq<Entry>, ops: seq<nat>)
    requires InOrder(es, ops)
    ensures Replay(base, es) == Replay(base, Serially(es, ops))
  {
    forall b: nat | b < |base| ensures Replay(base, es)[b] == Replay(base, Serially(es, ops))[b] {
      SameStores(es, ops, b);
      ReplayLast(base, es, b);
      ReplayLast(base, Serially(es, ops), b);
    }
  }

  // ----- The file system on the blocks -----

  /** What the blocks of a disk say: the blocks of the file system and its inodes. */
  datatype Image = Image(disk: FsBlocks.Disk, files: map<nat, FsBlocks.Inode>)

  ghost predicate Sound(sb: FsBlocks.Superblock, img: Image) { FsBlocks.Consistent(sb, img.disk, img.files) }

  /** read looks at home blocks only. */
  ghost predicate ReadsHome(l: Layout, read: seq<Contents> -> Image) {
    forall x, y :: SameHome(l, x, y) ==> read(x) == read(y)
  }

  predicate SameHome(l: Layout, x: seq<Contents>, y: seq<Contents>) {
    |x| == |y| && forall b :: 0 <= b < |x| && !(l.start <= b < l.start + l.nlog) ==> x[b] == y[b]
  }

  /** The blocks after the first k operations of the order. */
  ghost function After(h: History, ops: seq<nat>, k: nat): seq<Contents>
    requires k <= |ops|
  {
    Replay(h.init, Serially(Flatten(h.done), ops[..k]))
  }

  /** The stores of operation k of the order, all that it issued, take a consistent file system
      to a consistent one. */
  ghost predicate Keeps(h: History, sb: FsBlocks.Superblock, read: seq<Contents> -> Image, ops: seq<nat>, k: nat)
    requires k < |ops|
  {
    Sound(sb, read(After(h, ops, k))) ==>
      Sound(sb, read(Replay(After(h, ops, k), Of(h.issued, ops[k]))))
  }

  lemma {:induction false} AllKeep(h: History, sb: FsBlocks.Superblock, read: seq<Contents> -> Image, ops: seq<nat>,
                                   k: nat)
    requires k <= |ops| && Sound(sb, read(h.init)) && forall o :: AllOrNothing(h, o)
    requires forall j :: 0 <= j < |ops| ==> Keeps(h, sb, read, ops, j)
    ensures Sound(sb, read(After(h, ops, k)))
  {
    hide Sound;
    if k > 0 {
      AllKeep(h, sb, read, ops, k - 1);
      assert Keeps(h, sb, read, ops, k - 1);
      var es, o := Flatten(h.done), ops[k - 1];
      assert ops[..k][..k - 1] == ops[..k - 1] && ops[..k][k - 1] == o;
      assert Serially(es, ops[..k]) == Serially(es, ops[..k - 1]) + Of(es, o);
      ReplayConcat(h.init, Serially(es, ops[..k - 1]), Of(es, o));
      assert AllOrNothing(h, o);
    }
  }

  /** Stop any run at any point, crash, and let recovery be cut short any number of times. If the
      first disk was consistent and the committed operations, in an order that agrees with the
      order of their stores, each keep it so, then the recovered disk is consistent. */
  lemma RecoveredConsistent(ss: seq<State>, acts: seq<Action>, i: nat, cuts: seq<nat>, sb: FsBlocks.Superblock,
                            read: seq<Contents> -> Image, ops: seq<nat>)
    requires IsBehaviour(ss, acts) && ss[0].l.nlog >= LOGSIZE + 1 && i < |ss|
    requires ReadsHome(ss[i].l, read) && Sound(sb, read(ss[i].hist.init))
    requires InOrder(Flatten(ss[i].hist.done), ops)
    requires forall k :: 0 <= k < |ops| ==> Keeps(ss[i].hist, sb, read, ops, k)
    ensures LogOk(ss[i].l, ss[i].disk)
    ensures Sound(sb, read(BootAfterCrashes(ss[i].l, ss[i].disk, cuts).blocks))
  {
    hide IsBehaviour, Sound, Keeps, InOrder;
    RecoveredIsCommittedGroups(ss, acts, i, cuts);
    var s := ss[i];
    AllKeep(s.hist, sb, read, ops, |ops|);
    assert ops[..|ops|] == ops;
    SerialReplay(s.hist.init, Flatten(s.hist.done), ops);
    assert SameHome(s.l, BootAfterCrashes(s.l, s.disk, cuts).blocks, After(s.hist, ops, |ops|));
  }
}
