/** The image that exec (kernel/exec.c) builds, as bytes: the segments of the program file, the
    stack, and on it the argument strings and the array of pointers to them. */
module ExecImage {
  import opened Sequences
  import opened Sv39
  import opened UserMemory

  const MAXARG: nat := 32
  const WORD: nat := 8
  const U64: nat := 0x1_0000_0000_0000_0000

  /** A loadable segment of a program file: ph.vaddr, ph.memsz, ph.filesz, and the bytes that
      reading the file at ph.off yields. */
  datatype Segment = Segment(vaddr: nat, memsz: nat, filesz: nat, data: seq<nat>)

  /** The segment passes exec's tests and its bytes are all there. */
  predicate Loadable(seg: Segment) { seg.filesz <= seg.memsz && seg.filesz <= |seg.data| }

  function Zeros(n: nat): seq<nat> { seq(n, _ => 0) }

  /** uvmalloc: new pages are zero. */
  function Pad(img: seq<nat>, n: nat): seq<nat> { if n <= |img| then img else img + Zeros(n - |img|) }

  lemma Room(seg: Segment)
    requires Loadable(seg)
    ensures seg.vaddr + seg.filesz <= NPages(seg.vaddr + seg.memsz) * PGSIZE
  {
    NPagesIs(seg.vaddr + seg.memsz);
  }

  /** One round of exec's loop over the program headers. */
  function Place(img: seq<nat>, seg: Segment): seq<nat>
    requires Loadable(seg)
  {
    Room(seg);
    Splice(Pad(img, NPages(seg.vaddr + seg.memsz) * PGSIZE), seg.vaddr, seg.data[..seg.filesz])
  }

  predicate AllLoadable(segs: seq<Segment>) { forall x :: 0 <= x < |segs| ==> Loadable(segs[x]) }

  function Loaded(segs: seq<Segment>): seq<nat>
    requires AllLoadable(segs)
  {
    if segs == [] then [] else Place(Loaded(segs[..|segs| - 1]), segs[|segs| - 1])
  }

  /** exec's tests on one program header, and a file that holds the bytes. */
  predicate Acceptable(seg: Segment) {
    Loadable(seg) && seg.vaddr % PGSIZE == 0 && seg.vaddr + seg.memsz < U64
  }

  /** All headers pass, and the first does not end at address 0: exec takes the size 0 that uvmalloc
      then returns for a failure. */
  predicate AllAcceptable(segs: seq<Segment>) {
    (forall x :: 0 <= x < |segs| ==> Acceptable(segs[x])) && (segs != [] ==> segs[0].vaddr + segs[0].memsz > 0)
  }

  /** The size after a segment was loaded. */
  function SizeWith(sz: nat, seg: Segment): (r: nat)
    ensures r >= sz && r >= seg.vaddr + seg.memsz
  {
    if seg.vaddr + seg.memsz < sz then sz else seg.vaddr + seg.memsz
  }

  lemma PlaceLength(img: seq<nat>, seg: Segment, sz: nat)
    requires Loadable(seg) && |img| == NPages(sz) * PGSIZE
    ensures |Place(img, seg)| == NPages(SizeWith(sz, seg)) * PGSIZE
  {
    Room(seg);
    Monotone(sz, SizeWith(sz, seg));
    Monotone(seg.vaddr + seg.memsz, SizeWith(sz, seg));
    hide NPages;
  }

  lemma LoadOneMore(segs: seq<Segment>, x: nat)
    requires x < |segs| && AllLoadable(segs[..x]) && Loadable(segs[x])
    ensures AllLoadable(segs[..x + 1]) && Loaded(segs[..x + 1]) == Place(Loaded(segs[..x]), segs[x])
    ensures AllAcceptable(segs[..x]) && Acceptable(segs[x]) && (x > 0 || segs[x].vaddr + segs[x].memsz > 0) ==>
              AllAcceptable(segs[..x + 1])
  {
    hide Place;
    assert segs[..x + 1][..x] == segs[..x];
  }

  /** Later segments make the image no shorter. */
  lemma {:induction false} LoadedGrows(segs: seq<Segment>, x: nat)
    requires AllLoadable(segs) && x <= |segs|
    ensures |Loaded(segs[..x])| <= |Loaded(segs)| && |Loaded(segs)| % PGSIZE == 0
    decreases |segs|
  {
    if segs != [] {
      var n := |segs| - 1;
      hide Place;
      LoadedGrows(segs[..n], if x <= n then x else n);
      WholeImage(Loaded(segs[..n]), segs[n]);
      if x <= n { assert segs[..n][..x] == segs[..x]; } else { assert segs[..x] == segs; }
    } else {
      assert segs[..x] == segs;
    }
  }

  lemma WholeImage(img: seq<nat>, seg: Segment)
    requires Loadable(seg) && |img| % PGSIZE == 0
    ensures |Place(img, seg)| >= |img| && |Place(img, seg)| % PGSIZE == 0
  {
    Room(seg);
    hide NPages;
    var n := NPages(seg.vaddr + seg.memsz);
    assert n * PGSIZE % PGSIZE == 0;
    assert |Place(img, seg)| == if n * PGSIZE <= |img| then |img| else n * PGSIZE;
  }

  predicate Covers(seg: Segment, a: nat) { seg.vaddr <= a < seg.vaddr + seg.filesz }

  lemma PlaceByte(img: seq<nat>, seg: Segment, a: nat)
    requires Loadable(seg) && a < |Place(img, seg)|
    ensures Place(img, seg)[a] == if Covers(seg, a) then seg.data[a - seg.vaddr] else if a < |img| then img[a] else 0
  {
    Room(seg);
    hide NPages;
    var n := NPages(seg.vaddr + seg.memsz) * PGSIZE;
    assert |Pad(img, n)| >= n;
  }

  lemma PlaceSize(img: seq<nat>, seg: Segment, a: nat)
    requires Loadable(seg) && a >= |Place(img, seg)|
    ensures !Covers(seg, a) && a >= |img|
  {
    Room(seg);
  }

  /** x is the last segment that covers a. */
  predicate LastCovers(segs: seq<Segment>, a: nat, x: nat) {
    x < |segs| && Covers(segs[x], a) && forall y :: x < y < |segs| ==> !Covers(segs[y], a)
  }

  predicate NoneCovers(segs: seq<Segment>, a: nat) { forall x :: 0 <= x < |segs| ==> !Covers(segs[x], a) }

  /** Each byte of the program is the byte of the last segment that covers it, or zero. */
  lemma {:induction false} LoadedByte(segs: seq<Segment>, a: nat)
    requires AllLoadable(segs) && a < |Loaded(segs)|
    ensures NoneCovers(segs, a) ==> Loaded(segs)[a] == 0
    ensures forall x: nat :: LastCovers(segs, a, x) ==> Loaded(segs)[a] == segs[x].data[a - segs[x].vaddr]
  {
    hide Place;
    if segs != [] {
      var n := |segs| - 1;
      var rest, seg := segs[..n], segs[n];
      PlaceByte(Loaded(rest), seg, a);
      if !Covers(seg, a) {
        if a < |Loaded(rest)| { LoadedByte(rest, a); } else { Outside(rest, a); }
        assert forall x :: 0 <= x < n ==> rest[x] == segs[x];
        assert forall x: nat :: LastCovers(segs, a, x) ==> LastCovers(rest, a, x);
      }
    }
  }

  /** The image reaches past every segment. */
  lemma {:induction false} Outside(segs: seq<Segment>, a: nat)
    requires AllLoadable(segs) && a >= |Loaded(segs)|
    ensures NoneCovers(segs, a)
  {
    hide Place;
    if segs != [] {
      var n := |segs| - 1;
      PlaceSize(Loaded(segs[..n]), segs[n], a);
      Outside(segs[..n], a);
      assert forall x :: 0 <= x < n ==> segs[..n][x] == segs[x];
    }
  }

  // ----- The arguments -----

  function Align(sp: int): (r: int)
    ensures r <= sp < r + 16 && r % 16 == 0
  {
    sp - sp % 16
  }

  /** sp once i argument strings are on the stack. */
  function Sp(argv: seq<seq<nat>>, i: nat, top: nat): int
    requires i <= |argv|
  {
    if i == 0 then top else Align(Sp(argv, i - 1, top) - (|argv[i - 1]| + 1))
  }

  /** sp once the array of pointers is there, too. */
  function ArgvAt(argv: seq<seq<nat>>, top: nat): int {
    Align(Sp(argv, |argv|, top) - (|argv| + 1) * WORD)
  }

  /** exec's tests: at most MAXARG arguments, and all on the one page of the stack. */
  predicate Fit(argv: seq<seq<nat>>, top: nat) {
    && |argv| <= MAXARG && ArgvAt(argv, top) >= top - PGSIZE
    && forall i :: 0 < i <= |argv| ==> Sp(argv, i, top) >= top - PGSIZE
  }

  /** A uint64 in memory, lowest byte first. */
  function Word(x: nat): seq<nat> { LowBytes(x, WORD) }

  function LowBytes(x: nat, n: nat): (r: seq<nat>)
    ensures |r| == n
  {
    if n == 0 then [] else [x % 256] + LowBytes(x / 256, n - 1)
  }

  function Words(xs: seq<nat>): (r: seq<nat>)
    ensures |r| == |xs| * WORD
  {
    if xs == [] then [] else Words(xs[..|xs| - 1]) + Word(xs[|xs| - 1])
  }

  lemma {:induction false} WordAt(xs: seq<nat>, i: nat)
    requires i < |xs|
    ensures Words(xs)[i * WORD..i * WORD + WORD] == Word(xs[i])
  {
    var n := |xs| - 1;
    if i < n {
      WordAt(xs[..n], i);
      assert Words(xs)[i * WORD..i * WORD + WORD] == Words(xs[..n])[i * WORD..i * WORD + WORD];
    }
  }

  /** The pointers that exec collects in ustack. */
  function Pointers(argv: seq<seq<nat>>, top: nat): (r: seq<nat>)
    requires Fit(argv, top) && top >= PGSIZE
    ensures |r| == |argv| + 1
  {
    seq(|argv|, i requires 0 <= i < |argv| => Sp(argv, i + 1, top)) + [0]
  }

  /** The image with the first i argument strings on the stack. */
  function Pushed(img: seq<nat>, argv: seq<seq<nat>>, i: nat): (r: seq<nat>)
    requires i <= |argv| && |img| >= PGSIZE && StringsFit(argv, i, |img|)
    ensures |r| == |img|
  {
    if i == 0 then img
    else
      SpFalls(argv, i - 1, |img|);
      Splice(Pushed(img, argv, i - 1), Sp(argv, i, |img|), argv[i - 1] + [0])
  }

  predicate StringsFit(argv: seq<seq<nat>>, i: nat, top: nat)
    requires i <= |argv|
  {
    forall j :: 0 < j <= i ==> Sp(argv, j, top) >= top - PGSIZE
  }

  /** The next string ends at or below the last one. */
  lemma SpFalls(argv: seq<seq<nat>>, i: nat, top: nat)
    requires i < |argv|
    ensures Sp(argv, i + 1, top) + |argv[i]| + 1 <= Sp(argv, i, top) <= top
  {
    SpBelow(argv, i, top);
  }

  lemma {:induction false} SpBelow(argv: seq<seq<nat>>, i: nat, top: nat)
    requires i <= |argv|
    ensures Sp(argv, i, top) <= top
  {
    if i > 0 { SpBelow(argv, i - 1, top); }
  }

  function WithArgs(img: seq<nat>, argv: seq<seq<nat>>): (r: seq<nat>)
    requires |img| >= PGSIZE && Fit(argv, |img|)
    ensures |r| == |img|
  {
    SpBelow(argv, |argv|, |img|);
    Splice(Pushed(img, argv, |argv|), ArgvAt(argv, |img|), Words(Pointers(argv, |img|)))
  }

  /** Later strings lie below earlier ones, and all of them on the stack's page. */
  lemma {:induction false} PushedKeeps(img: seq<nat>, argv: seq<seq<nat>>, j: nat, i: nat)
    requires j <= i <= |argv| && |img| >= PGSIZE && StringsFit(argv, i, |img|)
    ensures Sp(argv, i, |img|) <= Sp(argv, j, |img|)
    ensures forall a :: Sp(argv, j, |img|) <= a < |img| && 0 <= a ==> Pushed(img, argv, i)[a] == Pushed(img, argv, j)[a]
    ensures forall a :: 0 <= a < |img| - PGSIZE ==> Pushed(img, argv, i)[a] == Pushed(img, argv, j)[a]
    decreases i
  {
    hide Align;
    if i > j {
      SpFalls(argv, i - 1, |img|);
      PushedKeeps(img, argv, j, i - 1);
    }
  }

  lemma SpliceThere(img: seq<nat>, at: nat, s: seq<nat>, o: nat, n: nat)
    requires at + |s| <= |img| && o + n <= |s|
    ensures Splice(img, at, s)[at + o..at + o + n] == s[o..o + n]
  {
  }

  /** String s and a zero byte are at address a. */
  ghost predicate StringIn(img: seq<nat>, a: nat, s: seq<nat>) {
    a + |s| + 1 <= |img| && img[a..a + |s| + 1] == s + [0]
  }

  lemma SameString(a: seq<nat>, b: seq<nat>, p: nat, s: seq<nat>)
    requires |a| == |b| && StringIn(a, p, s) && forall x :: p <= x < |a| ==> b[x] == a[x]
    ensures StringIn(b, p, s)
  {
  }

  lemma PushedStep(img: seq<nat>, argv: seq<seq<nat>>, i: nat)
    requires i < |argv| && |img| >= PGSIZE && StringsFit(argv, |argv|, |img|)
    ensures 0 <= Sp(argv, i + 1, |img|) && StringIn(Pushed(img, argv, i + 1), Sp(argv, i + 1, |img|), argv[i])
  {
    SpFalls(argv, i, |img|);
    var s, p, before, after := argv[i] + [0], Sp(argv, i + 1, |img|), Pushed(img, argv, i), Pushed(img, argv, i + 1);
    assert after == Splice(before, p, s);
    hide Splice, Sp, Align, Pushed, StringsFit;
    SpliceThere(before, p, s, 0, |s|);
  }

  lemma StringPushed(img: seq<nat>, argv: seq<seq<nat>>, i: nat, p: nat)
    requires i < |argv| && |img| >= PGSIZE && StringsFit(argv, |argv|, |img|) && p == Sp(argv, i + 1, |img|)
    ensures StringIn(Pushed(img, argv, |argv|), p, argv[i])
  {
    hide Splice, Sp, Align, Pushed, StringIn;
    PushedStep(img, argv, i);
    PushedKeeps(img, argv, i + 1, |argv|);
    SameString(Pushed(img, argv, i + 1), Pushed(img, argv, |argv|), p, argv[i]);
  }

  lemma SpliceElse(img: seq<nat>, at: nat, s: seq<nat>)
    requires at + |s| <= |img|
    ensures forall a :: 0 <= a < |img| && (a < at || a >= at + |s|) ==> Splice(img, at, s)[a] == img[a]
  {
  }

  /** Where the array is. */
  lemma TableBelow(argv: seq<seq<nat>>, top: nat)
    requires top >= PGSIZE && Fit(argv, top)
    ensures 0 <= top - PGSIZE <= ArgvAt(argv, top)
    ensures ArgvAt(argv, top) + (|argv| + 1) * WORD <= Sp(argv, |argv|, top) <= top
  {
    SpBelow(argv, |argv|, top);
    hide Sp, Align;
  }

  /** What the last copyout leaves above the array and below the stack's page. */
  lemma AroundTable(img: seq<nat>, argv: seq<seq<nat>>, sp: nat, end: nat)
    requires |img| >= PGSIZE && Fit(argv, |img|) && sp == ArgvAt(argv, |img|) && end == Sp(argv, |argv|, |img|)
    ensures forall a :: 0 <= a < |img| && (a >= end || a < |img| - PGSIZE) ==>
              WithArgs(img, argv)[a] == Pushed(img, argv, |argv|)[a]
  {
    TableBelow(argv, |img|);
    var pushed, table := Pushed(img, argv, |argv|), Words(Pointers(argv, |img|));
    assert WithArgs(img, argv) == Splice(pushed, sp, table);
    hide Sp, Align, Words, Pushed, Pointers, Splice, WithArgs, Fit, ArgvAt;
    SpliceElse(pushed, sp, table);
  }

  /** Word w is at address a. */
  ghost predicate WordIn(img: seq<nat>, a: nat, w: nat) { a + WORD <= |img| && img[a..a + WORD] == Word(w) }

  lemma TableReadable(img: seq<nat>, argv: seq<seq<nat>>, sp: nat, i: nat)
    requires |img| >= PGSIZE && Fit(argv, |img|) && sp == ArgvAt(argv, |img|) && i <= |argv|
    ensures WordIn(WithArgs(img, argv), sp + i * WORD, Pointers(argv, |img|)[i])
  {
    TableBelow(argv, |img|);
    var pushed, ptrs := Pushed(img, argv, |argv|), Pointers(argv, |img|);
    WordAt(ptrs, i);
    assert WithArgs(img, argv) == Splice(pushed, sp, Words(ptrs));
    hide Sp, Align, Words, Pushed, Pointers, Splice, WithArgs, Fit, ArgvAt, Word;
    SpliceThere(pushed, sp, Words(ptrs), i * WORD, WORD);
  }

  lemma StringReadable(img: seq<nat>, argv: seq<seq<nat>>, i: nat, p: nat)
    requires |img| >= PGSIZE && Fit(argv, |img|) && i < |argv| && p == Sp(argv, i + 1, |img|)
    ensures StringIn(WithArgs(img, argv), p, argv[i])
  {
    hide Sp, Align, Words, Pushed, Pointers, Splice, WithArgs, ArgvAt, StringIn;
    TableBelow(argv, |img|);
    StringPushed(img, argv, i, p);
    PushedKeeps(img, argv, i + 1, |argv|);
    AroundTable(img, argv, ArgvAt(argv, |img|), Sp(argv, |argv|, |img|));
    SameString(Pushed(img, argv, |argv|), WithArgs(img, argv), p, argv[i]);
  }

  /** The program finds its arguments: entry i of the array at sp points to a copy of argument i
      that ends in a zero byte, and the array ends in a zero pointer. */
  lemma ArgsReadable(img: seq<nat>, argv: seq<seq<nat>>, i: nat, sp: nat, p: nat)
    requires |img| >= PGSIZE && Fit(argv, |img|) && i < |argv|
    requires sp == ArgvAt(argv, |img|) && p == Sp(argv, i + 1, |img|)
    ensures WordIn(WithArgs(img, argv), sp + i * WORD, p) && WordIn(WithArgs(img, argv), sp + |argv| * WORD, 0)
    ensures StringIn(WithArgs(img, argv), p, argv[i])
  {
    hide Sp, Align, WithArgs, Fit, ArgvAt, Pointers, WordIn, StringIn;
    TableReadable(img, argv, sp, i);
    TableReadable(img, argv, sp, |argv|);
    StringReadable(img, argv, i, p);
    PointerAt(argv, |img|, i);
  }

  lemma PointerAt(argv: seq<seq<nat>>, top: nat, i: nat)
    requires Fit(argv, top) && top >= PGSIZE && i < |argv|
    ensures Pointers(argv, top)[i] == Sp(argv, i + 1, top) && Pointers(argv, top)[|argv|] == 0
  {
    hide Sp, Fit;
  }

  /** sp is aligned, and below the stack's page the image is the program's. */
  lemma ArgsOnStack(img: seq<nat>, argv: seq<seq<nat>>)
    requires |img| >= PGSIZE && Fit(argv, |img|)
    ensures 0 <= ArgvAt(argv, |img|) && ArgvAt(argv, |img|) % 16 == 0
    ensures forall a :: 0 <= a < |img| - PGSIZE ==> WithArgs(img, argv)[a] == img[a]
  {
    TableBelow(argv, |img|);
    AroundTable(img, argv, ArgvAt(argv, |img|), Sp(argv, |argv|, |img|));
    PushedKeeps(img, argv, 0, |argv|);
  }
}
