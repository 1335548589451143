/** Parameters of kernel/param.h that several components share. */
module Params {
  const MAXOPBLOCKS: nat := 10
  const LOGSIZE: nat := 3 * MAXOPBLOCKS
}

module Sequences {
  ghost function IndexOf(s: seq<nat>, x: int): (i: nat)
    requires x in s
    ensures i < |s| && s[i] == x
  {
    var i :| 0 <= i < |s| && s[i] == x;
    i
  }

  /** No value occurs twice: each position is the only one of its value. */
  ghost predicate Distinct(s: seq<nat>) {
    forall i :: 0 <= i < |s| ==> IndexOf(s, s[i]) == i
  }

  /** b with `chunk` stored from `at` on. */
  function Splice(b: seq<nat>, at: nat, chunk: seq<nat>): (r: seq<nat>)
    requires at + |chunk| <= |b|
    ensures |r| == |b|
  {
    b[..at] + chunk + b[at + |chunk|..]
  }
}

/** Sizes of sets and of sequences without repetition. */
module Counting {
  import opened Sequences

  ghost function Interval(lo: nat, n: nat): (r: set<nat>)
    ensures |r| == n && forall x: nat :: x in r <==> lo <= x < lo + n
  {
    if n == 0 then {} else Interval(lo, n - 1) + {lo + n - 1}
  }

  lemma Smaller(a: set<nat>, b: set<nat>)
    requires a <= b
    ensures |a| <= |b|
  {
    assert b == a + (b - a) && a !! (b - a);
  }

  lemma NotBefore(s: seq<nat>, n: nat)
    requires Distinct(s) && n < |s|
    ensures s[n] !in s[..n] && Distinct(s[..n])
  {
    assert IndexOf(s, s[n]) == n;
    forall i | 0 <= i < n ensures IndexOf(s[..n], s[..n][i]) == i && s[i] != s[n] {
      var j := IndexOf(s[..n], s[..n][i]);
      assert s[j] == s[i] && IndexOf(s, s[i]) == i;
    }
  }

  lemma {:induction false} CountedAll(s: seq<nat>)
    requires Distinct(s)
    ensures |set x: nat | x in s| == |s|
  {
    if s == [] {
      assert (set x: nat | x in s) == {};
    } else {
      var n := |s| - 1;
      NotBefore(s, n);
      CountedAll(s[..n]);
      assert s == s[..n] + [s[n]];
      assert (set x: nat | x in s) == (set x: nat | x in s[..n]) + {s[n]};
    }
  }
}
