/** What the parser's trees point to (user/sh.c): every argument and file name is a whole word, and
    nulterminate turns each into a C string in place without spoiling another. */
module ShellStrings {
  import opened ShellParser

  /** A word that nothing extends. */
  ghost predicate WordSpan(s: string, w: Span) {
    && w.q < w.eq <= |s| && (forall x :: w.q <= x < w.eq ==> IsWordChar(s[x]))
    && (w.eq < |s| ==> !IsWordChar(s[w.eq]))
  }

  /** All argument and file name spans of a tree. */
  function Spans(c: Cmd): set<Span> {
    match c
    case Exec(argv) => set i | 0 <= i < |argv| :: argv[i]
    case Redirected(cmd, redir) => Spans(cmd) + {redir.file}
    case Pipe(left, right) => Spans(left) + Spans(right)
    case List(left, right) => Spans(left) + Spans(right)
    case Back(cmd) => Spans(cmd)
  }

  ghost predicate WordsOnly(s: string, c: Cmd) { forall w :: w in Spans(c) ==> WordSpan(s, w) }

  // ----- The parser finds words -----

  lemma TokenIsWord(s: string, i: nat)
    requires i <= |s| && IsText(s) && GetToken(s, i).kind == 'a'
    ensures WordSpan(s, GetToken(s, i).span)
  {
  }

  ghost predicate AllWords(s: string, ws: seq<Span>) { forall k :: 0 <= k < |ws| ==> WordSpan(s, ws[k]) }

  ghost predicate AllFiles(s: string, rs: seq<Redir>) { forall k :: 0 <= k < |rs| ==> WordSpan(s, rs[k].file) }

  lemma {:induction false} RedirWords(s: string, i: nat)
    requires i <= |s| && IsText(s)
    ensures ParseRedirs(s, i).Ok? ==> AllFiles(s, ParseRedirs(s, i).value)
    decreases |s| - i
  {
    hide WordSpan, GetToken, Peek, Skip, IsText;
    if Peek(s, i, {'<', '>'}) {
      PeekToken(s, i, {'<', '>'});
      var t := GetToken(s, i);
      var f := GetToken(s, t.pos);
      if f.kind == 'a' {
        TokenIsWord(s, t.pos);
        RedirWords(s, f.pos);
      }
    }
  }

  lemma {:induction false} ArgWords(s: string, i: nat, argc: nat)
    requires i <= |s| && IsText(s)
    ensures var r := ParseArgs(s, i, argc); r.Ok? ==> AllWords(s, r.value.0) && AllFiles(s, r.value.1)
    decreases |s| - i
  {
    hide WordSpan, GetToken, Peek, Skip, ParseRedirs;
    var t := GetToken(s, i);
    if !Peek(s, i, {'|', ')', '&', ';'}) && t.kind == 'a' && argc + 1 < MAXARGS {
      hide IsText;
      TokenIsWord(s, i);
      RedirWords(s, t.pos);
      var redirs := ParseRedirs(s, t.pos);
      if redirs.Ok? { ArgWords(s, redirs.pos, argc + 1); }
    }
  }

  lemma {:induction false} WrapWords(s: string, c: Cmd, redirs: seq<Redir>)
    requires WordsOnly(s, c) && AllFiles(s, redirs)
    ensures WordsOnly(s, Wrap(c, redirs))
  {
    hide WordSpan;
    if redirs != [] { WrapWords(s, c, redirs[..|redirs| - 1]); }
  }

  lemma {:induction false} ExecWords(s: string, i: nat)
    requires i <= |s| && IsText(s)
    ensures ParseExec(s, i).Ok? ==> WordsOnly(s, ParseExec(s, i).value)
    decreases |s| - i, 1
  {
    hide WordSpan;
    if Peek(s, i, {'('}) {
      BlockWords(s, i);
    } else {
      RedirWords(s, i);
      var redirs := ParseRedirs(s, i);
      if redirs.Ok? {
        ArgWords(s, redirs.pos, 0);
        var args := ParseArgs(s, redirs.pos, 0);
        if args.Ok? { WrapWords(s, Exec(args.value.0), redirs.value + args.value.1); }
      }
    }
  }

  lemma {:induction false} BlockWords(s: string, i: nat)
    requires i <= |s| && IsText(s) && Peek(s, i, {'('})
    ensures ParseBlock(s, i).Ok? ==> WordsOnly(s, ParseBlock(s, i).value)
    decreases |s| - i, 0
  {
    hide WordSpan;
    PeekToken(s, i, {'('});
    var j := GetToken(s, i).pos;
    LineWords(s, j);
    var c := ParseLine(s, j);
    if c.Ok? && Peek(s, c.pos, {')'}) {
      var k := GetToken(s, c.pos).pos;
      RedirWords(s, k);
      if ParseRedirs(s, k).Ok? { WrapWords(s, c.value, ParseRedirs(s, k).value); }
    }
  }

  lemma {:induction false} PipeWords(s: string, i: nat)
    requires i <= |s| && IsText(s)
    ensures ParsePipe(s, i).Ok? ==> WordsOnly(s, ParsePipe(s, i).value)
    decreases |s| - i, 2
  {
    hide WordSpan;
    ExecWords(s, i);
    var c := ParseExec(s, i);
    if c.Ok? && Peek(s, c.pos, {'|'}) {
      PeekToken(s, c.pos, {'|'});
      PipeWords(s, GetToken(s, c.pos).pos);
    }
  }

  lemma {:induction false} BackWords(s: string, i: nat, c: Cmd)
    requires i <= |s| && IsText(s) && WordsOnly(s, c)
    ensures WordsOnly(s, ParseBacks(s, i, c).value)
    decreases |s| - i
  {
    hide WordSpan;
    if Peek(s, i, {'&'}) {
      PeekToken(s, i, {'&'});
      BackWords(s, GetToken(s, i).pos, Back(c));
    }
  }

  /** In every tree that the parser builds, each argument and file name is a word of the input. */
  lemma {:induction false} LineWords(s: string, i: nat)
    requires i <= |s| && IsText(s)
    ensures ParseLine(s, i).Ok? ==> WordsOnly(s, ParseLine(s, i).value)
    decreases |s| - i, 3
  {
    hide WordSpan;
    PipeWords(s, i);
    var c := ParsePipe(s, i);
    if c.Ok? {
      BackWords(s, c.pos, c.value);
      var b := ParseBacks(s, c.pos, c.value);
      if Peek(s, b.pos, {';'}) {
        PeekToken(s, b.pos, {';'});
        LineWords(s, GetToken(s, b.pos).pos);
      }
    }
  }

  // ----- nulterminate -----

  /** The positions that nulterminate overwrites. */
  ghost function Ends(c: Cmd): set<nat> { set w | w in Spans(c) :: w.eq }

  /** The C string at position q. */
  function ReadString(b: string, q: nat): string
    decreases |b| - q
  {
    if q >= |b| || b[q] == NUL then [] else [b[q]] + ReadString(b, q + 1)
  }

  lemma {:induction false} ReadIs(b: string, q: nat, e: nat)
    requires q <= e < |b| && b[e] == NUL && forall x :: q <= x < e ==> b[x] != NUL
    ensures ReadString(b, q) == b[q..e]
    decreases e - q
  {
    if q < e { ReadIs(b, q + 1, e); }
  }

  ghost predicate Overwritten(b: string, b': string, ends: set<nat>) {
    |b'| == |b| && forall x :: 0 <= x < |b| ==> b'[x] == if x in ends then NUL else b[x]
  }

  /** nulterminate: writes a NUL behind every argument and file name, and nowhere else. */
  method NulTerminate(buf: array<char>, c: Cmd, ghost s: string)
    requires WordsOnly(s, c) && buf.Length == |s| + 1
    modifies buf
    ensures Overwritten(old(buf[..]), buf[..], Ends(c))
    decreases c
  {
    hide WordSpan;
    match c
    case Exec(argv) =>
      TerminateAll(buf, argv, s);
    case Redirected(cmd, redir) =>
      NulTerminate(buf, cmd, s);
      ghost var mid := buf[..];
      assert redir.file in Spans(c) && redir.file.eq < buf.Length by { InBuffer(s, redir.file); }
      buf[redir.file.eq] := NUL;
      EndsMore(cmd, redir);
    case Pipe(left, right) =>
      NulTerminate(buf, left, s);
      NulTerminate(buf, right, s);
    case List(left, right) =>
      NulTerminate(buf, left, s);
      NulTerminate(buf, right, s);
    case Back(cmd) =>
      NulTerminate(buf, cmd, s);
  }

  lemma InBuffer(s: string, w: Span)
    requires WordSpan(s, w)
    ensures w.eq <= |s|
  {
  }

  lemma EndsMore(c: Cmd, redir: Redir)
    ensures Ends(Redirected(c, redir)) == Ends(c) + {redir.file.eq}
  {
  }

  /** The loop over a command's arguments. */
  method TerminateAll(buf: array<char>, argv: seq<Span>, ghost s: string)
    requires buf.Length == |s| + 1 && forall k :: 0 <= k < |argv| ==> WordSpan(s, argv[k])
    modifies buf
    ensures Overwritten(old(buf[..]), buf[..], Ends(Exec(argv)))
  {
    hide WordSpan;
    var i := 0;
    while i < |argv|
      invariant i <= |argv| && Overwritten(old(buf[..]), buf[..], set k | 0 <= k < i :: argv[k].eq)
    {
      InBuffer(s, argv[i]);
      ghost var ends := set k | 0 <= k < i :: argv[k].eq;
      buf[argv[i].eq] := NUL;
      assert (set k | 0 <= k < i + 1 :: argv[k].eq) == ends + {argv[i].eq};
      i := i + 1;
    }
    assert Ends(Exec(argv)) == set k | 0 <= k < i :: argv[k].eq;
  }

  /** After nulterminate every argument and file name reads as the word it was, although the
      buffer has been overwritten in place. */
  lemma StillReads(s: string, c: Cmd, b: string, w: Span)
    requires IsText(s) && WordsOnly(s, c) && w in Spans(c) && Overwritten(s + [NUL], b, Ends(c))
    ensures w.q < w.eq <= |s| && ReadString(b, w.q) == s[w.q..w.eq]
  {
    assert WordSpan(s, w);
    assert w.eq in Ends(c);
    forall x | w.q <= x < w.eq ensures b[x] == s[x] != NUL {
      assert x !in Ends(c);
    }
    ReadIs(b, w.q, w.eq);
    assert b[w.q..w.eq] == s[w.q..w.eq];
  }

  /** parsecmd: the tree, and the buffer in which its words are C strings. */
  method ParseInPlace(buf: array<char>) returns (r: Res<Cmd>)
    requires buf.Length > 0 && IsText(buf[..buf.Length - 1]) && buf[buf.Length - 1] == NUL
    modifies buf
    ensures r == ParseCmd(old(buf[..buf.Length - 1]))
    ensures r.Err? ==> buf[..] == old(buf[..])
    ensures r.Ok? ==> forall w :: w in Spans(r.value) ==>
              w.q < w.eq < buf.Length && ReadString(buf[..], w.q) == old(buf[w.q..w.eq])
  {
    hide WordSpan, WordsOnly, Overwritten, ParseLine, Spans, ReadString, Skip;
    var s := buf[..buf.Length - 1];
    r := ParseCmd(s);
    if r.Ok? {
      LineWords(s, 0);
      assert buf[..] == s + [NUL];
      NulTerminate(buf, r.value, s);
      forall w | w in Spans(r.value)
        ensures w.q < w.eq < buf.Length && ReadString(buf[..], w.q) == old(buf[w.q..w.eq])
      {
        StillReads(s, r.value, buf[..], w);
        assert s[w.q..w.eq] == old(buf[w.q..w.eq]);
      }
    }
  }
}
