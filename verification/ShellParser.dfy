/** The shell's parser (user/sh.c): a recursive-descent parser over a C string whose trees point
    into the string. Positions are indices; position |s| holds the NUL byte. Err stands for the
    parser's panics. */
module ShellParser {
  const MAXARGS: nat := 10
  const NUL: char := '\0'

  /** The characters from q up to eq. */
  datatype Span = Span(q: nat, eq: nat)

  datatype Mode = In | Out | Append

  datatype Redir = Redir(file: Span, mode: Mode)

  datatype Cmd =
    | Exec(argv: seq<Span>)
    | Redirected(cmd: Cmd, redir: Redir)
    | Pipe(left: Cmd, right: Cmd)
    | List(left: Cmd, right: Cmd)
    | Back(cmd: Cmd)

  datatype Res<T> = Ok(value: T, pos: nat) | Err

  predicate IsSpace(c: char) { c == ' ' || c == '\t' || c == '\r' || c == '\n' || c == '\U{000B}' }

  predicate IsSymbol(c: char) { c == '<' || c == '>' || IsControl(c) }

  predicate IsControl(c: char) { c == '|' || c == '&' || c == ';' || c == '(' || c == ')' }

  predicate IsWordChar(c: char) { !IsSpace(c) && !IsSymbol(c) && c != NUL }

  /** A C string: no NUL byte inside. */
  predicate IsText(s: string) { forall i :: 0 <= i < |s| ==> s[i] != NUL }

  function At(s: string, i: nat): char { if i < |s| then s[i] else NUL }

  // ----- Tokens -----

  function Skip(s: string, i: nat): (r: nat)
    requires i <= |s|
    ensures i <= r <= |s| && (r < |s| ==> !IsSpace(s[r])) && forall x :: i <= x < r ==> IsSpace(s[x])
    decreases |s| - i
  {
    if i < |s| && IsSpace(s[i]) then Skip(s, i + 1) else i
  }

  /** The end of the word that goes on at i. */
  function WordEnd(s: string, i: nat): (r: nat)
    requires i <= |s|
    ensures i <= r <= |s| && (r < |s| ==> IsSpace(s[r]) || IsSymbol(s[r]))
    ensures forall x :: i <= x < r ==> !IsSpace(s[x]) && !IsSymbol(s[x])
    decreases |s| - i
  {
    if i < |s| && !IsSpace(s[i]) && !IsSymbol(s[i]) then WordEnd(s, i + 1) else i
  }

  datatype Token = Token(kind: char, span: Span, pos: nat)

  /** gettoken. The kind is NUL at the end, 'a' for a word, '+' for ">>". */
  function GetToken(s: string, i: nat): (t: Token)
    requires i <= |s|
    ensures i <= t.span.q <= t.span.eq <= t.pos <= |s|
    ensures t.kind != NUL && IsText(s) ==> i < t.pos
  {
    var q := Skip(s, i);
    var c := At(s, q);
    if c == NUL then Token(NUL, Span(q, q), Skip(s, q))
    else if IsControl(c) || c == '<' then Token(c, Span(q, q + 1), Skip(s, q + 1))
    else if c == '>' then
      if At(s, q + 1) == '>' then Token('+', Span(q, q + 2), Skip(s, q + 2))
          else Token('>', Span(q, q + 1), Skip(s, q + 1))
    else Token('a', Span(q, WordEnd(s, q)), Skip(s, WordEnd(s, q)))
  }

  /** peek: whether the next character after white space is one of toks. */
  predicate Peek(s: string, i: nat, toks: set<char>)
    requires i <= |s|
  {
    Skip(s, i) < |s| && s[Skip(s, i)] in toks
  }

  lemma PeekToken(s: string, i: nat, toks: set<char>)
    requires i <= |s| && IsText(s) && Peek(s, i, toks) && forall c :: c in toks ==> IsSymbol(c)
    ensures GetToken(s, i).kind != NUL && i < GetToken(s, i).pos
  {
    assert IsSymbol(s[Skip(s, i)]);
  }

  // ----- The parser -----

  /** parseredirs: the redirections from i on. */
  function ParseRedirs(s: string, i: nat): (r: Res<seq<Redir>>)
    requires i <= |s| && IsText(s)
    ensures r.Ok? ==> i <= r.pos <= |s|
    decreases |s| - i
  {
    if !Peek(s, i, {'<', '>'}) then Ok([], Skip(s, i))
    else
      PeekToken(s, i, {'<', '>'});
      var t := GetToken(s, i);
      var f := GetToken(s, t.pos);
      if f.kind != 'a' then Err
      else
        var mode := if t.kind == '<' then In else if t.kind == '>' then Out else Append;
        var rest := ParseRedirs(s, f.pos);
        if rest.Err? then Err else Ok([Redir(f.span, mode)] + rest.value, rest.pos)
  }

  function Wrap(c: Cmd, redirs: seq<Redir>): Cmd {
    if redirs == [] then c else Redirected(Wrap(c, redirs[..|redirs| - 1]), redirs[|redirs| - 1])
  }

  /** parseexec's loop, after argc arguments: the remaining arguments and redirections. */
  function ParseArgs(s: string, i: nat, argc: nat): (r: Res<(seq<Span>, seq<Redir>)>)
    requires i <= |s| && IsText(s)
    ensures r.Ok? ==> i <= r.pos <= |s|
    decreases |s| - i
  {
    if Peek(s, i, {'|', ')', '&', ';'}) then Ok(([], []), Skip(s, i))
    else
      var t := GetToken(s, i);
      if t.kind == NUL then Ok(([], []), t.pos)
      else if t.kind != 'a' || argc + 1 >= MAXARGS then Err
      else
        var redirs := ParseRedirs(s, t.pos);
        if redirs.Err? then Err
        else
          var rest := ParseArgs(s, redirs.pos, argc + 1);
          if rest.Err? then Err
          else Ok(([t.span] + rest.value.0, redirs.value + rest.value.1), rest.pos)
  }

  function ParseExec(s: string, i: nat): (r: Res<Cmd>)
    requires i <= |s| && IsText(s)
    ensures r.Ok? ==> i <= r.pos <= |s|
    decreases |s| - i, 1
  {
    if Peek(s, i, {'('}) then ParseBlock(s, i)
    else
      var redirs := ParseRedirs(s, i);
      if redirs.Err? then Err
      else
        var args := ParseArgs(s, redirs.pos, 0);
        if args.Err? then Err else Ok(Wrap(Exec(args.value.0), redirs.value + args.value.1), args.pos)
  }

  function ParseBlock(s: string, i: nat): (r: Res<Cmd>)
    requires i <= |s| && IsText(s) && Peek(s, i, {'('})
    ensures r.Ok? ==> i <= r.pos <= |s|
    decreases |s| - i, 0
  {
    PeekToken(s, i, {'('});
    var c := ParseLine(s, GetToken(s, i).pos);
    if c.Err? || !Peek(s, c.pos, {')'}) then Err
    else
      var redirs := ParseRedirs(s, GetToken(s, c.pos).pos);
      if redirs.Err? then Err else Ok(Wrap(c.value, redirs.value), redirs.pos)
  }

  function ParsePipe(s: string, i: nat): (r: Res<Cmd>)
    requires i <= |s| && IsText(s)
    ensures r.Ok? ==> i <= r.pos <= |s|
    decreases |s| - i, 2
  {
    var c := ParseExec(s, i);
    if c.Err? then Err
    else if !Peek(s, c.pos, {'|'}) then Ok(c.value, Skip(s, c.pos))
    else
      PeekToken(s, c.pos, {'|'});
      var right := ParsePipe(s, GetToken(s, c.pos).pos);
      if right.Err? then Err else Ok(Pipe(c.value, right.value), right.pos)
  }

  /** parseline's loop over "&". */
  function ParseBacks(s: string, i: nat, c: Cmd): (r: Res<Cmd>)
    requires i <= |s| && IsText(s)
    ensures r.Ok? && i <= r.pos <= |s|
    decreases |s| - i
  {
    if !Peek(s, i, {'&'}) then Ok(c, Skip(s, i))
    else
      PeekToken(s, i, {'&'});
      ParseBacks(s, GetToken(s, i).pos, Back(c))
  }

  function ParseLine(s: string, i: nat): (r: Res<Cmd>)
    requires i <= |s| && IsText(s)
    ensures r.Ok? ==> i <= r.pos <= |s|
    decreases |s| - i, 3
  {
    var c := ParsePipe(s, i);
    if c.Err? then Err
    else
      var b := ParseBacks(s, c.pos, c.value);
      if !Peek(s, b.pos, {';'}) then Ok(b.value, Skip(s, b.pos))
      else
        PeekToken(s, b.pos, {';'});
        var right := ParseLine(s, GetToken(s, b.pos).pos);
        if right.Err? then Err else Ok(List(b.value, right.value), right.pos)
  }

  /** parsecmd, without its last step. */
  function ParseCmd(s: string): (r: Res<Cmd>)
    requires IsText(s)
    ensures r.Ok? ==> r.pos == |s|
  {
    var c := ParseLine(s, 0);
    if c.Err? || Skip(s, c.pos) != |s| then Err else Ok(c.value, |s|)
  }
}
