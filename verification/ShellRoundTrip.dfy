/** Printing a command in full parentheses and parsing it again (user/sh.c). */
module ShellRoundTrip {
  import opened ShellParser

  /** A command with its words as strings. */
  datatype Tree =
    | Words(args: seq<string>)
    | To(cmd: Tree, mode: Mode, file: string)
    | Piped(left: Tree, right: Tree)
    | Then(left: Tree, right: Tree)
    | Amp(cmd: Tree)

  predicate IsWord(w: string) { w != "" && forall i :: 0 <= i < |w| ==> IsWordChar(w[i]) }

  /** Words are words, and there are fewer than MAXARGS arguments. */
  predicate Printable(t: Tree) {
    match t
    case Words(args) => |args| < MAXARGS && AllWords(args)
    case To(cmd, _, file) => Printable(cmd) && IsWord(file)
    case Piped(left, right) => Printable(left) && Printable(right)
    case Then(left, right) => Printable(left) && Printable(right)
    case Amp(cmd) => Printable(cmd)
  }

  function Op(m: Mode): string {
    match m
    case In => "<"
    case Out => ">"
    case Append => ">>"
  }

  function PrintArgs(args: seq<string>): string {
    if args == [] then "" else args[0] + (" " + PrintArgs(args[1..]))
  }

  function Block(t: Tree): string
    decreases t, 1
  {
    "(" + Print(t) + ")"
  }

  function Print(t: Tree): string
    decreases t, 0
  {
    match t
    case Words(args) => PrintArgs(args)
    case To(cmd, mode, file) => Block(cmd) + (Op(mode) + file)
    case Piped(left, right) => Block(left) + ("|" + Block(right))
    case Then(left, right) => Block(left) + (";" + Block(right))
    case Amp(cmd) => Block(cmd) + "&"
  }

  /** The tree of a parsed command, with its words read from the input. */
  function Text(s: string, w: Span): string { if w.q <= w.eq <= |s| then s[w.q..w.eq] else "" }

  function Resolve(s: string, c: Cmd): Tree {
    match c
    case Exec(argv) => Words(seq(|argv|, k requires 0 <= k < |argv| => Text(s, argv[k])))
    case Redirected(cmd, redir) => To(Resolve(s, cmd), redir.mode, Text(s, redir.file))
    case Pipe(left, right) => Piped(Resolve(s, left), Resolve(s, right))
    case List(left, right) => Then(Resolve(s, left), Resolve(s, right))
    case Back(cmd) => Amp(Resolve(s, cmd))
  }

  // ----- Reading printed text -----

  /** p stands in s at position a. */
  ghost predicate Has(s: string, a: nat, p: string) { a + |p| <= |s| && s[a..a + |p|] == p }

  lemma HasParts(s: string, a: nat, p: string, q: string)
    requires Has(s, a, p + q)
    ensures Has(s, a, p) && Has(s, a + |p|, q)
  {
    assert s[a..a + |p + q|][..|p|] == p;
    assert s[a..a + |p + q|][|p|..] == q;
  }

  lemma HasChar(s: string, a: nat, p: string)
    requires Has(s, a, p) && p != ""
    ensures a < |s| && s[a] == p[0]
  {
    assert s[a..a + |p|][0] == p[0];
  }

  /** No white space at i. */
  predicate Solid(s: string, i: nat) { i <= |s| && (i < |s| ==> !IsSpace(s[i])) }

  /** Where a printed command ends: at the end or before a closing parenthesis. */
  predicate Stops(s: string, i: nat) { i <= |s| && (i < |s| ==> s[i] == ')') }

  lemma SymbolToken(s: string, i: nat)
    requires i < |s| && (IsControl(s[i]) || s[i] == '<') && Solid(s, i + 1)
    ensures GetToken(s, i).kind == s[i] && GetToken(s, i).pos == i + 1
  {
  }

  lemma {:induction false} EndOfWord(s: string, i: nat, w: string)
    requires Has(s, i, w) && (forall k :: 0 <= k < |w| ==> IsWordChar(w[k]))
    requires i + |w| < |s| ==> IsSpace(s[i + |w|]) || IsSymbol(s[i + |w|])
    ensures WordEnd(s, i) == i + |w|
    decreases |w|
  {
    if w != "" {
      HasChar(s, i, w);
      assert w == [w[0]] + w[1..];
      HasParts(s, i, [w[0]], w[1..]);
      EndOfWord(s, i + 1, w[1..]);
    }
  }

  lemma WordToken(s: string, i: nat, w: string)
    requires Has(s, i, w) && IsWord(w) && (i + |w| < |s| ==> IsSpace(s[i + |w|]) || IsSymbol(s[i + |w|]))
    ensures GetToken(s, i) == Token('a', Span(i, i + |w|), Skip(s, i + |w|))
  {
    HasChar(s, i, w);
    EndOfWord(s, i, w);
    hide WordEnd;
    assert IsWordChar(w[0]);
  }

  /** A printed command does not start with white space, whatever follows it. */
  lemma PrintSolid(s: string, a: nat, t: Tree)
    requires Has(s, a, Print(t)) && Printable(t) && Solid(s, a + |Print(t)|)
    ensures Solid(s, a)
  {
    if Print(t) != "" {
      HasChar(s, a, Print(t));
      match t
      case Words(args) => assert Print(t)[0] == args[0][0]; assert IsWordChar(args[0][0]);
      case To(cmd, mode, file) => assert Print(t)[0] == '(';
      case Piped(left, right) => assert Print(t)[0] == '(';
      case Then(left, right) => assert Print(t)[0] == '(';
      case Amp(cmd) => assert Print(t)[0] == '(';
    }
  }

  // ----- A command of words -----

  lemma NoRedirs(s: string, i: nat)
    requires IsText(s) && Solid(s, i) && (i < |s| ==> s[i] != '<' && s[i] != '>')
    ensures ParseRedirs(s, i) == Ok([], i)
  {
  }

  /** The words of a command, printed from position a on. */
  ghost predicate ArgsAt(s: string, a: nat, args: seq<string>) {
    IsText(s) && Has(s, a, PrintArgs(args)) && Stops(s, a + |PrintArgs(args)|) && AllWords(args)
  }

  predicate AllWords(args: seq<string>) { forall k :: 0 <= k < |args| ==> IsWord(args[k]) }

  lemma RestWords(args: seq<string>)
    requires AllWords(args) && args != []
    ensures IsWord(args[0]) && AllWords(args[1..])
  {
  }

  lemma Spaced(s: string, a: nat, w: string, rest: string)
    requires Has(s, a, w + (" " + rest))
    ensures Has(s, a, w) && a + |w| < |s| && s[a + |w|] == ' ' && Has(s, a + |w| + 1, rest)
  {
    hide Has;
    HasParts(s, a, w, " " + rest);
    HasChar(s, a + |w|, " " + rest);
    HasParts(s, a + |w|, " ", rest);
  }

  lemma PrintFirst(args: seq<string>, w: string, rest: string)
    requires args != [] && w == args[0] && rest == PrintArgs(args[1..])
    ensures PrintArgs(args) == w + (" " + rest) && |PrintArgs(args)| == |w| + 1 + |rest|
  {
  }

  lemma FirstArg(s: string, a: nat, args: seq<string>, w: string)
    requires ArgsAt(s, a, args) && args != [] && w == args[0]
    ensures Has(s, a, w) && IsWord(w) && a + |w| < |s| && IsSpace(s[a + |w|])
    ensures ArgsAt(s, a + |w| + 1, args[1..])
    ensures a + |w| + 1 + |PrintArgs(args[1..])| == a + |PrintArgs(args)|
  {
    hide IsWord, Has, AllWords, IsText, PrintArgs;
    RestWords(args);
    var rest := PrintArgs(args[1..]);
    PrintFirst(args, w, rest);
    Spaced(s, a, w, rest);
  }

  lemma SkipOne(s: string, i: nat)
    requires i < |s| && IsSpace(s[i]) && Solid(s, i + 1)
    ensures Skip(s, i) == i + 1
  {
  }

  lemma NoPeek(s: string, i: nat, toks: set<char>)
    requires Solid(s, i) && (i < |s| ==> s[i] !in toks)
    ensures !Peek(s, i, toks)
  {
  }

  /** The next word or the end. */
  lemma ArgsStart(s: string, a: nat, args: seq<string>)
    requires ArgsAt(s, a, args)
    ensures Solid(s, a) && (a < |s| ==> if args == [] then s[a] == ')' else IsWordChar(s[a]))
    ensures args != [] ==> a < |s|
  {
    if args != [] {
      hide Has, AllWords, IsText;
      FirstArg(s, a, args, args[0]);
      HasChar(s, a, args[0]);
      assert IsWordChar(args[0][0]);
    }
  }

  ghost predicate ArgsParsed(s: string, r: Res<(seq<Span>, seq<Redir>)>, args: seq<string>, end: nat) {
    && r.Ok? && r.pos == end && r.value.1 == [] && |r.value.0| == |args|
    && forall k :: 0 <= k < |args| ==> Text(s, r.value.0[k]) == args[k]
  }

  lemma ArgsEnd(s: string, a: nat, argc: nat)
    requires IsText(s) && Stops(s, a)
    ensures ParseArgs(s, a, argc) == Ok(([], []), a)
  {
  }

  lemma ArgsStep(s: string, a: nat, args: seq<string>, w: string, b: nat)
    requires ArgsAt(s, a, args) && args != [] && w == args[0] && b == a + |w| + 1
    ensures b <= |s| && GetToken(s, a) == Token('a', Span(a, a + |w|), b) && ParseRedirs(s, b) == Ok([], b)
    ensures !Peek(s, a, {'|', ')', '&', ';'}) && Text(s, Span(a, a + |w|)) == w
  {
    hide IsWord, AllWords, IsText, PrintArgs, GetToken, Skip, ParseRedirs, Peek, Has, Stops, Text;
    FirstArg(s, a, args, w);
    ArgsStart(s, a, args);
    ArgsStart(s, b, args[1..]);
    TextIs(s, a, w);
    WordToken(s, a, w);
    SkipOne(s, a + |w|);
    NoRedirs(s, b);
    NoPeek(s, a, {'|', ')', '&', ';'});
  }

  lemma TextIs(s: string, a: nat, w: string)
    requires Has(s, a, w)
    ensures Text(s, Span(a, a + |w|)) == w
  {
  }

  lemma ArgsMore(s: string, a: nat, argc: nat, w: Span, b: nat)
    requires IsText(s) && a < b <= |s| && !Peek(s, a, {'|', ')', '&', ';'}) && GetToken(s, a) == Token('a', w, b)
    requires ParseRedirs(s, b) == Ok([], b) && argc + 1 < MAXARGS
    ensures var rest := ParseArgs(s, b, argc + 1);
            ParseArgs(s, a, argc) == if rest.Err? then Err else Ok(([w] + rest.value.0, rest.value.1), rest.pos)
  {
    hide GetToken, Peek, ParseRedirs, IsText;
    var rest := ParseArgs(s, b, argc + 1);
    assert rest.Ok? ==> [] + rest.value.1 == rest.value.1;
  }

  lemma {:induction false} ArgsPrinted(s: string, a: nat, args: seq<string>, argc: nat)
    requires ArgsAt(s, a, args) && argc + |args| < MAXARGS
    ensures a <= |s| && ArgsParsed(s, ParseArgs(s, a, argc), args, a + |PrintArgs(args)|)
    decreases |args|
  {
    hide IsWord, AllWords, IsText, GetToken, Peek, ParseRedirs, Has, Text, ParseArgs, Stops;
    if args == [] {
      ArgsEnd(s, a, argc);
    } else {
      hide PrintArgs;
      var w := args[0];
      var b := a + |w| + 1;
      ArgsStep(s, a, args, w, b);
      FirstArg(s, a, args, w);
      ArgsMore(s, a, argc, Span(a, a + |w|), b);
      ArgsPrinted(s, b, args[1..], argc + 1);
    }
  }

  // ----- Commands in parentheses -----

  ghost predicate LineAt(s: string, a: nat, t: Tree) {
    IsText(s) && Printable(t) && Has(s, a, Print(t)) && Stops(s, a + |Print(t)|)
  }

  ghost predicate Parsed(s: string, r: Res<Cmd>, t: Tree, end: nat) {
    r.Ok? && r.pos == end && Resolve(s, r.value) == t
  }

  /** A block: what stands between parentheses, and then the redirections behind it. */
  lemma BlockExec(s: string, a: nat, e: nat)
    requires IsText(s) && a + 1 < e <= |s| && s[a] == '(' && s[e - 1] == ')' && Solid(s, a + 1) && Solid(s, e)
    requires ParseLine(s, a + 1).Ok? && ParseLine(s, a + 1).pos == e - 1
    ensures var redirs := ParseRedirs(s, e);
            ParseExec(s, a) == if redirs.Err? then Err
                else Ok(Wrap(ParseLine(s, a + 1).value, redirs.value), redirs.pos)
  {
    hide GetToken, Peek, ParseLine, ParseRedirs, IsText;
    Parentheses(s, a, '(');
    Parentheses(s, e - 1, ')');
  }

  lemma Parentheses(s: string, i: nat, c: char)
    requires i < |s| && s[i] == c && (c == '(' || c == ')') && Solid(s, i + 1)
    ensures Peek(s, i, {c}) && GetToken(s, i).pos == i + 1
  {
    SymbolToken(s, i);
  }

  /** parsepipe, parseline's loop and parseline behind a command that ends at e. */
  lemma PipeEnds(s: string, a: nat, c: Cmd, e: nat)
    requires IsText(s) && a <= e <= |s| && ParseExec(s, a) == Ok(c, e) && Solid(s, e) && (e < |s| ==> s[e] != '|')
    ensures ParsePipe(s, a) == Ok(c, e)
  {
    NoPeek(s, e, {'|'});
    hide ParseExec, Peek;
  }

  lemma BacksEnd(s: string, e: nat, c: Cmd)
    requires IsText(s) && Solid(s, e) && (e < |s| ==> s[e] != '&')
    ensures ParseBacks(s, e, c) == Ok(c, e)
  {
    NoPeek(s, e, {'&'});
    hide Peek;
  }

  lemma LineEnds(s: string, a: nat, c: Cmd, e: nat, d: Cmd)
    requires IsText(s) && a <= e <= |s| && ParsePipe(s, a).Ok?
    requires ParseBacks(s, ParsePipe(s, a).pos, ParsePipe(s, a).value) == Ok(d, e)
    requires Solid(s, e) && (e < |s| ==> s[e] != ';')
    ensures ParseLine(s, a) == Ok(d, e)
  {
    NoPeek(s, e, {';'});
    hide ParsePipe, ParseBacks, Peek;
  }

  /** A whole line that is one command ending where a line may end. */
  lemma LineOf(s: string, a: nat, c: Cmd, e: nat)
    requires IsText(s) && Stops(s, e) && a <= e && ParsePipe(s, a) == Ok(c, e)
    ensures ParseLine(s, a) == Ok(c, e)
  {
    BacksEnd(s, e, c);
    LineEnds(s, a, c, e, c);
  }

  lemma ExecOf(s: string, a: nat, argv: seq<Span>, e: nat)
    requires a <= |s| && IsText(s) && !Peek(s, a, {'('}) && ParseRedirs(s, a) == Ok([], a)
    requires ParseArgs(s, a, 0) == Ok((argv, []), e)
    ensures ParseExec(s, a) == Ok(Exec(argv), e)
  {
    hide Peek, ParseRedirs, ParseArgs, IsText;
    var none: seq<Redir> := [];
    assert none + none == none;
  }

  lemma ResolveWords(s: string, argv: seq<Span>, args: seq<string>)
    requires |argv| == |args| && forall k :: 0 <= k < |args| ==> Text(s, argv[k]) == args[k]
    ensures Resolve(s, Exec(argv)) == Words(args)
  {
    hide Text;
  }

  lemma WordsLine(s: string, a: nat, args: seq<string>, end: nat)
    requires ArgsAt(s, a, args) && |args| < MAXARGS && end == a + |PrintArgs(args)|
    ensures a <= |s| && Parsed(s, ParseLine(s, a), Words(args), end)
  {
    hide Has, AllWords, PrintArgs, ParseArgs, ParseRedirs, Peek, Text, ParseExec, ParsePipe, ParseLine, IsText, Resolve;
    ArgsStart(s, a, args);
    ArgsPrinted(s, a, args, 0);
    NoRedirs(s, a);
    NoPeek(s, a, {'('});
    var argv := ParseArgs(s, a, 0).value.0;
    ExecOf(s, a, argv, end);
    ResolveWords(s, argv, args);
    PipeEnds(s, a, Exec(argv), end);
    LineOf(s, a, Exec(argv), end);
  }

  lemma BlockAt(s: string, a: nat, t: Tree, tail: string, e: nat)
    requires Has(s, a, Block(t) + tail) && e == a + |Print(t)| + 2
    ensures e <= |s| && s[a] == '(' && s[e - 1] == ')' && Has(s, a + 1, Print(t)) && Has(s, e, tail)
  {
    hide Has, Print;
    var inner := Print(t) + ")";
    assert Block(t) == "(" + inner;
    HasParts(s, a, Block(t), tail);
    HasChar(s, a, Block(t));
    HasParts(s, a, "(", inner);
    HasParts(s, a + 1, Print(t), ")");
    HasChar(s, e - 1, ")");
  }

  /** A block whose inside has been parsed, followed by something solid. */
  ghost predicate BlockRead(s: string, a: nat, t: Tree, e: nat) {
    && IsText(s) && a + 2 <= e <= |s| && Parsed(s, ParseLine(s, a + 1), t, e - 1)
    && s[a] == '(' && s[e - 1] == ')' && Solid(s, a + 1) && Solid(s, e)
  }

  lemma ReadBlock(s: string, a: nat, t: Tree, tail: string, e: nat)
    requires IsText(s) && Printable(t) && Has(s, a, Block(t) + tail) && e == a + |Print(t)| + 2 && Solid(s, e)
    requires LineAt(s, a + 1, t) ==> a + 1 <= |s| && Parsed(s, ParseLine(s, a + 1), t, e - 1)
    ensures BlockRead(s, a, t, e) && Has(s, e, tail)
  {
    hide Has, Print, IsText, ParseLine, Printable, Block;
    BlockAt(s, a, t, tail, e);
    PrintSolid(s, a + 1, t);
  }

  /** A block that no redirection follows. */
  lemma PlainBlock(s: string, a: nat, t: Tree, e: nat)
    requires BlockRead(s, a, t, e) && (e < |s| ==> s[e] != '<' && s[e] != '>')
    ensures Parsed(s, ParseExec(s, a), t, e)
  {
    hide ParseExec, ParseRedirs, ParseLine, IsText;
    NoRedirs(s, e);
    BlockExec(s, a, e);
  }

  lemma RedirOne(s: string, e: nat, mode: Mode, file: string, end: nat)
    requires IsText(s) && Has(s, e, Op(mode) + file) && IsWord(file) && end == e + |Op(mode)| + |file| && Stops(s, end)
    ensures Solid(s, e) && ParseRedirs(s, e) == Ok([Redir(Span(end - |file|, end), mode)], end)
    ensures Text(s, Span(end - |file|, end)) == file
  {
    var f := end - |file|;
    hide Has, IsText, WordEnd;
    HasParts(s, e, Op(mode), file);
    HasChar(s, e, Op(mode) + file);
    HasChar(s, f, file);
    TextIs(s, f, file);
    WordToken(s, f, file);
    OpToken(s, e, mode, file, f);
    NoRedirs(s, end);
    hide GetToken, Text, IsWord;
    var none: seq<Redir> := [];
    assert [Redir(Span(f, end), mode)] + none == [Redir(Span(f, end), mode)];
  }

  lemma OpToken(s: string, e: nat, mode: Mode, file: string, f: nat)
    requires Has(s, e, Op(mode) + file) && IsWord(file) && f == e + |Op(mode)| && f < |s| && s[f] == file[0]
    ensures e < f && Solid(s, e) && Peek(s, e, {'<', '>'}) && GetToken(s, e).pos == f
    ensures GetToken(s, e).kind == match mode case In => '<' case Out => '>' case Append => '+'
  {
    HasChar(s, e, Op(mode) + file);
    assert IsWordChar(file[0]);
    if mode == Append {
      assert s[e..e + |Op(mode) + file|][1] == '>';
    }
  }

  // ----- Lines -----

  lemma ToLine(s: string, a: nat, t: Tree, e: nat, mode: Mode, file: string, end: nat)
    requires BlockRead(s, a, t, e) && Has(s, e, Op(mode) + file) && IsWord(file)
    requires end == e + |Op(mode)| + |file| && Stops(s, end)
    ensures Parsed(s, ParseLine(s, a), To(t, mode, file), end)
  {
    hide Has, IsText, ParseExec, ParseRedirs, ParsePipe, ParseLine, Text;
    RedirOne(s, e, mode, file, end);
    BlockExec(s, a, e);
    var c := ParseLine(s, a + 1).value;
    var redirs := ParseRedirs(s, e).value;
    assert redirs[..0] == [];
    assert Wrap(c, redirs) == Redirected(c, redirs[0]);
    PipeEnds(s, a, Redirected(c, redirs[0]), end);
    LineOf(s, a, Redirected(c, redirs[0]), end);
  }

  lemma PipedLine(s: string, a: nat, t: Tree, e: nat, u: Tree, end: nat)
    requires BlockRead(s, a, t, e) && e < |s| && s[e] == '|' && BlockRead(s, e + 1, u, end) && Stops(s, end)
    ensures Parsed(s, ParseLine(s, a), Piped(t, u), end)
  {
    hide IsText, ParseExec, ParseRedirs, ParseLine;
    PlainBlock(s, a, t, e);
    PlainBlock(s, e + 1, u, end);
    var l, r := ParseExec(s, a).value, ParseExec(s, e + 1).value;
    PipeEnds(s, e + 1, r, end);
    SymbolToken(s, e);
    assert Peek(s, e, {'|'});
    hide GetToken, Peek;
    assert ParsePipe(s, a) == Ok(Pipe(l, r), end);
    LineOf(s, a, Pipe(l, r), end);
  }

  lemma AmpLine(s: string, a: nat, t: Tree, e: nat)
    requires BlockRead(s, a, t, e) && e < |s| && s[e] == '&' && Stops(s, e + 1)
    ensures Parsed(s, ParseLine(s, a), Amp(t), e + 1)
  {
    hide IsText, ParseExec, ParseRedirs, ParseLine, ParsePipe;
    PlainBlock(s, a, t, e);
    var c := ParseExec(s, a).value;
    PipeEnds(s, a, c, e);
    SymbolToken(s, e);
    assert Peek(s, e, {'&'});
    BacksEnd(s, e + 1, Back(c));
    hide GetToken, Peek;
    assert ParseBacks(s, e, c) == Ok(Back(c), e + 1);
    LineEnds(s, a, c, e + 1, Back(c));
  }

  lemma BlockSolid(s: string, a: nat, t: Tree, e: nat)
    requires BlockRead(s, a, t, e)
    ensures Solid(s, a)
  {
    hide IsText, ParseLine;
  }

  lemma ThenOf(s: string, a: nat, l: Cmd, e: nat, r: Cmd, end: nat)
    requires IsText(s) && a <= e < |s| && s[e] == ';' && ParsePipe(s, a) == Ok(l, e) && ParseBacks(s, e, l) == Ok(l, e)
    requires Solid(s, e + 1) && ParseLine(s, e + 1) == Ok(r, end)
    ensures ParseLine(s, a) == Ok(List(l, r), end)
  {
    hide IsText, ParsePipe, ParseBacks;
    SymbolToken(s, e);
    assert Peek(s, e, {';'});
  }

  lemma ThenLine(s: string, a: nat, t: Tree, e: nat, u: Tree, end: nat)
    requires BlockRead(s, a, t, e) && e < |s| && s[e] == ';' && BlockRead(s, e + 1, u, end) && Stops(s, end)
    ensures Parsed(s, ParseLine(s, a), Then(t, u), end)
  {
    hide IsText, ParseExec, ParseRedirs, ParsePipe, ParseLine, ParseBacks;
    PlainBlock(s, a, t, e);
    PlainBlock(s, e + 1, u, end);
    var l, r := ParseExec(s, a).value, ParseExec(s, e + 1).value;
    PipeEnds(s, a, l, e);
    PipeEnds(s, e + 1, r, end);
    BacksEnd(s, e, l);
    LineOf(s, e + 1, r, end);
    BlockSolid(s, e + 1, u, end);
    ThenOf(s, a, l, e, r, end);
  }

  function Size(t: Tree): nat {
    match t
    case Words(_) => 0
    case To(cmd, _, _) => 1 + Size(cmd)
    case Piped(left, right) => 1 + Size(left) + Size(right)
    case Then(left, right) => 1 + Size(left) + Size(right)
    case Amp(cmd) => 1 + Size(cmd)
  }

  /** A printed command parses to itself wherever it stands before the end or a parenthesis. */
  lemma {:induction false} LinePrinted(s: string, a: nat, t: Tree, end: nat)
    requires LineAt(s, a, t) && end == a + |Print(t)|
    ensures a <= |s| && Parsed(s, ParseLine(s, a), t, end)
    decreases Size(t), 1
  {
    hide Has, IsText, ParseLine, IsWord, AllWords;
    match t
    case Words(args) => WordsLine(s, a, args, end);
    case To(cmd, mode, file) =>
      var e := a + |Print(cmd)| + 2;
      SolidAfter(s, a, cmd, Op(mode) + file, e);
      if LineAt(s, a + 1, cmd) { LinePrinted(s, a + 1, cmd, e - 1); }
      ReadBlock(s, a, cmd, Op(mode) + file, e);
      ToLine(s, a, cmd, e, mode, file, end);
    case Piped(left, right) =>
      TwoBlocks(s, a, left, "|", right, end);
      PipedLine(s, a, left, a + |Print(left)| + 2, right, end);
    case Then(left, right) =>
      TwoBlocks(s, a, left, ";", right, end);
      ThenLine(s, a, left, a + |Print(left)| + 2, right, end);
    case Amp(cmd) =>
      var e := a + |Print(cmd)| + 2;
      SolidAfter(s, a, cmd, "&", e);
      if LineAt(s, a + 1, cmd) { LinePrinted(s, a + 1, cmd, e - 1); }
      ReadBlock(s, a, cmd, "&", e);
      HasChar(s, e, "&");
      AmpLine(s, a, cmd, e);
  }

  lemma SolidAfter(s: string, a: nat, t: Tree, tail: string, e: nat)
    requires Has(s, a, Block(t) + tail) && tail != "" && !IsSpace(tail[0]) && e == a + |Print(t)| + 2
    ensures Solid(s, e) && e < |s| && s[e] == tail[0]
  {
    hide Has, Print;
    BlockAt(s, a, t, tail, e);
    HasChar(s, e, tail);
  }

  /** Two blocks with a symbol between them. */
  lemma {:induction false} TwoBlocks(s: string, a: nat, left: Tree, op: string, right: Tree, end: nat)
    requires IsText(s) && Printable(left) && Printable(right) && Has(s, a, Block(left) + (op + Block(right)))
    requires |op| == 1 && !IsSpace(op[0]) && end == a + |Print(left)| + |Print(right)| + 5 && Stops(s, end)
    ensures var e := a + |Print(left)| + 2;
            e < |s| && s[e] == op[0] && BlockRead(s, a, left, e) && BlockRead(s, e + 1, right, end)
    decreases 1 + Size(left) + Size(right), 0
  {
    hide Has, IsText, ParseLine, Print, Printable;
    var e := a + |Print(left)| + 2;
    var tail := op + Block(right);
    SolidAfter(s, a, left, tail, e);
    if LineAt(s, a + 1, left) { LinePrinted(s, a + 1, left, e - 1); }
    ReadBlock(s, a, left, tail, e);
    HasParts(s, e, op, Block(right));
    assert Block(right) + "" == Block(right);
    if LineAt(s, e + 2, right) { LinePrinted(s, e + 2, right, end - 1); }
    ReadBlock(s, e + 1, right, "", end);
  }

  /** Parsing undoes printing: any command tree, printed in full parentheses, comes back. */
  lemma ParsePrint(t: Tree)
    requires Printable(t)
    ensures IsText(Print(t)) && ParseCmd(Print(t)).Ok? && Resolve(Print(t), ParseCmd(Print(t)).value) == t
  {
    var s := Print(t);
    PrintIsText(t);
    assert s[0..0 + |s|] == s;
    LinePrinted(s, 0, t, |s|);
    hide ParseLine, Print;
  }

  lemma {:induction false} PrintIsText(t: Tree)
    requires Printable(t)
    ensures IsText(Print(t))
  {
    match t
    case Words(args) => ArgsAreText(args);
    case To(cmd, mode, file) => PrintIsText(cmd); assert IsText(Block(cmd)) && IsText(Op(mode) + file);
    case Piped(left, right) => PrintIsText(left); PrintIsText(right); assert IsText(Block(left))
        && IsText(Block(right));
    case Then(left, right) => PrintIsText(left); PrintIsText(right); assert IsText(Block(left)) && IsText(Block(right));
    case Amp(cmd) => PrintIsText(cmd); assert IsText(Block(cmd));
  }

  lemma {:induction false} ArgsAreText(args: seq<string>)
    requires AllWords(args)
    ensures IsText(PrintArgs(args))
  {
    if args != [] {
      ArgsAreText(args[1..]);
      assert IsWord(args[0]);
    }
  }
}
