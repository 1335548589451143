/** Command lines as people type them, without parentheses: what the shell's parser (user/sh.c)
    makes of words, redirections in any place, pipes, "&" and ";". */
module ShellFlat {
  import opened ShellParser
  import opened ShellRoundTrip

  datatype Item = Arg(word: string) | Redirect(mode: Mode, file: string)

  /** Commands joined by pipes, and the number of "&" behind them. */
  datatype Job = Job(cmds: seq<seq<Item>>, amps: nat)

  // ----- The text of a line -----

  function PrintItem(x: Item): string {
    match x
    case Arg(word) => word + " "
    case Redirect(mode, file) => Op(mode) + (file + " ")
  }

  function PrintItems(items: seq<Item>): string {
    if items == [] then "" else PrintItem(items[0]) + PrintItems(items[1..])
  }

  function PrintPipe(cmds: seq<seq<Item>>): string
    requires cmds != []
  {
    PrintItems(cmds[0]) + if |cmds| == 1 then "" else "| " + PrintPipe(cmds[1..])
  }

  function PrintAmps(n: nat): string { if n == 0 then "" else "& " + PrintAmps(n - 1) }

  function PrintJobs(jobs: seq<Job>): string
    requires jobs != [] && AllOk(jobs)
  {
    PrintPipe(jobs[0].cmds) + (PrintAmps(jobs[0].amps) + if |jobs| == 1 then "" else "; " + PrintJobs(jobs[1..]))
  }

  // ----- The command it stands for -----

  function Args(items: seq<Item>): seq<string> {
    if items == [] then []
    else if items[0].Arg? then [items[0].word] + Args(items[1..]) else Args(items[1..])
  }

  function Files(items: seq<Item>): seq<(Mode, string)> {
    if items == [] then []
    else if items[0].Arg? then Files(items[1..]) else [(items[0].mode, items[0].file)] + Files(items[1..])
  }

  /** The first redirection is the innermost. */
  function Around(t: Tree, files: seq<(Mode, string)>): Tree {
    if files == [] then t
    else var n := |files| - 1; To(Around(t, files[..n]), files[n].0, files[n].1)
  }

  function ItemsTree(items: seq<Item>): Tree { Around(Words(Args(items)), Files(items)) }

  function PipeTree(cmds: seq<seq<Item>>): Tree
    requires cmds != []
  {
    if |cmds| == 1 then ItemsTree(cmds[0]) else Piped(ItemsTree(cmds[0]), PipeTree(cmds[1..]))
  }

  function Amps(t: Tree, n: nat): Tree
    decreases n
  {
    if n == 0 then t else Amps(Amp(t), n - 1)
  }

  function JobsTree(jobs: seq<Job>): Tree
    requires jobs != [] && AllOk(jobs)
  {
    var t := Amps(PipeTree(jobs[0].cmds), jobs[0].amps);
    if |jobs| == 1 then t else Then(t, JobsTree(jobs[1..]))
  }

  predicate ItemOk(x: Item) { IsWord(if x.Arg? then x.word else x.file) }

  predicate ItemsOk(items: seq<Item>) { |Args(items)| < MAXARGS && forall k :: 0 <= k < |items| ==> ItemOk(items[k]) }

  predicate JobOk(job: Job) { job.cmds != [] && forall k :: 0 <= k < |job.cmds| ==> ItemsOk(job.cmds[k]) }

  predicate AllOk(jobs: seq<Job>) { forall k :: 0 <= k < |jobs| ==> JobOk(jobs[k]) }

  // ----- Reading -----

  /** What is left of s from position a on. */
  ghost predicate Left(s: string, a: nat, p: string) { a <= |s| && s[a..] == p }

  lemma LeftParts(s: string, a: nat, p: string, q: string)
    requires Left(s, a, p + q)
    ensures Has(s, a, p) && Left(s, a + |p|, q)
  {
    assert s[a..][..|p|] == p;
    assert s[a..][|p|..] == q;
  }

  lemma Joined(p: string, q: string, r: string)
    ensures (p + q) + r == p + (q + r)
  {
  }

  lemma LeftChar(s: string, a: nat, p: string)
    requires Left(s, a, p)
    ensures if p == "" then a == |s| else a < |s| && s[a] == p[0]
  {
    assert p != "" ==> s[a..][0] == p[0];
  }

  /** What may follow a command. */
  predicate Follows(tail: string, toks: set<char>) { tail == "" || tail[0] in toks }

  /** The items of a command, and behind them what may follow. */
  ghost predicate ItemsAt(s: string, a: nat, items: seq<Item>, tail: string) {
    && IsText(s) && Left(s, a, PrintItems(items) + tail) && Follows(tail, {'|', '&', ';'})
    && forall k :: 0 <= k < |items| ==> ItemOk(items[k])
  }

  lemma ItemsStart(s: string, a: nat, items: seq<Item>, tail: string)
    requires ItemsAt(s, a, items, tail)
    ensures Solid(s, a)
    ensures a < |s| ==>
              if items == [] then s[a] in {'|', '&', ';'}
              else if items[0].Arg? then IsWordChar(s[a]) else s[a] == '<' || s[a] == '>'
    ensures items != [] ==> a < |s|
  {
    hide Left, IsText;
    LeftChar(s, a, PrintItems(items) + tail);
    if items != [] {
      assert ItemOk(items[0]);
      assert (PrintItems(items) + tail)[0] == PrintItem(items[0])[0];
    } else {
      assert PrintItems(items) + tail == tail;
    }
  }

  lemma ItemsSplit(items: seq<Item>, tail: string)
    requires items != []
    ensures PrintItems(items) + tail == PrintItem(items[0]) + (PrintItems(items[1..]) + tail)
  {
    hide PrintItem;
    Joined(PrintItem(items[0]), PrintItems(items[1..]), tail);
  }

  lemma RestOk(items: seq<Item>)
    requires items != [] && forall k :: 0 <= k < |items| ==> ItemOk(items[k])
    ensures ItemOk(items[0]) && forall k :: 0 <= k < |items[1..]| ==> ItemOk(items[1..][k])
  {
    hide ItemOk;
  }

  lemma FirstItem(s: string, a: nat, items: seq<Item>, tail: string, b: nat)
    requires ItemsAt(s, a, items, tail) && items != [] && b == a + |PrintItem(items[0])|
    ensures Has(s, a, PrintItem(items[0])) && ItemsAt(s, b, items[1..], tail) && ItemOk(items[0])
  {
    hide Left, IsText, ItemOk, PrintItem, PrintItems, Has, Follows;
    var first, rest := PrintItem(items[0]), PrintItems(items[1..]);
    ItemsSplit(items, tail);
    LeftParts(s, a, first, rest + tail);
    RestOk(items);
  }

  lemma WordThenSpace(s: string, a: nat, w: string)
    requires Has(s, a, w + " ") && IsWord(w) && Solid(s, a + |w| + 1)
    ensures GetToken(s, a) == Token('a', Span(a, a + |w|), a + |w| + 1) && Text(s, Span(a, a + |w|)) == w
  {
    hide Has, IsWord, GetToken, Text;
    HasParts(s, a, w, " ");
    HasChar(s, a + |w|, " ");
    WordToken(s, a, w);
    SkipOne(s, a + |w|);
    TextIs(s, a, w);
  }

  // ----- Redirections -----

  /** The redirections at the front. */
  function Lead(items: seq<Item>): seq<(Mode, string)> {
    if items == [] || items[0].Arg? then [] else [(items[0].mode, items[0].file)] + Lead(items[1..])
  }

  /** What comes after them. */
  function After(items: seq<Item>): (r: seq<Item>)
    ensures |r| <= |items| && (r == [] || r[0].Arg?)
  {
    if items == [] || items[0].Arg? then items else After(items[1..])
  }

  lemma {:induction false} LeadAfter(items: seq<Item>)
    ensures Args(After(items)) == Args(items) && Files(items) == Lead(items) + Files(After(items))
  {
    if items != [] && !items[0].Arg? {
      LeadAfter(items[1..]);
    } else {
      assert Lead(items) == [];
    }
  }

  ghost predicate FilesRead(s: string, redirs: seq<Redir>, files: seq<(Mode, string)>) {
    && |redirs| == |files|
    && forall k :: 0 <= k < |files| ==> redirs[k].mode == files[k].0 && Text(s, redirs[k].file) == files[k].1
  }

  lemma RedirTokens(s: string, a: nat, mode: Mode, file: string, f: nat, b: nat)
    requires Has(s, a, Op(mode) + (file + " ")) && IsWord(file) && Solid(s, b)
    requires f == a + |Op(mode)| && b == f + |file| + 1
    ensures a < f < b <= |s| && Text(s, Span(f, b - 1)) == file && Peek(s, a, {'<', '>'})
    ensures GetToken(s, a).kind == (match mode case In => '<' case Out => '>' case Append => '+')
    ensures GetToken(s, a).pos == f && GetToken(s, f) == Token('a', Span(f, b - 1), b)
  {
    hide Has, Text, Skip, GetToken, Peek;
    HasParts(s, a, Op(mode), file + " ");
    WordThenSpace(s, f, file);
    HasParts(s, f, file, " ");
    HasChar(s, f, file);
    assert Op(mode) + (file + " ") == (Op(mode) + file) + " ";
    HasParts(s, a, Op(mode) + file, " ");
    OpToken(s, a, mode, file, f);
  }

  lemma OneRedir(s: string, a: nat, items: seq<Item>, tail: string, f: nat, b: nat)
    requires ItemsAt(s, a, items, tail) && items != [] && items[0].Redirect?
    requires f == a + |Op(items[0].mode)| && b == f + |items[0].file| + 1
    ensures a < f < b <= |s| && Text(s, Span(f, b - 1)) == items[0].file
    ensures var rest := ParseRedirs(s, b);
            ParseRedirs(s, a) ==
              if rest.Err? then Err else Ok([Redir(Span(f, b - 1), items[0].mode)] + rest.value, rest.pos)
  {
    hide Has, IsText, Text, Left, GetToken, Peek, PrintItems;
    FirstItem(s, a, items, tail, b);
    ItemsStart(s, b, items[1..], tail);
    RedirTokens(s, a, items[0].mode, items[0].file, f, b);
  }

  lemma LeadMore(s: string, items: seq<Item>, r: Redir, rest: seq<Redir>)
    requires items != [] && items[0].Redirect? && r.mode == items[0].mode && Text(s, r.file) == items[0].file
    requires FilesRead(s, rest, Lead(items[1..]))
    ensures FilesRead(s, [r] + rest, Lead(items))
  {
    hide Text;
    FilesMore(s, [r], [(items[0].mode, items[0].file)], rest, Lead(items[1..]));
  }

  lemma {:induction false} RedirsFlat(s: string, a: nat, items: seq<Item>, tail: string)
    requires ItemsAt(s, a, items, tail)
    ensures a <= |s| && var r := ParseRedirs(s, a);
            r.Ok? && a <= r.pos && ItemsAt(s, r.pos, After(items), tail) && FilesRead(s, r.value, Lead(items))
    decreases |items|
  {
    hide IsText, Text, Has, ParseRedirs;
    ItemsStart(s, a, items, tail);
    if items == [] || items[0].Arg? {
      NoRedirs(s, a);
    } else {
      var f := a + |Op(items[0].mode)|;
      var b := f + |items[0].file| + 1;
      OneRedir(s, a, items, tail, f, b);
      FirstItem(s, a, items, tail, b);
      hide ItemsAt, FilesRead, Lead;
      RedirsFlat(s, b, items[1..], tail);
      LeadMore(s, items, Redir(Span(f, b - 1), items[0].mode), ParseRedirs(s, b).value);
    }
  }

  // ----- A command -----

  ghost predicate WordsRead(s: string, argv: seq<Span>, args: seq<string>) {
    |argv| == |args| && forall k :: 0 <= k < |args| ==> Text(s, argv[k]) == args[k]
  }

  lemma FilesMore(s: string, r: seq<Redir>, f: seq<(Mode, string)>, r': seq<Redir>, f': seq<(Mode, string)>)
    requires FilesRead(s, r, f) && FilesRead(s, r', f')
    ensures FilesRead(s, r + r', f + f')
  {
    hide Text;
  }

  lemma ArgStep(s: string, a: nat, argc: nat, w: Span, b: nat)
    requires IsText(s) && a < b <= |s| && !Peek(s, a, {'|', ')', '&', ';'}) && GetToken(s, a) == Token('a', w, b)
    requires argc + 1 < MAXARGS && ParseRedirs(s, b).Ok?
    ensures var redirs := ParseRedirs(s, b);
            var rest := ParseArgs(s, redirs.pos, argc + 1);
            ParseArgs(s, a, argc) ==
              if rest.Err? then Err else Ok(([w] + rest.value.0, redirs.value + rest.value.1), rest.pos)
  {
    hide IsText, Peek, GetToken, ParseRedirs;
  }

  lemma ArgThenRedirs(s: string, a: nat, items: seq<Item>, tail: string, argc: nat, b: nat)
    requires ItemsAt(s, a, items, tail) && items != [] && items[0].Arg? && b == a + |items[0].word| + 1
    requires argc + 1 < MAXARGS
    ensures a < b <= |s| && ItemsAt(s, b, items[1..], tail) && Text(s, Span(a, b - 1)) == items[0].word
    ensures var redirs := ParseRedirs(s, b);
            redirs.Ok? ==>
              var rest := ParseArgs(s, redirs.pos, argc + 1);
              ParseArgs(s, a, argc) ==
                if rest.Err? then Err
                else Ok(([Span(a, b - 1)] + rest.value.0, redirs.value + rest.value.1), rest.pos)
  {
    hide Has, IsText, Text, ParseRedirs, ParseArgs, GetToken, Peek, PrintItems, IsWord, Left;
    FirstItem(s, a, items, tail, b);
    ItemsStart(s, a, items, tail);
    ItemsStart(s, b, items[1..], tail);
    hide ItemsAt;
    WordThenSpace(s, a, items[0].word);
    NoPeek(s, a, {'|', ')', '&', ';'});
    if ParseRedirs(s, b).Ok? {
      ArgStep(s, a, argc, Span(a, b - 1), b);
    }
  }

  /** What parseexec's loop has read: the words and the redirections of the items, up to the tail. */
  ghost predicate ArgsRead(s: string, a: nat, r: Res<(seq<Span>, seq<Redir>)>, items: seq<Item>, tail: string) {
    && r.Ok? && a <= r.pos && Left(s, r.pos, tail)
    && WordsRead(s, r.value.0, Args(items)) && FilesRead(s, r.value.1, Files(items))
  }

  lemma ArgsReadMore(s: string, a: nat, items: seq<Item>, tail: string, w: Span, b: nat, redirs: seq<Redir>,
                     rest: Res<(seq<Span>, seq<Redir>)>)
    requires items != [] && items[0].Arg? && Text(s, w) == items[0].word && a <= b
    requires FilesRead(s, redirs, Lead(items[1..])) && ArgsRead(s, b, rest, After(items[1..]), tail)
    ensures ArgsRead(s, a, Ok(([w] + rest.value.0, redirs + rest.value.1), rest.pos), items, tail)
  {
    var more := After(items[1..]);
    LeadAfter(items[1..]);
    FilesMore(s, redirs, Lead(items[1..]), rest.value.1, Files(more));
    assert Args(items) == [items[0].word] + Args(more) && Files(items) == Lead(items[1..]) + Files(more);
    hide Text, Args, Files, Lead, After, FilesRead, Left;
  }

  lemma {:induction false} ArgsFlat(s: string, a: nat, items: seq<Item>, tail: string, argc: nat)
    requires ItemsAt(s, a, items, tail) && (items == [] || items[0].Arg?) && argc + |Args(items)| < MAXARGS
    ensures a <= |s| && ArgsRead(s, a, ParseArgs(s, a, argc), items, tail)
    decreases |items|
  {
    hide IsText, Text, Has, ParseRedirs, ParseArgs;
    ItemsStart(s, a, items, tail);
    if items == [] {
      NoArgs(s, a, argc);
      assert PrintItems(items) + tail == tail;
    } else {
      var b := a + |items[0].word| + 1;
      ArgThenRedirs(s, a, items, tail, argc, b);
      RedirsFlat(s, b, items[1..], tail);
      LeadAfter(items[1..]);
      hide ArgsRead, ItemsAt, FilesRead, Lead, Files;
      var redirs := ParseRedirs(s, b);
      ArgsFlat(s, redirs.pos, After(items[1..]), tail, argc + 1);
      var rest := ParseArgs(s, redirs.pos, argc + 1);
      ReadOk(s, redirs.pos, rest, After(items[1..]), tail);
      ArgsReadMore(s, a, items, tail, Span(a, b - 1), redirs.pos, redirs.value, rest);
    }
  }

  lemma ReadOk(s: string, a: nat, r: Res<(seq<Span>, seq<Redir>)>, items: seq<Item>, tail: string)
    requires ArgsRead(s, a, r, items, tail)
    ensures r.Ok?
  {
  }

  lemma NoArgs(s: string, a: nat, argc: nat)
    requires IsText(s) && Solid(s, a) && (a < |s| ==> s[a] in {'|', '&', ';'})
    ensures ParseArgs(s, a, argc) == Ok(([], []), a)
  {
  }

  lemma {:induction false} ResolveWrap(s: string, c: Cmd, t: Tree, redirs: seq<Redir>, files: seq<(Mode, string)>)
    requires Resolve(s, c) == t && FilesRead(s, redirs, files)
    ensures Resolve(s, Wrap(c, redirs)) == Around(t, files)
    decreases |files|
  {
    hide Text;
    if files != [] {
      var n := |files| - 1;
      ResolveWrap(s, c, t, redirs[..n], files[..n]);
    }
  }

  /** parseexec reads the words and the redirections of a command, wherever they stand in it. */
  lemma ExecFlat(s: string, a: nat, items: seq<Item>, tail: string)
    requires ItemsAt(s, a, items, tail) && |Args(items)| < MAXARGS
    ensures a <= |s| && var r := ParseExec(s, a);
            r.Ok? && a <= r.pos && Left(s, r.pos, tail) && Resolve(s, r.value) == ItemsTree(items)
  {
    hide IsText, Text, ParseRedirs, ParseArgs, Resolve, Around, Left;
    ItemsStart(s, a, items, tail);
    NoPeek(s, a, {'('});
    RedirsFlat(s, a, items, tail);
    LeadAfter(items);
    var redirs := ParseRedirs(s, a);
    ArgsFlat(s, redirs.pos, After(items), tail, 0);
    hide ItemsAt, Peek;
    var args := ParseArgs(s, redirs.pos, 0);
    FilesMore(s, redirs.value, Lead(items), args.value.1, Files(After(items)));
    ResolveWords(s, args.value.0, Args(items));
    ResolveWrap(s, Exec(args.value.0), Words(Args(items)), redirs.value + args.value.1, Files(items));
  }

  // ----- Pipes -----

  /** A symbol and a space, and behind them something solid. */
  lemma SymbolThenSpace(s: string, a: nat, c: char, rest: string)
    requires Left(s, a, [c, ' '] + rest) && IsControl(c) && Solid(s, a + 2)
    ensures a + 2 <= |s| && Peek(s, a, {c}) && GetToken(s, a).pos == a + 2 && Left(s, a + 2, rest)
  {
    LeftParts(s, a, [c, ' '], rest);
    assert s[a..a + 2][0] == c && s[a..a + 2][1] == ' ';
    SkipOne(s, a + 1);
  }

  lemma NoneFollows(s: string, a: nat, tail: string, toks: set<char>, c: char)
    requires Left(s, a, tail) && Follows(tail, toks) && c !in toks && forall x :: x in toks ==> !IsSpace(x)
    ensures !Peek(s, a, {c}) && Skip(s, a) == a
  {
    hide Left;
    LeftChar(s, a, tail);
    NoPeek(s, a, {c});
  }

  ghost predicate PipeAt(s: string, a: nat, cmds: seq<seq<Item>>, tail: string) {
    && cmds != [] && IsText(s) && Left(s, a, PrintPipe(cmds) + tail) && Follows(tail, {'&', ';'})
    && forall k :: 0 <= k < |cmds| ==> ItemsOk(cmds[k])
  }

  /** What is printed behind the first command of a pipe. */
  function PipeRest(cmds: seq<seq<Item>>, tail: string): string
    requires cmds != []
  {
    if |cmds| == 1 then tail else "| " + (PrintPipe(cmds[1..]) + tail)
  }

  lemma PipeParts(s: string, a: nat, cmds: seq<seq<Item>>, tail: string)
    requires PipeAt(s, a, cmds, tail)
    ensures ItemsAt(s, a, cmds[0], PipeRest(cmds, tail)) && |Args(cmds[0])| < MAXARGS
  {
    assert ItemsOk(cmds[0]);
    PipeSplit(cmds, tail);
    hide Left, IsText, PrintItems, ItemOk, Args, PrintPipe;
  }

  lemma PipeSplit(cmds: seq<seq<Item>>, tail: string)
    requires cmds != []
    ensures PrintPipe(cmds) + tail == PrintItems(cmds[0]) + PipeRest(cmds, tail)
  {
    var p := PrintItems(cmds[0]);
    hide PrintItems;
    if |cmds| > 1 {
      var q := PrintPipe(cmds[1..]);
      assert (p + ("| " + q)) + tail == p + ("| " + (q + tail));
    } else {
      assert p + "" == p;
    }
  }

  lemma PipeStart(s: string, a: nat, cmds: seq<seq<Item>>, tail: string)
    requires PipeAt(s, a, cmds, tail)
    ensures Solid(s, a)
  {
    PipeParts(s, a, cmds, tail);
    hide PipeAt;
    ItemsStart(s, a, cmds[0], PipeRest(cmds, tail));
  }

  lemma PipeNext(s: string, a: nat, cmds: seq<seq<Item>>, tail: string, e: nat)
    requires PipeAt(s, a, cmds, tail) && |cmds| > 1 && Left(s, e, "| " + (PrintPipe(cmds[1..]) + tail))
    ensures e + 2 <= |s| && Peek(s, e, {'|'}) && GetToken(s, e).pos == e + 2 && PipeAt(s, e + 2, cmds[1..], tail)
  {
    hide IsText, ItemsOk, PrintPipe, Left, Peek, GetToken;
    var rest := PrintPipe(cmds[1..]) + tail;
    LeftParts(s, e, "| ", rest);
    assert PipeAt(s, e + 2, cmds[1..], tail);
    PipeStart(s, e + 2, cmds[1..], tail);
    assert "| " == ['|', ' '];
    SymbolThenSpace(s, e, '|', rest);
  }

  lemma {:induction false} PipeFlat(s: string, a: nat, cmds: seq<seq<Item>>, tail: string)
    requires PipeAt(s, a, cmds, tail)
    ensures a <= |s| && var r := ParsePipe(s, a);
            r.Ok? && a <= r.pos && Left(s, r.pos, tail) && Resolve(s, r.value) == PipeTree(cmds)
    decreases |cmds|
  {
    hide IsText, ParseExec, ItemsTree, PipeAt, Left, Peek, GetToken, PrintPipe;
    PipeFollows(s, a, cmds, tail);
    PipeParts(s, a, cmds, tail);
    ExecFlat(s, a, cmds[0], PipeRest(cmds, tail));
    var e := ParseExec(s, a).pos;
    if |cmds| == 1 {
      NoneFollows(s, e, tail, {'&', ';'}, '|');
    } else {
      PipeNext(s, a, cmds, tail, e);
      PipeFlat(s, e + 2, cmds[1..], tail);
    }
  }

  lemma PipeFollows(s: string, a: nat, cmds: seq<seq<Item>>, tail: string)
    requires PipeAt(s, a, cmds, tail)
    ensures cmds != [] && Follows(tail, {'&', ';'})
  {
  }

  // ----- Lines -----

  lemma {:induction false} BacksFlat(s: string, a: nat, n: nat, tail: string, c: Cmd, t: Tree)
    requires IsText(s) && Left(s, a, PrintAmps(n) + tail) && Follows(tail, {';'}) && Resolve(s, c) == t
    ensures var r := ParseBacks(s, a, c);
            r.Ok? && a <= r.pos && Left(s, r.pos, tail) && Resolve(s, r.value) == Amps(t, n)
    decreases n
  {
    hide IsText, Left, Peek, GetToken;
    if n == 0 {
      assert PrintAmps(0) + tail == tail;
      NoneFollows(s, a, tail, {';'}, '&');
    } else {
      var rest := PrintAmps(n - 1) + tail;
      assert PrintAmps(n) + tail == "& " + rest && "& " == ['&', ' '];
      LeftParts(s, a, "& ", rest);
      AmpsStart(s, a + 2, n - 1, tail);
      SymbolThenSpace(s, a, '&', rest);
      BacksFlat(s, a + 2, n - 1, tail, Back(c), Amp(t));
    }
  }

  lemma AmpsStart(s: string, a: nat, n: nat, tail: string)
    requires Left(s, a, PrintAmps(n) + tail) && Follows(tail, {';'})
    ensures Solid(s, a)
  {
    hide Left;
    LeftChar(s, a, PrintAmps(n) + tail);
    if n == 0 {
      assert PrintAmps(0) + tail == tail;
    } else {
      assert (PrintAmps(n) + tail)[0] == '&';
    }
  }

  ghost predicate JobsAt(s: string, a: nat, jobs: seq<Job>) {
    jobs != [] && AllOk(jobs) && IsText(s) && Left(s, a, PrintJobs(jobs))
  }

  lemma JobsParts(s: string, a: nat, jobs: seq<Job>, tail: string)
    requires JobsAt(s, a, jobs)
    requires AllOk(jobs[1..]) && tail == if |jobs| == 1 then "" else "; " + PrintJobs(jobs[1..])
    ensures jobs[0].cmds != [] && PipeAt(s, a, jobs[0].cmds, PrintAmps(jobs[0].amps) + tail) && Follows(tail, {';'})
  {
    assert JobOk(jobs[0]);
    hide Left, IsText, ItemsOk, PrintPipe, Amps;
    var more := PrintAmps(jobs[0].amps) + tail;
    if jobs[0].amps == 0 {
      assert more == tail;
    } else {
      assert more[0] == '&';
    }
  }

  lemma JobsNext(s: string, e: nat, jobs: seq<Job>)
    requires |jobs| > 1 && AllOk(jobs) && AllOk(jobs[1..]) && IsText(s) && Left(s, e, "; " + PrintJobs(jobs[1..]))
    ensures e + 2 <= |s| && Peek(s, e, {';'}) && GetToken(s, e).pos == e + 2 && JobsAt(s, e + 2, jobs[1..])
  {
    hide IsText, Left, Peek, GetToken, PrintJobs, JobOk;
    var more := jobs[1..];
    LeftParts(s, e, "; ", PrintJobs(more));
    var tail := if |more| == 1 then "" else "; " + PrintJobs(more[1..]);
    JobsParts(s, e + 2, more, tail);
    PipeStart(s, e + 2, more[0].cmds, PrintAmps(more[0].amps) + tail);
    assert "; " == [';', ' '];
    SymbolThenSpace(s, e, ';', PrintJobs(more));
  }

  lemma {:induction false} JobsFlat(s: string, a: nat, jobs: seq<Job>)
    requires JobsAt(s, a, jobs)
    ensures a <= |s| && var r := ParseLine(s, a);
            r.Ok? && a <= r.pos == |s| && Resolve(s, r.value) == JobsTree(jobs)
    decreases |jobs|
  {
    hide IsText, ParsePipe, ParseBacks, PipeTree, Amps, Peek, GetToken, PrintJobs, PipeAt, JobOk, Left;
    assert AllOk(jobs[1..]);
    var tail := if |jobs| == 1 then "" else "; " + PrintJobs(jobs[1..]);
    JobsParts(s, a, jobs, tail);
    PipeFlat(s, a, jobs[0].cmds, PrintAmps(jobs[0].amps) + tail);
    var c := ParsePipe(s, a);
    BacksFlat(s, c.pos, jobs[0].amps, tail, c.value, PipeTree(jobs[0].cmds));
    var b := ParseBacks(s, c.pos, c.value);
    if |jobs| == 1 {
      NoneFollows(s, b.pos, tail, {}, ';');
      LeftChar(s, b.pos, tail);
    } else {
      JobsNext(s, b.pos, jobs);
      JobsFlat(s, b.pos + 2, jobs[1..]);
    }
  }

  /** A line without parentheses parses to the command it stands for: "|" binds tighter than "&",
      that tighter than ";", and each redirection belongs to the command it stands in. */
  lemma ParseFlat(jobs: seq<Job>)
    requires jobs != [] && AllOk(jobs)
    ensures var s := PrintJobs(jobs);
            IsText(s) && ParseCmd(s).Ok? && Resolve(s, ParseCmd(s).value) == JobsTree(jobs)
  {
    var s := PrintJobs(jobs);
    JobsText(jobs);
    assert s[0..] == s;
    hide PrintJobs, JobsTree, ParseLine, JobOk, IsText;
    JobsFlat(s, 0, jobs);
  }

  // ----- What is printed is text -----

  lemma TextParts(p: string, q: string)
    requires IsText(p) && IsText(q)
    ensures IsText(p + q)
  {
  }

  lemma {:induction false} ItemsText(items: seq<Item>)
    requires forall k :: 0 <= k < |items| ==> ItemOk(items[k])
    ensures IsText(PrintItems(items))
  {
    if items != [] {
      assert ItemOk(items[0]);
      assert IsText(PrintItem(items[0]));
      ItemsText(items[1..]);
    }
  }

  lemma {:induction false} PipeText(cmds: seq<seq<Item>>)
    requires cmds != [] && forall k :: 0 <= k < |cmds| ==> ItemsOk(cmds[k])
    ensures IsText(PrintPipe(cmds))
  {
    assert ItemsOk(cmds[0]);
    ItemsText(cmds[0]);
    hide PrintItems;
    if |cmds| > 1 {
      PipeText(cmds[1..]);
      TextParts("| ", PrintPipe(cmds[1..]));
    }
  }

  lemma {:induction false} AmpsText(n: nat)
    ensures IsText(PrintAmps(n))
  {
    if n > 0 {
      AmpsText(n - 1);
    }
  }

  lemma {:induction false} JobsText(jobs: seq<Job>)
    requires jobs != [] && AllOk(jobs)
    ensures IsText(PrintJobs(jobs))
  {
    assert JobOk(jobs[0]);
    PipeText(jobs[0].cmds);
    AmpsText(jobs[0].amps);
    var p, q := PrintPipe(jobs[0].cmds), PrintAmps(jobs[0].amps);
    var tail := "";
    if |jobs| > 1 {
      JobsText(jobs[1..]);
      tail := "; " + PrintJobs(jobs[1..]);
    }
    assert IsText(tail);
    assert PrintJobs(jobs) == p + (q + tail);
    hide PrintPipe, PrintAmps, PrintJobs, JobOk, IsText;
    TextParts(q, tail);
    TextParts(p, q + tail);
  }
}
