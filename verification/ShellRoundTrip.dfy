/** Parsing the parenthesised printing of a command tree gives the tree back. */
module ShellRoundTrip {
  import opened Options
  import opened Shell

  predicate Word(w: string) {
    |w| > 0 && forall i :: 0 <= i < |w| ==> InWord(w[i])
  }

  /** Trees the parser can build: at most nine words a command, and real words. */
  predicate WellFormed(t: Cmd<string>) {
    match t
    case Exec(argv) => |argv| < MAXARGS && forall i :: 0 <= i < |argv| ==> Word(argv[i])
    case Redir(cmd, file, mode) => WellFormed(cmd) && Word(file)
    case Pipe(left, right) => WellFormed(left) && WellFormed(right)
    case List(left, right) => WellFormed(left) && WellFormed(right)
    case Back(cmd) => WellFormed(cmd)
  }

  function PrintArgs(argv: seq<string>): string {
    if argv == [] then "" else if |argv| == 1 then argv[0] else argv[0] + (" " + PrintArgs(argv[1..]))
  }

  function Block(x: string): string {
    "(" + (x + ")")
  }

  function Sign(m: Mode): string {
    if m.In? then "<" else ">"
  }

  /** The canonical printing: every part of a compound command stands in parentheses. */
  function Print(t: Cmd<string>): string {
    match t
    case Exec(argv) => PrintArgs(argv)
    case Redir(cmd, file, mode) => Block(Print(cmd)) + (Sign(mode) + file)
    case Pipe(left, right) => Block(Print(left)) + ("|" + Block(Print(right)))
    case List(left, right) => Block(Print(left)) + (";" + Block(Print(right)))
    case Back(cmd) => Block(Print(cmd)) + "&"
  }

  // ---------- text at a place in the buffer ----------

  predicate Is(b: string, i: nat, x: string) {
    i + |x| <= |b| && b[i..i + |x|] == x
  }

  lemma IsParts(b: string, i: nat, x: string, y: string)
    requires Is(b, i, x + y)
    ensures Is(b, i, x) && Is(b, i + |x|, y)
  {
    assert b[i..i + |x|] == (x + y)[..|x|];
    assert b[i + |x|..i + |x| + |y|] == (x + y)[|x|..];
  }

  lemma IsChar(b: string, i: nat, x: string)
    requires Is(b, i, x) && |x| == 1
    ensures i < |b| && b[i] == x[0]
  {
    assert b[i..i + 1][0] == b[i];
  }

  /** The end of the input, or of a block. */
  predicate Stop(b: string, j: nat) {
    j == |b| || (j < |b| && b[j] == ')')
  }

  predicate Solid(b: string, i: nat) {
    i == |b| || (i < |b| && !IsSpace(b[i]))
  }

  lemma PeekSolid(b: string, i: nat, toks: string)
    requires Solid(b, i) && CString(b)
    ensures Skip(b, i) == i && (Peek(b, i, toks) <==> i < |b| && b[i] in toks)
  {
  }

  lemma WordToken(b: string, i: nat, w: string)
    requires CString(b) && Is(b, i, w) && Word(w) && (i + |w| == |b| || !InWord(b[i + |w|]))
    ensures var t := GetToken(b, i); t.tok == 'a' && t.q == i && t.eq == i + |w| && t.next == Skip(b, i + |w|)
    ensures Text(b, Span(i, i + |w|)) == w && Solid(b, i) && i < |b| && InWord(b[i])
  {
    forall k | i <= k < i + |w|
      ensures InWord(b[k])
    {
      assert b[k] == w[k - i];
    }
    WordEndIs(b, i, i + |w|);
  }

  lemma {:induction false} WordEndIs(b: string, i: nat, j: nat)
    requires CString(b) && i <= j <= |b| && (forall k :: i <= k < j ==> InWord(b[k])) && (j == |b| || !InWord(b[j]))
    ensures WordEnd(b, i) == j
    decreases j - i
  {
    if i < j {
      WordEndIs(b, i + 1, j);
    }
  }

  lemma SymbolToken(b: string, i: nat)
    requires CString(b) && i < |b| && IsSymbol(b[i]) && Solid(b, i + 1) && (b[i] == '>' ==> At(b, i + 1) != '>')
    ensures GetToken(b, i) == Token(b[i], i, i + 1, i + 1)
  {
  }

  /** A printed command never begins with a blank. */
  lemma {:induction false} PrintSolid(b: string, i: nat, t: Cmd<string>)
    requires WellFormed(t) && Is(b, i, Print(t)) && Stop(b, i + |Print(t)|)
    ensures Solid(b, i)
  {
    match t
    case Exec(argv) =>
      if argv != [] {
        assert PrintArgs(argv)[0] == argv[0][0];
        assert b[i] == b[i..i + |Print(t)|][0];
      }
    case _ =>
      assert b[i] == b[i..i + |Print(t)|][0];
      assert b[i] == '(';
  }

  // ---------- one step of each parsing function ----------

  lemma RedirsNone(b: string, j: nat, rs: Redirs)
    requires CString(b) && Solid(b, j) && At(b, j) != '<' && At(b, j) != '>'
    ensures ParseRedirs(b, j, rs) == Some((rs, j))
  {
    PeekSolid(b, j, "<>");
  }

  lemma RedirsOne(b: string, j: nat, f: string, m: Mode)
    requires CString(b) && Is(b, j, Sign(m)) && Is(b, j + 1, f) && Word(f) && Stop(b, j + 1 + |f|)
    ensures ParseRedirs(b, j, []) == Some(([(Span(j + 1, j + 1 + |f|), m)], j + 1 + |f|))
    ensures Text(b, Span(j + 1, j + 1 + |f|)) == f
  {
    IsChar(b, j, Sign(m));
    WordToken(b, j + 1, f);
    SymbolToken(b, j);
    PeekSolid(b, j, "<>");
    var end: nat := j + 1 + |f|;
    PeekSolid(b, end, "<>");
    var rs: Redirs := [(Span(j + 1, end), m)];
    assert [] + rs == rs;
    RedirsNone(b, end, rs);
    hide IsWord, WordEnd, Skip, Peek;
  }

  lemma PipeStop(b: string, i: nat, c: Cmd<Span>, j: nat)
    requires CString(b) && i <= |b| && ParseExec(b, i) == Some((c, j)) && Solid(b, j) && At(b, j) != '|'
    ensures ParsePipe(b, i) == Some((c, j))
  {
    PeekSolid(b, j, "|");
    hide ParseExec, Skip, Peek;
  }

  lemma PipeMore(b: string, i: nat, l: Cmd<Span>, j: nat, k: nat, r: Cmd<Span>, end: nat)
    requires CString(b) && i <= |b| && ParseExec(b, i) == Some((l, j)) && Is(b, j, "|") && k == j + 1 && Solid(b, k)
    requires ParsePipe(b, k) == Some((r, end))
    ensures ParsePipe(b, i) == Some((Pipe(l, r), end))
  {
    IsChar(b, j, "|");
    PeekSolid(b, j, "|");
    SymbolToken(b, j);
    hide ParseExec, Skip, Peek, GetToken;
  }

  lemma BacksNone(b: string, c: Cmd<Span>, j: nat)
    requires CString(b) && Solid(b, j) && At(b, j) != '&'
    ensures ParseBacks(b, c, j) == (c, j)
  {
    PeekSolid(b, j, "&");
  }

  lemma BacksOne(b: string, c: Cmd<Span>, j: nat)
    requires CString(b) && Is(b, j, "&") && Solid(b, j + 1) && At(b, j + 1) != '&'
    ensures ParseBacks(b, c, j) == (Back(c), j + 1)
  {
    IsChar(b, j, "&");
    PeekSolid(b, j, "&");
    SymbolToken(b, j);
    BacksNone(b, Back(c), j + 1);
    hide Skip, Peek, GetToken;
  }

  lemma LineStop(b: string, i: nat, c0: Cmd<Span>, j0: nat, c: Cmd<Span>, j: nat)
    requires CString(b) && i <= |b| && ParsePipe(b, i) == Some((c0, j0)) && j0 <= |b| && ParseBacks(b, c0, j0) == (c, j)
    requires Solid(b, j) && At(b, j) != ';'
    ensures ParseLine(b, i) == Some((c, j))
  {
    PeekSolid(b, j, ";");
    hide ParsePipe, ParseBacks, Skip, Peek, GetToken;
  }

  lemma LineMore(b: string, i: nat, l: Cmd<Span>, j: nat, k: nat, r: Cmd<Span>, end: nat)
    requires CString(b) && i <= |b| && ParsePipe(b, i) == Some((l, j)) && Is(b, j, ";") && k == j + 1 && Solid(b, k)
    requires ParseLine(b, k) == Some((r, end))
    ensures ParseLine(b, i) == Some((List(l, r), end))
  {
    IsChar(b, j, ";");
    BacksNone(b, l, j);
    PeekSolid(b, j, ";");
    SymbolToken(b, j);
    assert b[j] == ';' && ";"[0] == ';';
    assert Peek(b, j, ";") && GetToken(b, j).next == k;
    hide ParsePipe, ParseBacks, Skip, Peek, GetToken, Is, CString, IsSpace, IsSymbol, Solid, InWord, IsWord;
  }

  // ---------- a simple command ----------

  lemma ArgsEnd(b: string, i: nat, argv: seq<Span>)
    requires CString(b) && Stop(b, i)
    ensures ParseArgs(b, i, argv, []) == Some((Exec(argv), i))
  {
    PeekSolid(b, i, "|)&;");
    assert Wrap(Exec(argv), []) == Exec(argv);
  }

  lemma {:induction false} ArgsPrinted(b: string, i: nat, argv: seq<string>, done: seq<Span>, end: nat) returns (ws: seq<Span>)
    requires CString(b) && Is(b, i, PrintArgs(argv)) && end == i + |PrintArgs(argv)| && Stop(b, end)
    requires (forall k :: 0 <= k < |argv| ==> Word(argv[k])) && |done| + |argv| < MAXARGS
    ensures ParseArgs(b, i, done, []) == Some((Exec(done + ws), end))
    ensures Texts(b, ws) == argv
    decreases |argv|
  {
    if argv == [] {
      ArgsEnd(b, i, done);
      ws := [];
      assert done + [] == done;
    } else {
      var w := argv[0];
      var e, next := ArgsStep(b, i, argv, end);
      var span := Span(i, e);
      var more := done + [span];
      OneArg(b, i, w, done, e, next, span);
      hide *;
      var rest := ArgsPrinted(b, next, argv[1..], more, end);
      ws := [span] + rest;
      JoinTexts(b, span, rest, w, argv);
      JoinSpans(done, span, rest);
    }
  }

  lemma JoinSpans(done: seq<Span>, span: Span, rest: seq<Span>)
    ensures done + [span] + rest == done + ([span] + rest)
  {
  }

  lemma JoinTexts(b: string, w: Span, rest: seq<Span>, x: string, argv: seq<string>)
    requires argv != [] && Text(b, w) == x == argv[0] && Texts(b, rest) == argv[1..]
    ensures Texts(b, [w] + rest) == argv
  {
    hide Text, Texts;
    assert forall k :: 0 < k < |argv| ==> argv[k] == argv[1..][k - 1];
  }

  /** The first word of a printed command, where it ends and where the next one begins. */
  lemma ArgsStep(b: string, i: nat, argv: seq<string>, end: nat) returns (e: nat, next: nat)
    requires CString(b) && Is(b, i, PrintArgs(argv)) && end == i + |PrintArgs(argv)| && Stop(b, end) && argv != []
    requires forall k :: 0 <= k < |argv| ==> Word(argv[k])
    ensures Is(b, i, argv[0]) && e == i + |argv[0]| <= |b| && (e == |b| || !InWord(b[e])) && Skip(b, e) == next <= |b| && Solid(b, next)
    ensures Is(b, next, PrintArgs(argv[1..])) && end == next + |PrintArgs(argv[1..])|
    ensures next < |b| ==> b[next] == ')' || InWord(b[next])
    ensures forall k :: 0 <= k < |argv[1..]| ==> Word(argv[1..][k])
  {
    e := i + |argv[0]|;
    next := e;
    if |argv| > 1 {
      IsParts(b, i, argv[0], " " + PrintArgs(argv[1..]));
      IsParts(b, e, " ", PrintArgs(argv[1..]));
      IsChar(b, e, " ");
      next := e + 1;
      assert PrintArgs(argv[1..])[0] == argv[1][0];
      assert b[next] == b[next..next + |PrintArgs(argv[1..])|][0];
    }
  }

  lemma OneArg(b: string, i: nat, w: string, done: seq<Span>, e: nat, next: nat, span: Span)
    requires CString(b) && Is(b, i, w) && Word(w) && e == i + |w| && (e == |b| || !InWord(b[e])) && |done| + 1 < MAXARGS
    requires Skip(b, e) == next <= |b| && Solid(b, next) && (next < |b| ==> b[next] == ')' || InWord(b[next])) && span == Span(i, e)
    ensures ParseArgs(b, i, done, []) == ParseArgs(b, next, done + [span], []) && Text(b, span) == w
  {
    WordToken(b, i, w);
    PeekSolid(b, i, "|)&;");
    RedirsNone(b, next, []);
  }

  lemma ExecPrinted(b: string, i: nat, argv: seq<string>, end: nat) returns (c: Cmd<Span>)
    requires CString(b) && Is(b, i, PrintArgs(argv)) && end == i + |PrintArgs(argv)| && Stop(b, end) && WellFormed(Exec(argv))
    ensures ParseExec(b, i) == Some((c, end)) && Words(b, c) == Exec(argv)
  {
    PrintSolid(b, i, Exec(argv));
    NoSymbolFirst(b, i, argv, end);
    PeekSolid(b, i, "(");
    RedirsNone(b, i, []);
    var ws := ArgsPrinted(b, i, argv, [], end);
    c := Exec([] + ws);
    assert [] + ws == ws;
    hide ParseArgs, ParseRedirs, ParseBlock, GetToken, Skip, Peek, PrintArgs, Texts, IsSpace, IsSymbol, Is, CString, Solid;
  }

  lemma NoSymbolFirst(b: string, i: nat, argv: seq<string>, end: nat)
    requires CString(b) && Is(b, i, PrintArgs(argv)) && end == i + |PrintArgs(argv)| && Stop(b, end) && WellFormed(Exec(argv))
    ensures At(b, i) != '<' && At(b, i) != '>' && At(b, i) != '('
  {
    if argv != [] {
      var e, next := ArgsStep(b, i, argv, end);
      WordToken(b, i, argv[0]);
      hide PrintArgs, GetToken, Skip, WordEnd;
    }
  }

  // ---------- blocks ----------

  /** The inside of the block at `i` parses to `c`; `j` is the place after the block. */
  ghost predicate Parsed(b: string, i: nat, x: string, c: Cmd<Span>, j: nat) {
    && CString(b) && Is(b, i, Block(x)) && j == i + |x| + 2 && i + 1 <= |b| && Solid(b, i + 1)
    && ParseLine(b, i + 1) == Some((c, j - 1))
  }

  /** The two parentheses of a block. */
  lemma BlockChars(b: string, i: nat, x: string, j: nat)
    requires CString(b) && Is(b, i, Block(x)) && j == i + |x| + 2 && i + 1 <= |b| && Solid(b, i + 1) && Solid(b, j)
    ensures j <= |b| && Peek(b, i, "(") && GetToken(b, i).next == i + 1
    ensures Peek(b, j - 1, ")") && GetToken(b, j - 1).next == j
  {
    IsParts(b, i, "(", x + ")");
    IsChar(b, i, "(");
    IsParts(b, i + 1, x, ")");
    IsChar(b, i + 1 + |x|, ")");
    PeekSolid(b, i, "(");
    SymbolToken(b, i);
    PeekSolid(b, i + 1 + |x|, ")");
    SymbolToken(b, i + 1 + |x|);
  }

  /** Given the inside of a block, the block up to its closing parenthesis. */
  lemma BlockParsed(b: string, i: nat, x: string, c: Cmd<Span>, j: nat)
    requires Parsed(b, i, x, c, j) && Solid(b, j)
    ensures ParseExec(b, i) == ParseBlock(b, i)
    ensures var rs := ParseRedirs(b, j, []);
      ParseBlock(b, i) == if rs.None? then None else Some((Wrap(c, rs.value.0), rs.value.1))
  {
    hide Is, Peek, GetToken, Skip, CString, ParseLine, ParseRedirs, Wrap;
    BlockChars(b, i, x, j);
  }

  /** A block that no redirection follows. */
  lemma PlainBlock(b: string, i: nat, x: string, c: Cmd<Span>, j: nat)
    requires Parsed(b, i, x, c, j) && Solid(b, j) && At(b, j) != '<' && At(b, j) != '>'
    ensures ParseExec(b, i) == Some((c, j))
  {
    RedirsNone(b, j, []);
    BlockParsed(b, i, x, c, j);
    assert Wrap(c, []) == c;
    hide ParseExec, ParseBlock, ParseRedirs, ParseLine, Skip, Peek, GetToken, Parsed, Solid, Wrap;
  }

  lemma WrapOne<W>(c: Cmd<W>, f: W, m: Mode)
    ensures Wrap(c, [(f, m)]) == Redir(c, f, m)
  {
    assert [(f, m)][..0] == [];
    assert Wrap(c, []) == c;
  }

  /** A block with one redirection and then a stop. */
  lemma RedirBlock(b: string, i: nat, x: string, c: Cmd<Span>, j: nat, m: Mode, f: string, span: Span, end: nat)
    requires Parsed(b, i, x, c, j) && Is(b, j, Sign(m)) && Is(b, j + 1, f) && Word(f)
    requires span == Span(j + 1, end) && end == j + 1 + |f| && Stop(b, end)
    ensures ParseExec(b, i) == Some((Redir(c, span, m), end)) && Text(b, span) == f
  {
    RedirsOne(b, j, f, m);
    IsChar(b, j, Sign(m));
    assert Solid(b, j);
    BlockParsed(b, i, x, c, j);
    WrapOne(c, span, m);
    hide ParseExec, ParseBlock, ParseRedirs, ParseLine, Skip, Peek, GetToken, Is, CString, Solid, Stop, Word, Block, Sign, Text, Parsed, Wrap;
  }

  // ---------- pipelines and lines ----------

  function Size(t: Cmd<string>): nat {
    match t
    case Exec(argv) => 1
    case Redir(cmd, file, mode) => 1 + Size(cmd)
    case Pipe(left, right) => 1 + Size(left) + Size(right)
    case List(left, right) => 1 + Size(left) + Size(right)
    case Back(cmd) => 1 + Size(cmd)
  }

  /** A command that nothing extends is a pipeline and a line of its own. */
  lemma Alone(b: string, i: nat, c: Cmd<Span>, j: nat)
    requires CString(b) && i <= |b| && ParseExec(b, i) == Some((c, j)) && Stop(b, j)
    ensures ParsePipe(b, i) == Some((c, j)) && ParseLine(b, i) == Some((c, j))
  {
    hide ParseExec, ParsePipe, ParseBacks, ParseLine;
    PipeStop(b, i, c, j);
    BacksNone(b, c, j);
    LineStop(b, i, c, j, c, j);
  }

  /** The canonical printing of `t`, followed by the end or a closing parenthesis, parses to `t`. */
  lemma {:induction false} LinePrinted(b: string, i: nat, t: Cmd<string>, end: nat) returns (c: Cmd<Span>)
    requires CString(b) && WellFormed(t) && Is(b, i, Print(t)) && end == i + |Print(t)| && Stop(b, end)
    ensures ParseLine(b, i) == Some((c, end)) && Words(b, c) == t
    decreases Size(t), 1
  {
    match t
    case Exec(argv) =>
      hide ParseExec, ParseLine, Is, CString, Stop;
      c := ExecPrinted(b, i, argv, end);
      Alone(b, i, c, end);
    case Redir(cmd, file, mode) =>
      c := RedirPrinted(b, i, cmd, file, mode, end);
    case Pipe(left, right) =>
      c := PipePrinted(b, i, left, right, end);
    case List(left, right) =>
      c := ListPrinted(b, i, left, right, end);
    case Back(cmd) =>
      c := BackPrinted(b, i, cmd, end);
  }

  /** The block of the printing at `i`, and the rest of it at `j`. */
  lemma {:induction false} BlockThen(b: string, i: nat, t: Cmd<string>, rest: string, end: nat) returns (c: Cmd<Span>, j: nat)
    requires CString(b) && WellFormed(t) && Is(b, i, Block(Print(t)) + rest) && end == i + |Block(Print(t)) + rest|
    ensures Parsed(b, i, Print(t), c, j) && Is(b, j, rest) && i <= j && end == j + |rest| && Words(b, c) == t
    decreases Size(t), 3
  {
    IsParts(b, i, Block(Print(t)), rest);
    j := i + |Print(t)| + 2;
    c := Inside(b, i, t, j);
  }

  lemma {:induction false} Inside(b: string, i: nat, t: Cmd<string>, j: nat) returns (c: Cmd<Span>)
    requires CString(b) && WellFormed(t) && Is(b, i, Block(Print(t))) && j == i + |Print(t)| + 2
    ensures Parsed(b, i, Print(t), c, j) && Words(b, c) == t
    decreases Size(t), 2
  {
    hide Print, Is, CString, WellFormed, ParseLine, Words;
    IsParts(b, i, "(", Print(t) + ")");
    IsParts(b, i + 1, Print(t), ")");
    IsChar(b, j - 1, ")");
    PrintSolid(b, i + 1, t);
    c := LinePrinted(b, i + 1, t, j - 1);
  }

  lemma {:induction false} RedirPrinted(b: string, i: nat, cmd: Cmd<string>, file: string, mode: Mode, end: nat) returns (c: Cmd<Span>)
    requires CString(b) && WellFormed(cmd) && Word(file) && Is(b, i, Block(Print(cmd)) + (Sign(mode) + file))
    requires end == i + |Block(Print(cmd)) + (Sign(mode) + file)| && Stop(b, end)
    ensures ParseLine(b, i) == Some((c, end)) && Words(b, c) == Redir(cmd, file, mode)
    decreases 1 + Size(cmd), 0
  {
    var inner, j := BlockThen(b, i, cmd, Sign(mode) + file, end);
    IsParts(b, j, Sign(mode), file);
    var span := Span(j + 1, end);
    assert CString(b) && i <= |b| && end == j + 1 + |file|;
    c := Redir(inner, span, mode);
    hide *;
    RedirBlock(b, i, Print(cmd), inner, j, mode, file, span, end);
    Alone(b, i, c, end);
  }

  lemma {:induction false} PipePrinted(b: string, i: nat, left: Cmd<string>, right: Cmd<string>, end: nat) returns (c: Cmd<Span>)
    requires CString(b) && WellFormed(left) && WellFormed(right) && Is(b, i, Block(Print(left)) + ("|" + Block(Print(right))))
    requires end == i + |Block(Print(left)) + ("|" + Block(Print(right)))| && Stop(b, end)
    ensures ParseLine(b, i) == Some((c, end)) && Words(b, c) == Pipe(left, right)
    decreases 1 + Size(left) + Size(right), 0
  {
    hide Is, CString, Print, WellFormed, Parsed, ParseLine, Stop;
    var l, j := BlockThen(b, i, left, "|" + Block(Print(right)), end);
    IsParts(b, j, "|", Block(Print(right)));
    var k := j + 1;
    var r := Inside(b, k, right, end);
    BlockStarts(b, k, Print(right));
    SignAt(b, i, j, "|");
    c := Pipe(l, r);
    hide *;
    PipeOfBlocks(b, i, Print(left), l, j, k, Print(right), r, end);
  }

  lemma PipeOfBlocks(b: string, i: nat, x: string, l: Cmd<Span>, j: nat, k: nat, y: string, r: Cmd<Span>, end: nat)
    requires CString(b) && i <= |b| && Parsed(b, i, x, l, j) && Is(b, j, "|") && At(b, j) == '|' && Solid(b, j)
    requires k == j + 1 && Parsed(b, k, y, r, end) && Solid(b, k) && k <= |b| && Stop(b, end)
    ensures ParseLine(b, i) == Some((Pipe(l, r), end))
  {
    hide ParseExec, ParsePipe, ParseLine, ParseBacks, Is, CString, Parsed;
    PlainBlock(b, i, x, l, j);
    PlainBlock(b, k, y, r, end);
    Alone(b, k, r, end);
    PipeMore(b, i, l, j, k, r, end);
    BacksNone(b, Pipe(l, r), end);
    LineStop(b, i, Pipe(l, r), end, Pipe(l, r), end);
  }

  lemma SignAt(b: string, i: nat, j: nat, sign: string)
    requires Is(b, j, sign) && |sign| == 1 && IsSymbol(sign[0]) && i <= j
    ensures Solid(b, j) && At(b, j) == sign[0] && i <= |b|
  {
    IsChar(b, j, sign);
  }

  lemma BlockStarts(b: string, i: nat, x: string)
    requires Is(b, i, Block(x))
    ensures Solid(b, i) && i < |b|
  {
    IsParts(b, i, "(", x + ")");
    IsChar(b, i, "(");
  }

  lemma {:induction false} ListPrinted(b: string, i: nat, left: Cmd<string>, right: Cmd<string>, end: nat) returns (c: Cmd<Span>)
    requires CString(b) && WellFormed(left) && WellFormed(right) && Is(b, i, Block(Print(left)) + (";" + Block(Print(right))))
    requires end == i + |Block(Print(left)) + (";" + Block(Print(right)))| && Stop(b, end)
    ensures ParseLine(b, i) == Some((c, end)) && Words(b, c) == List(left, right)
    decreases 1 + Size(left) + Size(right), 0
  {
    hide Is, CString, Print, WellFormed, Parsed, ParseLine, Stop;
    var l, j := BlockThen(b, i, left, ";" + Block(Print(right)), end);
    IsParts(b, j, ";", Block(Print(right)));
    var k := j + 1;
    var r := Inside(b, k, right, end);
    BlockStarts(b, k, Print(right));
    SignAt(b, i, j, ";");
    c := List(l, r);
    hide *;
    ListOfBlocks(b, i, Print(left), l, j, k, Print(right), r, end);
  }

  lemma ListOfBlocks(b: string, i: nat, x: string, l: Cmd<Span>, j: nat, k: nat, y: string, r: Cmd<Span>, end: nat)
    requires CString(b) && i <= |b| && Parsed(b, i, x, l, j) && Is(b, j, ";") && At(b, j) == ';' && Solid(b, j)
    requires k == j + 1 && Parsed(b, k, y, r, end) && Solid(b, k) && k <= |b| && Stop(b, end)
    ensures ParseLine(b, i) == Some((List(l, r), end))
  {
    hide ParseExec, ParsePipe, ParseLine, ParseBacks, Is, CString, Parsed;
    PlainBlock(b, i, x, l, j);
    PlainBlock(b, k, y, r, end);
    PipeStop(b, i, l, j);
    Alone(b, k, r, end);
    LineMore(b, i, l, j, k, r, end);
  }

  lemma {:induction false} BackPrinted(b: string, i: nat, cmd: Cmd<string>, end: nat) returns (c: Cmd<Span>)
    requires CString(b) && WellFormed(cmd) && Is(b, i, Block(Print(cmd)) + "&")
    requires end == i + |Block(Print(cmd)) + "&"| && Stop(b, end)
    ensures ParseLine(b, i) == Some((c, end)) && Words(b, c) == Back(cmd)
    decreases 1 + Size(cmd), 0
  {
    var inner, j := BlockThen(b, i, cmd, "&", end);
    IsChar(b, j, "&");
    assert Solid(b, j) && At(b, j) == '&' && i <= |b| && end == j + 1;
    c := Back(inner);
    hide *;
    BackOfBlock(b, i, Print(cmd), inner, j, end);
  }

  lemma BackOfBlock(b: string, i: nat, x: string, c: Cmd<Span>, j: nat, end: nat)
    requires CString(b) && i <= |b| && Parsed(b, i, x, c, j) && Is(b, j, "&") && At(b, j) == '&' && Solid(b, j)
    requires end == j + 1 && Stop(b, end)
    ensures ParseLine(b, i) == Some((Back(c), end))
  {
    hide ParseExec, ParsePipe, ParseLine, ParseBacks, Is, CString, Parsed;
    PlainBlock(b, i, x, c, j);
    PipeStop(b, i, c, j);
    BacksOne(b, c, j);
    LineStop(b, i, c, j, Back(c), end);
  }

  lemma {:induction false} PrintIsCString(t: Cmd<string>)
    requires WellFormed(t)
    ensures CString(Print(t))
  {
    match t
    case Exec(argv) => ArgsCString(argv);
    case Redir(cmd, file, mode) => PrintIsCString(cmd);
    case Pipe(left, right) => PrintIsCString(left); PrintIsCString(right);
    case List(left, right) => PrintIsCString(left); PrintIsCString(right);
    case Back(cmd) => PrintIsCString(cmd);
  }

  lemma {:induction false} ArgsCString(argv: seq<string>)
    requires forall i :: 0 <= i < |argv| ==> Word(argv[i])
    ensures CString(PrintArgs(argv))
  {
    if |argv| > 1 {
      ArgsCString(argv[1..]);
    }
  }

  /** For every tree the parser can build, parsing its printing gives the tree back. */
  lemma RoundTrip(t: Cmd<string>)
    requires WellFormed(t)
    ensures CString(Print(t)) && ParseCmd(Print(t)).Some? && Words(Print(t), ParseCmd(Print(t)).value) == t
  {
    PrintIsCString(t);
    var b := Print(t);
    assert b[0..|b|] == b;
    var c := LinePrinted(b, 0, t, |b|);
  }
}
