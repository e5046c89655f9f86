/** The shell's parser: tokens over a shared buffer, and the recursive descent that builds a
    command tree whose words are spans of that buffer. `None` is a syntax error. */
module Shell {
  import opened Options

  const MAXARGS: nat := 10

  /** `In` is O_RDONLY on descriptor 0, `Out` is O_WRONLY|O_CREATE on descriptor 1. */
  datatype Mode = In | Out

  datatype Cmd<W> =
    | Exec(argv: seq<W>)
    | Redir(cmd: Cmd<W>, file: W, mode: Mode)
    | Pipe(left: Cmd<W>, right: Cmd<W>)
    | List(left: Cmd<W>, right: Cmd<W>)
    | Back(cmd: Cmd<W>)

  /** The bytes from `q` up to `eq`. */
  datatype Span = Span(q: nat, eq: nat)

  // ---------- tokens ----------

  predicate IsSpace(c: char) {
    c == ' ' || c == '\t' || c == '\r' || c == '\n' || c == '\U{0B}'
  }

  predicate IsSymbol(c: char) {
    c == '<' || c == '|' || c == '>' || c == '&' || c == ';' || c == '(' || c == ')'
  }

  predicate InWord(c: char) {
    !IsSpace(c) && !IsSymbol(c) && c != '\0'
  }

  predicate CString(b: string) {
    forall i :: 0 <= i < |b| ==> b[i] != '\0'
  }

  /** The character at `s`; the NUL after the last one. */
  function At(b: string, s: nat): char {
    if s < |b| then b[s] else '\0'
  }

  function Skip(b: string, s: nat): (r: nat)
    requires s <= |b|
    ensures s <= r <= |b| && (r == |b| || !IsSpace(b[r]))
    decreases |b| - s
  {
    if s < |b| && IsSpace(b[s]) then Skip(b, s + 1) else s
  }

  function WordEnd(b: string, s: nat): (r: nat)
    requires s <= |b| && CString(b)
    ensures s <= r <= |b| && (forall i :: s <= i < r ==> InWord(b[i])) && (r == |b| || !InWord(b[r]))
    decreases |b| - s
  {
    if s < |b| && !IsSpace(b[s]) && !IsSymbol(b[s]) then WordEnd(b, s + 1) else s
  }

  datatype Token = Token(tok: char, q: nat, eq: nat, next: nat)

  /** `gettoken`: 'a' is a word, '+' is ">>", NUL the end. */
  function GetToken(b: string, s: nat): (r: Token)
    requires s <= |b| && CString(b)
    ensures s <= r.q <= r.eq <= r.next <= |b|
    ensures r.tok == '\0' <==> r.q == |b|
    ensures r.tok != '\0' ==> r.q < r.eq
    ensures r.tok == 'a' ==> IsWord(b, r.q, r.eq)
  {
    var q := Skip(b, s);
    var c := At(b, q);
    var tok := if c == '\0' then '\0' else if c == '>' && At(b, q + 1) == '>' then '+' else if IsSymbol(c) then c else 'a';
    var eq := if c == '\0' then q else if tok == '+' then q + 2 else if IsSymbol(c) then q + 1 else WordEnd(b, q);
    Token(tok, q, eq, Skip(b, eq))
  }

  /** A whole word: word characters, and no word character after them. */
  predicate IsWord(b: string, q: nat, eq: nat) {
    q < eq <= |b| && (forall i :: q <= i < eq ==> InWord(b[i])) && (eq == |b| || !InWord(b[eq]))
  }

  /** `peek`: is the next character one of `toks`? */
  predicate Peek(b: string, s: nat, toks: string)
    requires s <= |b|
  {
    At(b, Skip(b, s)) != '\0' && At(b, Skip(b, s)) in toks
  }

  // ---------- recursive descent ----------

  /** The redirections in the order they were read, each around what came before. */
  function Wrap<W>(c: Cmd<W>, rs: seq<(W, Mode)>): Cmd<W> {
    if rs == [] then c else Redir(Wrap(c, rs[..|rs| - 1]), rs[|rs| - 1].0, rs[|rs| - 1].1)
  }

  type Redirs = seq<(Span, Mode)>

  function ParseRedirs(b: string, s: nat, rs: Redirs): (r: Option<(Redirs, nat)>)
    requires s <= |b| && CString(b)
    ensures r.Some? ==> s <= r.value.1 <= |b|
    decreases |b| - s
  {
    if !Peek(b, s, "<>") then Some((rs, Skip(b, s)))
    else
      var op := GetToken(b, s);
      var file := GetToken(b, op.next);
      if file.tok != 'a' then None
      else ParseRedirs(b, file.next, rs + [(Span(file.q, file.eq), if op.tok == '<' then In else Out)])
  }

  /** The words of a command, with redirections between them. */
  function ParseArgs(b: string, s: nat, argv: seq<Span>, rs: Redirs): (r: Option<(Cmd<Span>, nat)>)
    requires s <= |b| && CString(b)
    ensures r.Some? ==> s <= r.value.1 <= |b|
    decreases |b| - s
  {
    if Peek(b, s, "|)&;") then Some((Wrap(Exec(argv), rs), Skip(b, s)))
    else
      var t := GetToken(b, s);
      if t.tok == '\0' then Some((Wrap(Exec(argv), rs), t.next))
      else if t.tok != 'a' || |argv| + 1 >= MAXARGS then None
      else
        var more := ParseRedirs(b, t.next, rs);
        if more.None? then None else ParseArgs(b, more.value.1, argv + [Span(t.q, t.eq)], more.value.0)
  }

  function ParseExec(b: string, s: nat): (r: Option<(Cmd<Span>, nat)>)
    requires s <= |b| && CString(b)
    ensures r.Some? ==> s <= r.value.1 <= |b|
    decreases |b| - s, 1
  {
    if Peek(b, s, "(") then ParseBlock(b, s)
    else
      var first := ParseRedirs(b, s, []);
      if first.None? then None else ParseArgs(b, first.value.1, [], first.value.0)
  }

  function ParseBlock(b: string, s: nat): (r: Option<(Cmd<Span>, nat)>)
    requires s <= |b| && CString(b)
    ensures r.Some? ==> s <= r.value.1 <= |b|
    decreases |b| - s, 0
  {
    if !Peek(b, s, "(") then None
    else
      var inside := ParseLine(b, GetToken(b, s).next);
      if inside.None? || !Peek(b, inside.value.1, ")") then None
      else
        var rs := ParseRedirs(b, GetToken(b, inside.value.1).next, []);
        if rs.None? then None else Some((Wrap(inside.value.0, rs.value.0), rs.value.1))
  }

  function ParsePipe(b: string, s: nat): (r: Option<(Cmd<Span>, nat)>)
    requires s <= |b| && CString(b)
    ensures r.Some? ==> s <= r.value.1 <= |b|
    decreases |b| - s, 2
  {
    var left := ParseExec(b, s);
    if left.None? || !Peek(b, left.value.1, "|") then Trimmed(b, left)
    else
      var right := ParsePipe(b, GetToken(b, left.value.1).next);
      if right.None? then None else Some((Pipe(left.value.0, right.value.0), right.value.1))
  }

  /** The cursor after a `peek`, which skips blanks. */
  function Trimmed(b: string, r: Option<(Cmd<Span>, nat)>): (u: Option<(Cmd<Span>, nat)>)
    requires r.Some? ==> r.value.1 <= |b|
    ensures u.Some? <==> r.Some?
    ensures u.Some? ==> u.value.0 == r.value.0 && r.value.1 <= u.value.1 <= |b|
  {
    if r.None? then None else Some((r.value.0, Skip(b, r.value.1)))
  }

  /** The `&`s after a pipeline. */
  function ParseBacks(b: string, c: Cmd<Span>, s: nat): (r: (Cmd<Span>, nat))
    requires s <= |b| && CString(b)
    ensures s <= r.1 <= |b|
    decreases |b| - s
  {
    if Peek(b, s, "&") then ParseBacks(b, Back(c), GetToken(b, s).next) else (c, Skip(b, s))
  }

  function ParseLine(b: string, s: nat): (r: Option<(Cmd<Span>, nat)>)
    requires s <= |b| && CString(b)
    ensures r.Some? ==> s <= r.value.1 <= |b|
    decreases |b| - s, 3
  {
    var first := ParsePipe(b, s);
    if first.None? then None
    else
      var (c, s1) := ParseBacks(b, first.value.0, first.value.1);
      if !Peek(b, s1, ";") then Some((c, s1))
      else
        var rest := ParseLine(b, GetToken(b, s1).next);
        if rest.None? then None else Some((List(c, rest.value.0), rest.value.1))
  }

  /** The whole input must be used up. */
  function ParseCmd(b: string): Option<Cmd<Span>>
    requires CString(b)
  {
    var r := ParseLine(b, 0);
    if r.Some? && Skip(b, r.value.1) == |b| then Some(r.value.0) else None
  }

  // ---------- words ----------

  function Text(b: string, w: Span): string {
    if w.q <= w.eq <= |b| then b[w.q..w.eq] else ""
  }

  function Texts(b: string, ws: seq<Span>): (r: seq<string>)
    ensures |r| == |ws| && forall i :: 0 <= i < |r| ==> r[i] == Text(b, ws[i])
  {
    seq(|ws|, i requires 0 <= i < |ws| => Text(b, ws[i]))
  }

  /** The tree with its words read from the buffer. */
  function Words(b: string, c: Cmd<Span>): Cmd<string> {
    match c
    case Exec(argv) => Exec(Texts(b, argv))
    case Redir(cmd, file, mode) => Redir(Words(b, cmd), Text(b, file), mode)
    case Pipe(left, right) => Pipe(Words(b, left), Words(b, right))
    case List(left, right) => List(Words(b, left), Words(b, right))
    case Back(cmd) => Back(Words(b, cmd))
  }

  /** Every word of the tree is a whole word of the buffer, and there is room for them. */
  predicate Spanned(b: string, c: Cmd<Span>) {
    match c
    case Exec(argv) => |argv| < MAXARGS && forall i :: 0 <= i < |argv| ==> IsWord(b, argv[i].q, argv[i].eq)
    case Redir(cmd, file, mode) => Spanned(b, cmd) && IsWord(b, file.q, file.eq)
    case Pipe(left, right) => Spanned(b, left) && Spanned(b, right)
    case List(left, right) => Spanned(b, left) && Spanned(b, right)
    case Back(cmd) => Spanned(b, cmd)
  }
}
